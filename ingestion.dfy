/** The ingestion pipeline shared by both scanners: the two derived fields of a stored
    post, and `processPosts`, an insert-if-absent pass over one batch that runs as one
    transaction. The posts table is a map from post id to its stored record. */
module Ingestion {
  import opened Wrappers
  import opened Feed

  datatype Orientation = Wide | Tall | Square

  /** JavaScript truthiness of an optional number: absent and 0 are falsy. */
  predicate Truthy(x: Option<int>)
  {
    x.Some? && x.value != 0
  }

  /** The same for an optional time in seconds. */
  predicate TruthyTime(x: Option<real>)
  {
    x.Some? && x.value != 0.0
  }

  /** `w / h > n / d` for `h != 0` and `d > 0`, decided by cross-multiplication. */
  predicate RatioAbove(w: int, h: int, n: int, d: int)
  {
    if h > 0 then d * w > n * h else d * w < n * h
  }

  /** `w / h < n / d` for `h != 0` and `d > 0`. */
  predicate RatioBelow(w: int, h: int, n: int, d: int)
  {
    if h > 0 then d * w < n * h else d * w > n * h
  }

  /** `getOrientation`: wide above the ratio 1.1, tall below 0.9, square otherwise and
      whenever a dimension is missing or zero. */
  function GetOrientation(width: Option<int>, height: Option<int>): Orientation
  {
    if !Truthy(width) || !Truthy(height) then Square
    else if RatioAbove(width.value, height.value, 11, 10) then Wide
    else if RatioBelow(width.value, height.value, 9, 10) then Tall
    else Square
  }

  /** For `h != 0` and `d > 0`, the cross-multiplied tests decide the real-valued
      comparisons of `w / h` with `n / d`. */
  lemma RatioTestsMatchReals(w: int, h: int, n: int, d: int)
    requires h != 0 && d > 0
    ensures RatioAbove(w, h, n, d) <==> (w as real) / (h as real) > (n as real) / (d as real)
    ensures RatioBelow(w, h, n, d) <==> (w as real) / (h as real) < (n as real) / (d as real)
  {
    var hr, dr := h as real, d as real;
    var q, c := (w as real) / hr, (n as real) / dr;
    assert q * hr == w as real;
    assert c * dr == n as real;
    assert (d * w) as real == dr * q * hr;
    assert (n * h) as real == c * dr * hr;
    if h > 0 {
      assert dr * hr > 0.0;
      assert q > c <==> dr * hr * q > dr * hr * c;
      assert q < c <==> dr * hr * q < dr * hr * c;
    } else {
      assert dr * hr < 0.0;
      assert q > c <==> dr * hr * q < dr * hr * c;
      assert q < c <==> dr * hr * q > dr * hr * c;
    }
  }

  /** The integer tests agree with the real-valued ratio `width / height` the source
      compares against 1.1 and 0.9, in both directions; the boundary ratios 1.1 and 0.9
      themselves give square. */
  lemma OrientationMatchesRatio(w: int, h: int)
    requires w != 0 && h != 0
    ensures GetOrientation(Some(w), Some(h)) == Wide <==> (w as real) / (h as real) > 1.1
    ensures GetOrientation(Some(w), Some(h)) == Tall <==> (w as real) / (h as real) < 0.9
    ensures GetOrientation(Some(w), Some(h)) == Square <==>
              0.9 <= (w as real) / (h as real) <= 1.1
  {
    RatioTestsMatchReals(w, h, 11, 10);
    RatioTestsMatchReals(w, h, 9, 10);
    assert (11 as real) / (10 as real) == 1.1;
    assert (9 as real) / (10 as real) == 0.9;
  }

  /** `framesToDuration` in hundredths of a second: 0 for a missing or non-positive frame
      count, otherwise frames / 30 seconds rounded to two decimals. `10 * frames / 3`
      is never exactly halfway between two hundredths, so the rounding is unambiguous. */
  function FramesToDuration(nFrames: Option<int>): (r: nat)
    ensures !Truthy(nFrames) || nFrames.value <= 0 ==> r == 0
    ensures Truthy(nFrames) && nFrames.value > 0 ==> -1 <= 3 * r - 10 * nFrames.value <= 1
  {
    if !Truthy(nFrames) || nFrames.value <= 0 then 0 else (10 * nFrames.value + 1) / 3
  }

  /** The stored duration is the hundredth nearest to frames / 30 seconds. */
  lemma DurationIsNearestHundredth(frames: int, other: int)
    requires frames > 0
    ensures var d := FramesToDuration(Some(frames)) as real / 100.0;
            var exact := frames as real / 30.0;
            -1.0 / 300.0 <= d - exact <= 1.0 / 300.0
            && (other as real / 100.0 - exact < -1.0 / 300.0
                || other as real / 100.0 - exact > 1.0 / 300.0
                || other == FramesToDuration(Some(frames)))
  {
    var r := FramesToDuration(Some(frames));
    assert -1 <= 3 * r - 10 * frames <= 1;
    assert r as real / 100.0 - frames as real / 30.0 == (3 * r - 10 * frames) as real / 300.0;
    assert other as real / 100.0 - frames as real / 30.0 == (3 * other - 10 * frames) as real / 300.0;
    if other != r {
      assert 3 * other - 10 * frames < -1 || 3 * other - 10 * frames > 1;
    }
  }

  /** 300 frames are 10 s; 0, missing and negative frame counts are 0 s. */
  lemma DurationExamples()
    ensures FramesToDuration(Some(300)) == 1000
    ensures FramesToDuration(Some(0)) == 0
    ensures FramesToDuration(None) == 0
    ensures FramesToDuration(Some(-5)) == 0
    ensures FramesToDuration(Some(1)) == 3 && FramesToDuration(Some(2)) == 7
  {
  }

  /** A row of the posts table. `prompt` is `post.text || null`. */
  datatype PostRecord = PostRecord(postedAt: int, orientation: Orientation, duration: nat, prompt: Option<string>)

  type PostTable = map<string, PostRecord>

  /** `post.attachments?.[0] || {}`. */
  function FirstAttachment(p: Post): Attachment
  {
    if |p.attachments| > 0 then p.attachments[0] else Attachment(None, None, None)
  }

  /** The record built for a post not yet stored; `now` is `Date.now()` in ms. The
      time is `Math.floor` of `posted_at`, or of `now` in seconds when `posted_at` is
      not truthy; the prompt is the post's text unless that is absent or empty. */
  function ToRecord(p: Post, now: int): (r: PostRecord)
    ensures r.prompt == if p.text.Some? && p.text.value != "" then p.text else None
    ensures TruthyTime(p.postedAt) ==> r.postedAt as real <= p.postedAt.value < r.postedAt as real + 1.0
    ensures !TruthyTime(p.postedAt) ==> r.postedAt * 1000 <= now < r.postedAt * 1000 + 1000
    ensures r.orientation == GetOrientation(FirstAttachment(p).width, FirstAttachment(p).height)
    ensures r.duration == FramesToDuration(FirstAttachment(p).nFrames)
  {
    var a := FirstAttachment(p);
    PostRecord(
      if TruthyTime(p.postedAt) then p.postedAt.value.Floor else now / 1000,
      GetOrientation(a.width, a.height),
      FramesToDuration(a.nFrames),
      if p.text.Some? && p.text.value != "" then p.text else None)
  }

  /** The transaction's working state after a prefix of the batch: the table as the
      transaction sees it and the two counters. */
  datatype Batch = Batch(table: PostTable, newPosts: nat, duplicates: nat)

  /** One loop iteration: a stored id is a duplicate and is skipped; otherwise the record
      is inserted and counted as new. */
  function Step(b: Batch, item: FeedItem, now: int): Batch
  {
    var id := item.post.id;
    if id in b.table then Batch(b.table, b.newPosts, b.duplicates + 1)
    else Batch(b.table[id := ToRecord(item.post, now)], b.newPosts + 1, b.duplicates)
  }

  /** The state after ingesting `items` in order into `table`. */
  function IngestAll(table: PostTable, items: seq<FeedItem>, now: int): Batch
    decreases |items|
  {
    if items == [] then Batch(table, 0, 0)
    else Step(IngestAll(table, items[..|items| - 1], now), items[|items| - 1], now)
  }

  /** The ids of a batch. */
  function ItemIds(items: seq<FeedItem>): set<string>
    decreases |items|
  {
    if items == [] then {} else ItemIds(items[..|items| - 1]) + {items[|items| - 1].post.id}
  }

  lemma {:induction false} ItemIdsMembers(items: seq<FeedItem>, id: string)
    ensures id in ItemIds(items) <==> exists i :: 0 <= i < |items| && items[i].post.id == id
    decreases |items|
  {
    if items != [] {
      var init := items[..|items| - 1];
      ItemIdsMembers(init, id);
      if id in ItemIds(init) {
        var i :| 0 <= i < |init| && init[i].post.id == id;
        assert items[i] == init[i];
      }
      if exists i :: 0 <= i < |items| && items[i].post.id == id {
        var i :| 0 <= i < |items| && items[i].post.id == id;
        if i < |items| - 1 { assert init[i] == items[i]; }
      }
    }
  }

  /** Every item is counted exactly once, as new or as duplicate. */
  lemma {:induction false} IngestCountsEveryItem(table: PostTable, items: seq<FeedItem>, now: int)
    ensures IngestAll(table, items, now).newPosts + IngestAll(table, items, now).duplicates == |items|
    decreases |items|
  {
    if items != [] {
      IngestCountsEveryItem(table, items[..|items| - 1], now);
    }
  }

  /** The table gains exactly the batch's ids. */
  lemma {:induction false} IngestKeys(table: PostTable, items: seq<FeedItem>, now: int)
    ensures IngestAll(table, items, now).table.Keys == table.Keys + ItemIds(items)
    decreases |items|
  {
    if items != [] {
      IngestKeys(table, items[..|items| - 1], now);
    }
  }

  /** Stored posts are never rewritten, and the table gains exactly the batch's ids. */
  lemma {:induction false} IngestKeepsStoredPosts(table: PostTable, items: seq<FeedItem>, now: int)
    ensures IngestAll(table, items, now).table.Keys == table.Keys + ItemIds(items)
    ensures forall id :: id in table ==> IngestAll(table, items, now).table[id] == table[id]
    decreases |items|
  {
    IngestKeys(table, items, now);
    if items != [] {
      IngestKeepsStoredPosts(table, items[..|items| - 1], now);
    }
  }

  /** Adding one id to a set grows its part outside `stored` by one exactly when the id
      is in neither. */
  lemma UnstoredGrowth(seen: set<string>, stored: set<string>, id: string)
    ensures |(seen + {id}) - stored| == |seen - stored| + (if id in seen || id in stored then 0 else 1)
  {
    if id in seen || id in stored {
      assert (seen + {id}) - stored == seen - stored;
    } else {
      assert (seen + {id}) - stored == (seen - stored) + {id};
    }
  }

  /** The number of new posts is the number of distinct batch ids not stored before, so
      an id repeated within one batch is new once and a duplicate afterwards. */
  lemma {:induction false} IngestNewPostsAreDistinctUnstoredIds(table: PostTable, items: seq<FeedItem>, now: int)
    ensures IngestAll(table, items, now).newPosts == |ItemIds(items) - table.Keys|
    decreases |items|
  {
    if items != [] {
      var init := items[..|items| - 1];
      var id := items[|items| - 1].post.id;
      var prev := IngestAll(table, init, now);
      IngestNewPostsAreDistinctUnstoredIds(table, init, now);
      IngestKeys(table, init, now);
      UnstoredGrowth(ItemIds(init), table.Keys, id);
      assert IngestAll(table, items, now) == Step(prev, items[|items| - 1], now);
    }
  }

  /** Ingesting the same batch again finds every id stored: no new posts, every item a
      duplicate, the table unchanged. */
  lemma IngestIsIdempotent(table: PostTable, items: seq<FeedItem>, now: int, later: int)
    ensures var once := IngestAll(table, items, now);
            var twice := IngestAll(once.table, items, later);
            twice.newPosts == 0 && twice.duplicates == |items| && twice.table == once.table
  {
    var once := IngestAll(table, items, now);
    IngestKeepsStoredPosts(table, items, now);
    IngestKeepsStoredPosts(once.table, items, later);
    IngestNewPostsAreDistinctUnstoredIds(once.table, items, later);
    IngestCountsEveryItem(once.table, items, later);
    assert ItemIds(items) - once.table.Keys == {};
  }

  /** A newly stored post is derived from the first item of the batch carrying its id. */
  lemma {:induction false} IngestStoresFirstOccurrence(table: PostTable, items: seq<FeedItem>, now: int, i: nat)
    requires i < |items| && items[i].post.id !in table
    requires forall j :: 0 <= j < i ==> items[j].post.id != items[i].post.id
    ensures items[i].post.id in IngestAll(table, items, now).table
            && IngestAll(table, items, now).table[items[i].post.id] == ToRecord(items[i].post, now)
    decreases |items|
  {
    IngestKeepsStoredPosts(table, items, now);
    var init := items[..|items| - 1];
    if i < |items| - 1 {
      IngestStoresFirstOccurrence(table, init, now, i);
      IngestKeepsStoredPosts(table, init, now);
      assert items[i].post.id in IngestAll(table, init, now).table by {
        assert init[i] == items[i];
      }
    } else {
      IngestKeepsStoredPosts(table, init, now);
      assert items[i].post.id !in ItemIds(init) by {
        ItemIdsMembers(init, items[i].post.id);
        forall j | 0 <= j < |init| ensures init[j].post.id != items[i].post.id {
          assert init[j] == items[j];
        }
      }
    }
  }

  /** The end-to-end case: three items, one of them already stored, give two new posts,
      one duplicate, and exactly two new rows. */
  lemma ThreeItemsOneStored(table: PostTable, a: FeedItem, b: FeedItem, c: FeedItem, now: int)
    requires a.post.id in table && b.post.id !in table && c.post.id !in table
    requires b.post.id != c.post.id
    ensures var r := IngestAll(table, [a, b, c], now);
            r.newPosts == 2 && r.duplicates == 1 && |r.table| == |table| + 2
  {
    var items := [a, b, c];
    assert items[..2] == [a, b] && [a, b][..1] == [a] && [a][..0] == [];
    assert IngestAll(table, [], now) == Batch(table, 0, 0);
    var b1 := IngestAll(table, [a], now);
    assert b1 == Step(Batch(table, 0, 0), a, now);
    assert b1 == Batch(table, 0, 1);
    var b2 := IngestAll(table, [a, b], now);
    assert b2 == Step(b1, b, now);
    assert b2 == Batch(table[b.post.id := ToRecord(b.post, now)], 1, 1);
    var r := IngestAll(table, items, now);
    assert r.table == b2.table[c.post.id := ToRecord(c.post, now)];
    assert |b2.table| == |table| + 1;
  }

  /** A database error raised while the transaction handles item `step` (`step == |items|`
      being the commit), as the oracle for the PostgreSQL client. */
  datatype DbError = DbError(step: nat, message: string)

  /** The outcome of the transaction: the fault if the database fails before COMMIT
      completes, otherwise the batch ingested into the stored table. */
  function Transaction(table: PostTable, items: seq<FeedItem>, now: int, fault: Option<DbError>): Result<Batch, DbError>
  {
    if fault.Some? && fault.value.step <= |items| then Err(fault.value) else Ok(IngestAll(table, items, now))
  }

  /** One more item of the batch is one more step. */
  lemma IngestAllExtends(table: PostTable, items: seq<FeedItem>, i: nat, now: int)
    requires i < |items|
    ensures IngestAll(table, items[..i + 1], now) == Step(IngestAll(table, items[..i], now), items[i], now)
  {
    assert items[..i + 1][..i] == items[..i];
  }

  /** A fault before COMMIT completes is returned and nothing is kept (the rollback);
      otherwise every item is counted once, as new or as duplicate, and the new ones are
      the distinct ids not stored before. */
  lemma TransactionOutcome(table: PostTable, items: seq<FeedItem>, now: int, fault: Option<DbError>)
    ensures var r := Transaction(table, items, now, fault);
            && (fault.Some? && fault.value.step <= |items| ==> r == Err(fault.value))
            && (fault.None? || fault.value.step > |items| ==> r == Ok(IngestAll(table, items, now)))
            && (r.Ok? ==> r.value.newPosts + r.value.duplicates == |items|
                          && r.value.newPosts == |ItemIds(items) - table.Keys|
                          && r.value.table.Keys == table.Keys + ItemIds(items))
  {
    IngestCountsEveryItem(table, items, now);
    IngestNewPostsAreDistinctUnstoredIds(table, items, now);
    IngestKeys(table, items, now);
  }

  /** `processPosts`: the loop over the batch inside BEGIN ... COMMIT. The working table
      is the transaction's view; on an error nothing is returned to commit, which is the
      rollback. `fault` says where the database fails, if anywhere. */
  method ProcessPosts(table: PostTable, items: seq<FeedItem>, now: int, fault: Option<DbError>)
    returns (r: Result<Batch, DbError>)
    ensures r == Transaction(table, items, now, fault)
  {
    var working := table;
    var newPosts, duplicates := 0, 0;
    var i := 0;
    while i < |items|
      invariant 0 <= i <= |items|
      invariant fault.Some? ==> fault.value.step >= i
      invariant Batch(working, newPosts, duplicates) == IngestAll(table, items[..i], now)
    {
      if fault.Some? && fault.value.step == i {
        return Err(fault.value);
      }
      var post := items[i].post;
      ghost var before := Batch(working, newPosts, duplicates);
      if post.id in working {
        duplicates := duplicates + 1;
      } else {
        working := working[post.id := ToRecord(post, now)];
        newPosts := newPosts + 1;
      }
      assert Batch(working, newPosts, duplicates) == Step(before, items[i], now);
      assert Batch(working, newPosts, duplicates) == IngestAll(table, items[..i + 1], now) by {
        IngestAllExtends(table, items, i, now);
      }
      i := i + 1;
    }
    if fault.Some? && fault.value.step == |items| {
      return Err(fault.value);
    }
    assert items[..|items|] == items;
    r := Ok(Batch(working, newPosts, duplicates));
  }
}
