/** The token store and the rotating fetcher of src/scanner.js, on values: the rows of
    the `jwt_tokens` table, the listing of valid tokens, adding and removing rows, the
    candidate list with its environment fallback, and the rotation over candidates. */
module Tokens {
  import opened Wrappers
  import opened Feed

  /** A row of `jwt_tokens`: SERIAL id, the token text (UNIQUE), its expiry and the
      time it was added, both in ms. */
  datatype TokenRow = TokenRow(id: nat, token: string, expiresAt: int, addedAt: int)

  /** `a` may be listed before `b` under `ORDER BY expires_at DESC, added_at DESC`. */
  predicate ListedBefore(a: TokenRow, b: TokenRow)
  {
    a.expiresAt > b.expiresAt || (a.expiresAt == b.expiresAt && a.addedAt >= b.addedAt)
  }

  predicate SortedByExpiry(rows: seq<TokenRow>)
  {
    forall i, j :: 0 <= i < j < |rows| ==> ListedBefore(rows[i], rows[j])
  }

  /** A row listed before every row of a sorted list can head it. */
  lemma ConsSorted(x: TokenRow, rows: seq<TokenRow>)
    requires SortedByExpiry(rows)
    requires forall j :: 0 <= j < |rows| ==> ListedBefore(x, rows[j])
    ensures SortedByExpiry([x] + rows)
  {
    var r := [x] + rows;
    forall i, j | 0 <= i < j < |r|
      ensures ListedBefore(r[i], r[j])
    {
      assert r[j] == rows[j - 1];
      if i > 0 {
        assert r[i] == rows[i - 1];
      }
    }
  }

  /** A row listed before the head of a sorted list is listed before all of it. */
  lemma BeforeHead(x: TokenRow, rows: seq<TokenRow>)
    requires rows != [] && SortedByExpiry(rows) && ListedBefore(x, rows[0])
    ensures forall j :: 0 <= j < |rows| ==> ListedBefore(x, rows[j])
  {
    forall j | 0 <= j < |rows| ensures ListedBefore(x, rows[j]) {
      if j > 0 { assert ListedBefore(rows[0], rows[j]); }
    }
  }

  /** The head of a sorted list is listed before the rest with a row it precedes
      inserted anywhere. */
  lemma HeadBeforeRest(x: TokenRow, rows: seq<TokenRow>, rest: seq<TokenRow>)
    requires rows != [] && SortedByExpiry(rows) && !ListedBefore(x, rows[0])
    requires forall y :: y in rest <==> y == x || y in rows[1..]
    ensures forall k :: 0 <= k < |rest| ==> ListedBefore(rows[0], rest[k])
  {
    forall k | 0 <= k < |rest| ensures ListedBefore(rows[0], rest[k]) {
      assert rest[k] in rest;
      if rest[k] != x {
        var j :| 0 <= j < |rows[1..]| && rows[1..][j] == rest[k];
        assert rows[1 + j] == rest[k];
      }
    }
  }

  function InsertByExpiry(x: TokenRow, rows: seq<TokenRow>): (r: seq<TokenRow>)
    requires SortedByExpiry(rows)
    ensures SortedByExpiry(r)
    ensures multiset(r) == multiset(rows) + multiset{x}
    ensures forall y :: y in r <==> y == x || y in rows
    ensures |r| == |rows| + 1
  {
    if rows == [] then [x]
    else if ListedBefore(x, rows[0]) then
      assert SortedByExpiry([x] + rows) by {
        BeforeHead(x, rows);
        ConsSorted(x, rows);
      }
      [x] + rows
    else
      var rest := InsertByExpiry(x, rows[1..]);
      assert rows == [rows[0]] + rows[1..];
      assert SortedByExpiry([rows[0]] + rest) by {
        HeadBeforeRest(x, rows, rest);
        ConsSorted(rows[0], rest);
      }
      [rows[0]] + rest
  }

  /** Insertion sort standing in for the database's ORDER BY (ties between rows with
      equal expiry and equal insertion time may come in any order there). */
  function SortByExpiry(rows: seq<TokenRow>): (r: seq<TokenRow>)
    ensures SortedByExpiry(r)
    ensures multiset(r) == multiset(rows)
  {
    if rows == [] then []
    else
      assert rows == [rows[0]] + rows[1..];
      InsertByExpiry(rows[0], SortByExpiry(rows[1..]))
  }

  /** `WHERE expires_at > NOW()`, keeping the table's order. */
  function Unexpired(rows: seq<TokenRow>, now: int): (r: seq<TokenRow>)
    ensures forall x :: x in r <==> x in rows && x.expiresAt > now
    ensures |r| <= |rows|
  {
    if rows == [] then []
    else
      assert rows == [rows[0]] + rows[1..];
      (if rows[0].expiresAt > now then [rows[0]] else []) + Unexpired(rows[1..], now)
  }

  /** `listValidTokens`: every row not yet expired, and only those, most-future expiry
      first, the most recently added first among equal expiries. */
  function ListValidTokens(rows: seq<TokenRow>, now: int): (r: seq<TokenRow>)
    ensures SortedByExpiry(r)
    ensures multiset(r) == multiset(Unexpired(rows, now))
    ensures forall x :: x in r <==> x in rows && x.expiresAt > now
  {
    var u := Unexpired(rows, now);
    var r := SortByExpiry(u);
    assert forall x :: x in r <==> x in multiset(r);
    assert forall x :: x in u <==> x in multiset(u);
    r
  }

  /** The table's constraints: SERIAL ids are positive and below the next value, ids
      and tokens are unique. */
  predicate WellFormed(rows: seq<TokenRow>, nextId: nat)
  {
    && nextId >= 1
    && (forall i :: 0 <= i < |rows| ==> 1 <= rows[i].id < nextId)
    && (forall i, j :: 0 <= i < j < |rows| ==> rows[i].id != rows[j].id && rows[i].token != rows[j].token)
  }

  predicate Stored(rows: seq<TokenRow>, token: string)
  {
    exists i :: 0 <= i < |rows| && rows[i].token == token
  }

  datatype AddError = InvalidJwtFormat | TokenAlreadyExpired

  function AddErrorMessage(e: AddError): string
  {
    match e
    case InvalidJwtFormat => "Invalid JWT format"
    case TokenAlreadyExpired => "Token already expired"
  }

  /** The table after `addToken`; `exp` is what decoding the token's claims gave and
      `now` the current time. The INSERT draws the next SERIAL value even when ON
      CONFLICT (token) DO NOTHING then drops the row. */
  datatype TokenTable = TokenTable(rows: seq<TokenRow>, nextId: nat)

  function AddToken(t: TokenTable, token: string, exp: Option<int>, now: int): (r: Result<TokenTable, AddError>)
    ensures exp.None? ==> r == Err(InvalidJwtFormat)
    ensures exp.Some? && exp.value <= now ==> r == Err(TokenAlreadyExpired)
    ensures exp.Some? && exp.value > now ==> r.Ok?
    ensures r.Ok? ==> r.value.nextId == t.nextId + 1
  {
    if exp.None? then Err(InvalidJwtFormat)
    else if exp.value <= now then Err(TokenAlreadyExpired)
    else if Stored(t.rows, token) then Ok(TokenTable(t.rows, t.nextId + 1))
    else Ok(TokenTable(t.rows + [TokenRow(t.nextId, token, exp.value, now)], t.nextId + 1))
  }

  /** A decodable token that has not expired is accepted. Adding keeps the table's
      constraints; re-adding a stored token changes no row; a new token becomes the last
      row, with the drawn id, its expiry and `now` as its addition time, and is listed as
      valid right away. */
  lemma AddTokenProperties(t: TokenTable, token: string, exp: Option<int>, now: int)
    requires WellFormed(t.rows, t.nextId)
    ensures var r := AddToken(t, token, exp, now);
            r.Ok? ==> WellFormed(r.value.rows, r.value.nextId)
    ensures var r := AddToken(t, token, exp, now);
            exp.Some? && exp.value > now && Stored(t.rows, token) ==>
              r.Ok? && r.value.rows == t.rows
    ensures var r := AddToken(t, token, exp, now);
            exp.Some? && exp.value > now && !Stored(t.rows, token) ==>
              && r.Ok?
              && r.value.rows == t.rows + [TokenRow(t.nextId, token, exp.value, now)]
              && TokenRow(t.nextId, token, exp.value, now) in ListValidTokens(r.value.rows, now)
  {
  }

  /** `DELETE FROM jwt_tokens WHERE id = $1`. */
  function RemoveById(rows: seq<TokenRow>, id: int): (r: seq<TokenRow>)
    ensures forall x :: x in r <==> x in rows && x.id != id
    ensures |r| <= |rows|
  {
    if rows == [] then []
    else
      assert rows == [rows[0]] + rows[1..];
      (if rows[0].id != id then [rows[0]] else []) + RemoveById(rows[1..], id)
  }

  /** `DELETE FROM jwt_tokens WHERE token = $1`. */
  function RemoveByToken(rows: seq<TokenRow>, token: string): (r: seq<TokenRow>)
    ensures forall x :: x in r <==> x in rows && x.token != token
    ensures |r| <= |rows|
  {
    if rows == [] then []
    else
      assert rows == [rows[0]] + rows[1..];
      (if rows[0].token != token then [rows[0]] else []) + RemoveByToken(rows[1..], token)
  }

  function RemoveIds(rows: seq<TokenRow>, ids: seq<nat>): seq<TokenRow>
    decreases |ids|
  {
    if ids == [] then rows else RemoveIds(RemoveById(rows, ids[0]), ids[1..])
  }

  lemma {:induction false} RemoveIdsMembers(rows: seq<TokenRow>, ids: seq<nat>)
    ensures forall x :: x in RemoveIds(rows, ids) <==> x in rows && x.id !in ids
    decreases |ids|
  {
    if ids != [] {
      RemoveIdsMembers(RemoveById(rows, ids[0]), ids[1..]);
      assert forall n :: n in ids <==> n == ids[0] || n in ids[1..] by {
        assert ids == [ids[0]] + ids[1..];
      }
    }
  }

  /** Deleting one more id after a run of deletions is the run extended by that id. */
  lemma {:induction false} RemoveIdsAppend(rows: seq<TokenRow>, ids: seq<nat>, more: seq<nat>)
    requires |more| <= 1
    ensures RemoveIds(rows, ids + more) == if more == [] then RemoveIds(rows, ids) else RemoveById(RemoveIds(rows, ids), more[0])
    decreases |ids|
  {
    if more == [] {
      assert ids + more == ids;
    } else if ids == [] {
      assert ids + more == more && more[1..] == [];
    } else {
      assert (ids + more)[0] == ids[0] && (ids + more)[1..] == ids[1..] + more;
      RemoveIdsAppend(RemoveById(rows, ids[0]), ids[1..], more);
    }
  }

  /** One entry of the fetcher's candidate list; `id` is null for the environment token. */
  datatype Candidate = Candidate(id: Option<nat>, token: string)

  /** `if (c.id)`: whether a failing candidate is deleted from the table. */
  predicate Removable(c: Candidate)
  {
    c.id.Some? && c.id.value != 0
  }

  /** The candidates of `fetchSoraFeed`: the listed tokens in order, or, only when none is
      listed, the environment token if it is set and non-empty. */
  function Candidates(valid: seq<TokenRow>, envToken: Option<string>): (r: seq<Candidate>)
    ensures |valid| > 0 ==> |r| == |valid|
                            && forall i :: 0 <= i < |r| ==> r[i] == Candidate(Some(valid[i].id), valid[i].token)
    ensures |valid| == 0 ==> (r == [] <==> envToken.None? || envToken.value == "")
    ensures |valid| == 0 && r != [] ==> r == [Candidate(None, envToken.value)]
  {
    if |valid| > 0 then StoredCandidates(valid)
    else if envToken.Some? && envToken.value != "" then [Candidate(None, envToken.value)]
    else []
  }

  /** The listed tokens as candidates, in order, each with its row id. */
  function StoredCandidates(valid: seq<TokenRow>): (r: seq<Candidate>)
    ensures |r| == |valid|
    ensures forall i :: 0 <= i < |r| ==> r[i] == Candidate(Some(valid[i].id), valid[i].token)
  {
    if valid == [] then [] else [Candidate(Some(valid[0].id), valid[0].token)] + StoredCandidates(valid[1..])
  }

  /** Why `fetchSoraFeed` threw: no candidate, the last fetch error, or the error of a
      query (`listValidTokens` or a `removeTokenById`) that failed. */
  datatype FeedError = NoTokens | Failed(error: FetchError) | Database(message: string)

  function FeedErrorMessage(e: FeedError): string
  {
    match e
    case NoTokens => "No valid JWT tokens available"
    case Failed(f) => f.message
    case Database(m) => m
  }

  /** What the rotation loop did: its outcome, the ids it deleted in order, and how many
      fetches it made. */
  datatype Rotation = Rotation(result: Result<seq<FeedItem>, FeedError>, removed: seq<nat>, attempts: nat)

  /** `new Error('Failed to fetch feed')`, thrown only when the loop ran without setting
      `lastError`. */
  function FallbackError(): FetchError { FetchError(None, "Failed to fetch feed") }

  function RemovedIfAny(c: Candidate): seq<nat>
  {
    if Removable(c) then [c.id.value] else []
  }

  /** The DELETE of a rejected stored candidate fails; `deleteError` is the database's
      answer to deleting each id. */
  predicate DeleteFails(c: Candidate, deleteError: nat -> Option<string>)
  {
    Removable(c) && deleteError(c.id.value).Some?
  }

  /** The rotation loop from candidate `cs[0]` on, with `lastError` the error kept so far.
      A rejected stored candidate is deleted before the next one is tried; a DELETE that
      fails throws out of the `catch` and ends the loop with its error, the earlier
      deletions kept. */
  function RotateFrom(cs: seq<Candidate>, fetch: string -> Exchange, deleteError: nat -> Option<string>,
                      lastError: FetchError): Rotation
    decreases |cs|
  {
    if cs == [] then Rotation(Err(Failed(lastError)), [], 0)
    else
      match Classify(fetch(cs[0].token))
      case Ok(items) => Rotation(Ok(items), [], 1)
      case Err(e) =>
        if IsAuthFailure(e) then
          if DeleteFails(cs[0], deleteError) then Rotation(Err(Database(deleteError(cs[0].id.value).value)), [], 1)
          else
            var rest := RotateFrom(cs[1..], fetch, deleteError, e);
            Rotation(rest.result, RemovedIfAny(cs[0]) + rest.removed, rest.attempts + 1)
        else Rotation(Err(Failed(e)), [], 1)
  }

  /** `fetchSoraFeed` over the listed tokens `valid`, or the error of the listing query
      when it fails. */
  function FetchSoraFeed(listError: Option<string>, valid: seq<TokenRow>, envToken: Option<string>,
                         fetch: string -> Exchange, deleteError: nat -> Option<string>): Rotation
  {
    if listError.Some? then Rotation(Err(Database(listError.value)), [], 0)
    else
      var cs := Candidates(valid, envToken);
      if cs == [] then Rotation(Err(NoTokens), [], 0) else RotateFrom(cs, fetch, deleteError, FallbackError())
  }

  /** The candidate is rejected as an invalid token. */
  predicate AuthFailed(c: Candidate, fetch: string -> Exchange)
  {
    Classify(fetch(c.token)).Err? && IsAuthFailure(Classify(fetch(c.token)).error)
  }

  /** The loop moves past the candidate: it is rejected, and deleted if stored. */
  predicate RotatesPast(c: Candidate, fetch: string -> Exchange, deleteError: nat -> Option<string>)
  {
    AuthFailed(c, fetch) && !DeleteFails(c, deleteError)
  }

  /** The length of the longest prefix of `cs` whose candidates the loop moves past. */
  function RotatedPrefix(cs: seq<Candidate>, fetch: string -> Exchange, deleteError: nat -> Option<string>): (k: nat)
    ensures k <= |cs|
    ensures forall j :: 0 <= j < k ==> RotatesPast(cs[j], fetch, deleteError)
    ensures k < |cs| ==> !RotatesPast(cs[k], fetch, deleteError)
    decreases |cs|
  {
    if cs == [] || !RotatesPast(cs[0], fetch, deleteError) then 0 else 1 + RotatedPrefix(cs[1..], fetch, deleteError)
  }

  function RemovableIds(cs: seq<Candidate>): seq<nat>
    decreases |cs|
  {
    if cs == [] then [] else RemovedIfAny(cs[0]) + RemovableIds(cs[1..])
  }

  /** How the loop ends at a candidate it does not move past: with its items, its fetch
      error, or the error of its failing DELETE. */
  function StopResult(c: Candidate, fetch: string -> Exchange, deleteError: nat -> Option<string>): Result<seq<FeedItem>, FeedError>
  {
    match Classify(fetch(c.token))
    case Ok(items) => Ok(items)
    case Err(e) => if IsAuthFailure(e) && DeleteFails(c, deleteError) then Err(Database(deleteError(c.id.value).value)) else Err(Failed(e))
  }

  /** A first candidate the loop moves past: its id (if stored) is deleted and the rest
      runs with its rejection as the last error. */
  lemma PassedFirst(cs: seq<Candidate>, fetch: string -> Exchange, deleteError: nat -> Option<string>, lastError: FetchError)
    requires cs != [] && RotatesPast(cs[0], fetch, deleteError)
    ensures var rest := RotateFrom(cs[1..], fetch, deleteError, Classify(fetch(cs[0].token)).error);
            && RotateFrom(cs, fetch, deleteError, lastError) == Rotation(rest.result, RemovedIfAny(cs[0]) + rest.removed, rest.attempts + 1)
            && RotatedPrefix(cs, fetch, deleteError) == 1 + RotatedPrefix(cs[1..], fetch, deleteError)
  {
  }

  /** A first candidate the loop does not move past ends the rotation with its own
      outcome. */
  lemma StoppedFirst(cs: seq<Candidate>, fetch: string -> Exchange, deleteError: nat -> Option<string>, lastError: FetchError)
    requires cs != [] && !RotatesPast(cs[0], fetch, deleteError)
    ensures RotateFrom(cs, fetch, deleteError, lastError) == Rotation(StopResult(cs[0], fetch, deleteError), [], 1)
    ensures RotatedPrefix(cs, fetch, deleteError) == 0
  {
  }

  /** With `k` the number of leading candidates the loop moves past, the rotation
      deletes exactly the persisted ones among those `k`, in order. */
  lemma {:induction false} RotationRemoves(cs: seq<Candidate>, fetch: string -> Exchange, deleteError: nat -> Option<string>, lastError: FetchError)
    ensures RotateFrom(cs, fetch, deleteError, lastError).removed == RemovableIds(cs[..RotatedPrefix(cs, fetch, deleteError)])
    decreases |cs|
  {
    if cs == [] {
      assert cs[..0] == [];
    } else if RotatesPast(cs[0], fetch, deleteError) {
      var e := Classify(fetch(cs[0].token)).error;
      var k := RotatedPrefix(cs, fetch, deleteError);
      var rest := RotateFrom(cs[1..], fetch, deleteError, e);
      var tail := cs[1..][..k - 1];
      assert RotateFrom(cs, fetch, deleteError, lastError).removed == RemovedIfAny(cs[0]) + rest.removed
             && k == 1 + RotatedPrefix(cs[1..], fetch, deleteError) by {
        PassedFirst(cs, fetch, deleteError, lastError);
      }
      assert rest.removed == RemovableIds(tail) by {
        RotationRemoves(cs[1..], fetch, deleteError, e);
      }
      assert RemovableIds(cs[..k]) == RemovedIfAny(cs[0]) + RemovableIds(tail) by {
        assert cs[..k] == [cs[0]] + tail;
        assert cs[..k][0] == cs[0] && cs[..k][1..] == tail;
      }
    } else {
      StoppedFirst(cs, fetch, deleteError, lastError);
      assert cs[..0] == [];
    }
  }

  /** The rotation fetches `k + 1` times, or `k` times when it moves past all `k`
      candidates. */
  lemma {:induction false} RotationAttempts(cs: seq<Candidate>, fetch: string -> Exchange, deleteError: nat -> Option<string>, lastError: FetchError)
    ensures var k := RotatedPrefix(cs, fetch, deleteError);
            RotateFrom(cs, fetch, deleteError, lastError).attempts == (if k < |cs| then k + 1 else k)
    decreases |cs|
  {
    if cs != [] && RotatesPast(cs[0], fetch, deleteError) {
      var e := Classify(fetch(cs[0].token)).error;
      var rest := RotateFrom(cs[1..], fetch, deleteError, e);
      assert RotateFrom(cs, fetch, deleteError, lastError).attempts == rest.attempts + 1
             && RotatedPrefix(cs, fetch, deleteError) == 1 + RotatedPrefix(cs[1..], fetch, deleteError) by {
        PassedFirst(cs, fetch, deleteError, lastError);
      }
      RotationAttempts(cs[1..], fetch, deleteError, e);
    } else if cs != [] {
      StoppedFirst(cs, fetch, deleteError, lastError);
    }
  }

  /** The rotation ends with the fate of candidate `k`: its items, its error, which stops
      the loop, or the error of its failing DELETE; when the loop moves past every
      candidate, it fails with the last rejection, and with no candidate at all with the
      error it started from. */
  lemma {:induction false} RotationOutcome(cs: seq<Candidate>, fetch: string -> Exchange, deleteError: nat -> Option<string>, lastError: FetchError)
    ensures var r := RotateFrom(cs, fetch, deleteError, lastError);
            var k := RotatedPrefix(cs, fetch, deleteError);
            && (k < |cs| ==> r.result == StopResult(cs[k], fetch, deleteError))
            && (k == |cs| && k > 0 ==> r.result == Err(Failed(Classify(fetch(cs[k - 1].token)).error)))
            && (cs == [] ==> r.result == Err(Failed(lastError)))
    decreases |cs|
  {
    if cs != [] && RotatesPast(cs[0], fetch, deleteError) {
      var e := Classify(fetch(cs[0].token)).error;
      PassedFirst(cs, fetch, deleteError, lastError);
      RotationOutcome(cs[1..], fetch, deleteError, e);
      var k := RotatedPrefix(cs, fetch, deleteError);
      if k < |cs| {
        assert cs[1..][k - 1] == cs[k];
      } else if k > 1 {
        assert cs[1..][k - 2] == cs[k - 1];
      }
    } else if cs != [] {
      StoppedFirst(cs, fetch, deleteError, lastError);
    }
  }

  /** The rotation, described without the loop: the counts and the outcome above. */
  lemma RotationCharacterized(cs: seq<Candidate>, fetch: string -> Exchange, deleteError: nat -> Option<string>, lastError: FetchError)
    ensures var r := RotateFrom(cs, fetch, deleteError, lastError);
            var k := RotatedPrefix(cs, fetch, deleteError);
            && r.removed == RemovableIds(cs[..k])
            && r.attempts == (if k < |cs| then k + 1 else k)
            && (k < |cs| ==> r.result == StopResult(cs[k], fetch, deleteError))
            && (k == |cs| && k > 0 ==> r.result == Err(Failed(Classify(fetch(cs[k - 1].token)).error)))
            && (cs == [] ==> r.result == Err(Failed(lastError)))
  {
    RotationRemoves(cs, fetch, deleteError, lastError);
    RotationAttempts(cs, fetch, deleteError, lastError);
    RotationOutcome(cs, fetch, deleteError, lastError);
  }

  /** The DELETE of the stored candidate `cs[j]` fails after the loop moved past every
      earlier one: the rotation throws that error after `j + 1` fetches, with the
      earlier stored candidates deleted and that row kept. */
  lemma DeleteFailureEndsRotation(cs: seq<Candidate>, fetch: string -> Exchange, deleteError: nat -> Option<string>,
                                  lastError: FetchError, j: nat)
    requires j < |cs| && RotatedPrefix(cs, fetch, deleteError) == j
    requires AuthFailed(cs[j], fetch) && DeleteFails(cs[j], deleteError)
    ensures var r := RotateFrom(cs, fetch, deleteError, lastError);
            && r.result == Err(Database(deleteError(cs[j].id.value).value))
            && r.removed == RemovableIds(cs[..j])
            && r.attempts == j + 1
  {
    RotationCharacterized(cs, fetch, deleteError, lastError);
  }

  /** No candidates means no fetch at all; a failing listing query stops before any;
      the environment token is never deleted. */
  lemma FetchFallbackRules(listError: Option<string>, valid: seq<TokenRow>, envToken: Option<string>,
                           fetch: string -> Exchange, deleteError: nat -> Option<string>)
    ensures var r := FetchSoraFeed(listError, valid, envToken, fetch, deleteError);
            (r.result == Err(NoTokens) <==> listError.None? && Candidates(valid, envToken) == [])
            && (r.result == Err(NoTokens) ==> r.attempts == 0 && r.removed == [])
    ensures listError.Some? ==>
              FetchSoraFeed(listError, valid, envToken, fetch, deleteError) == Rotation(Err(Database(listError.value)), [], 0)
    ensures |valid| == 0 ==> FetchSoraFeed(listError, valid, envToken, fetch, deleteError).removed == []
  {
    var cs := Candidates(valid, envToken);
    if listError.None? && cs != [] {
      RotationCharacterized(cs, fetch, deleteError, FallbackError());
      var k := RotatedPrefix(cs, fetch, deleteError);
      if |valid| == 0 {
        assert cs == [Candidate(None, envToken.value)];
        assert k == 0 ==> cs[..k] == [];
        assert k == 1 ==> cs[..k] == cs && RemovableIds(cs) == [];
      }
    }
  }

  /** Three stored tokens, the first two rejected with 401 and deleted, and the third
      accepted: the third token's items are returned after three fetches and the two
      rejected rows are the ones deleted. */
  lemma TwoRejectedThenSuccess(rows: seq<TokenRow>, now: int, fetch: string -> Exchange, deleteError: nat -> Option<string>,
                               b1: Body, b2: Body, items: seq<FeedItem>)
    requires |rows| == 3 && WellFormed(rows, 1 + rows[0].id + rows[1].id + rows[2].id)
    requires rows[0].expiresAt > rows[1].expiresAt > rows[2].expiresAt > now
    requires fetch(rows[0].token) == Answered(401, b1) && fetch(rows[1].token) == Answered(401, b2)
    requires fetch(rows[2].token) == Answered(200, Json(None, Items(items)))
    requires deleteError(rows[0].id).None? && deleteError(rows[1].id).None?
    ensures var r := FetchSoraFeed(None, ListValidTokens(rows, now), None, fetch, deleteError);
            r.result == Ok(items) && r.attempts == 3 && r.removed == [rows[0].id, rows[1].id]
  {
    var valid := ListValidTokens(rows, now);
    assert valid == rows by {
      ListedInOrder(rows, now);
    }
    var cs := Candidates(valid, None);
    assert cs == StoredCandidates(rows);
    assert Classify(fetch(cs[0].token)) == Err(FetchError(Some(401), "HTTP 401"));
    assert Classify(fetch(cs[1].token)) == Err(FetchError(Some(401), "HTTP 401"));
    RotationTwoRejected(cs, fetch, deleteError, FallbackError(), items);
  }

  /** Rotation over three candidates of which the first two are rejected as invalid
      tokens and deleted and the third is accepted. */
  lemma RotationTwoRejected(cs: seq<Candidate>, fetch: string -> Exchange, deleteError: nat -> Option<string>,
                            lastError: FetchError, items: seq<FeedItem>)
    requires |cs| == 3 && Removable(cs[0]) && Removable(cs[1])
    requires AuthFailed(cs[0], fetch) && AuthFailed(cs[1], fetch)
    requires !DeleteFails(cs[0], deleteError) && !DeleteFails(cs[1], deleteError)
    requires Classify(fetch(cs[2].token)) == Ok(items)
    ensures RotateFrom(cs, fetch, deleteError, lastError) == Rotation(Ok(items), [cs[0].id.value, cs[1].id.value], 3)
  {
    var k := RotatedPrefix(cs, fetch, deleteError);
    assert k == 2;
    RotationCharacterized(cs, fetch, deleteError, lastError);
    assert cs[..2][1..] == [cs[1]] && [cs[1]][1..] == [];
    assert RemovableIds([cs[1]]) == [cs[1].id.value];
    assert RemovableIds(cs[..2]) == [cs[0].id.value] + RemovableIds([cs[1]]);
  }

  /** Deleting the first two of three rows with distinct ids leaves exactly the third. */
  lemma RemoveFirstTwo(rows: seq<TokenRow>)
    requires |rows| == 3 && rows[0].id != rows[1].id && rows[0].id != rows[2].id && rows[1].id != rows[2].id
    ensures RemoveIds(rows, [rows[0].id, rows[1].id]) == [rows[2]]
  {
    var ids := [rows[0].id, rows[1].id];
    var r1 := RemoveById(rows, rows[0].id);
    assert r1 == [rows[1], rows[2]] by {
      assert rows[1..][1..] == rows[2..] && rows[2..] == [rows[2]] && rows[2..][1..] == [];
      assert RemoveById(rows[2..], rows[0].id) == [rows[2]];
      assert RemoveById(rows[1..], rows[0].id) == [rows[1]] + [rows[2]];
    }
    var r2 := RemoveById(r1, rows[1].id);
    assert r2 == [rows[2]] by {
      assert r1[1..] == [rows[2]] && [rows[2]][1..] == [];
    }
    assert ids[1..] == [rows[1].id] && ids[1..][1..] == [];
    assert RemoveIds(rows, ids) == RemoveIds(r1, ids[1..]);
    assert RemoveIds(r1, ids[1..]) == RemoveIds(r2, []);
  }

  /** Three unexpired rows already in strictly decreasing expiry order are listed as they
      are. */
  lemma ListedInOrder(rows: seq<TokenRow>, now: int)
    requires |rows| == 3 && rows[0].expiresAt > rows[1].expiresAt > rows[2].expiresAt > now
    ensures ListValidTokens(rows, now) == rows
  {
    var a, b, c := rows[0], rows[1], rows[2];
    assert rows == [a, b, c];
    assert Unexpired([c], now) == [c] by {
      assert [c][1..] == [];
    }
    assert Unexpired([b, c], now) == [b, c] by {
      assert [b, c][1..] == [c];
    }
    assert Unexpired([a, b, c], now) == [a, b, c] by {
      assert [a, b, c][1..] == [b, c];
    }
    assert SortByExpiry([c]) == [c] by {
      assert [c][1..] == [];
    }
    assert SortByExpiry([b, c]) == [b, c] by {
      assert [b, c][1..] == [c];
      assert InsertByExpiry(b, [c]) == [b] + [c];
    }
    assert SortByExpiry([a, b, c]) == [a, b, c] by {
      assert [a, b, c][1..] == [b, c];
      assert InsertByExpiry(a, [b, c]) == [a] + [b, c];
    }
  }
}
