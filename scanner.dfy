/** The scanner of src/scanner.js: its module-level state (the scheduler fields, the
    dashboard cache and the token cache) as the fields of a `Scanner`, the database it
    writes as a `Database`, and the scan, token and dashboard operations that change
    them. The scheduler's reaction to one scan is also given as a pure step on its
    fields, so that properties of whole runs can be stated. */
module Scanner {
  import opened Wrappers
  import opened Feed
  import opened Ingestion
  import opened Overlap
  import opened Tokens

  const MAX_HISTORY: nat := 6
  const DASHBOARD_CACHE_TTL: int := 5000

  /** The `status` column of `scanner_stats`. */
  datatype ScanStatus = Starting | Scanning | Succeeded | Errored | Stopped

  /** The row of `scanner_stats`, without the floating-point rates and percentages. */
  datatype StatsRow = StatsRow(
    totalScanned: nat, newPosts: nat, duplicatePosts: nat, errors: nat,
    lastScanAt: Option<int>, scanDurationMs: int, status: ScanStatus, errorMessage: Option<string>,
    lastScanCount: nat, currentPollInterval: int, lastNewPosts: nat, lastDuplicates: nat,
    consecutiveErrors: nat, lastErrorAt: Option<int>)

  /** `{ total, newPosts, duplicates }`, the counts a scan hands to `updateStats`. */
  datatype ScanCounts = ScanCounts(total: nat, newPosts: nat, duplicates: nat)

  /** The UPDATE of `updateStats`: the counters grow by the scan's counts, `errors` by
      one exactly when the scan failed; `now` is CURRENT_TIMESTAMP. */
  function UpdateStats(row: StatsRow, counts: ScanCounts, duration: int, pollInterval: int,
                       error: Option<string>, consecutiveErrors: nat, now: int): StatsRow
  {
    row.(totalScanned := row.totalScanned + counts.total,
         newPosts := row.newPosts + counts.newPosts,
         duplicatePosts := row.duplicatePosts + counts.duplicates,
         errors := row.errors + (if error.Some? then 1 else 0),
         lastScanAt := Some(now),
         scanDurationMs := duration,
         status := if error.Some? then Errored else Succeeded,
         errorMessage := error,
         lastScanCount := counts.total,
         currentPollInterval := pollInterval,
         lastNewPosts := counts.newPosts,
         lastDuplicates := counts.duplicates,
         consecutiveErrors := consecutiveErrors,
         lastErrorAt := if error.Some? then Some(now) else row.lastErrorAt)
  }

  /** The arguments of one `updateStats` call. */
  datatype StatsUpdate = StatsUpdate(counts: ScanCounts, duration: int, pollInterval: int,
                                     error: Option<string>, consecutiveErrors: nat, now: int)

  function ApplyUpdates(row: StatsRow, us: seq<StatsUpdate>): StatsRow
    decreases |us|
  {
    if us == [] then row
    else
      var u := us[0];
      ApplyUpdates(UpdateStats(row, u.counts, u.duration, u.pollInterval, u.error, u.consecutiveErrors, u.now), us[1..])
  }

  function SumTotals(us: seq<StatsUpdate>): nat
    decreases |us|
  {
    if us == [] then 0 else us[0].counts.total + SumTotals(us[1..])
  }

  function SumNew(us: seq<StatsUpdate>): nat
    decreases |us|
  {
    if us == [] then 0 else us[0].counts.newPosts + SumNew(us[1..])
  }

  function SumDuplicates(us: seq<StatsUpdate>): nat
    decreases |us|
  {
    if us == [] then 0 else us[0].counts.duplicates + SumDuplicates(us[1..])
  }

  function CountFailures(us: seq<StatsUpdate>): nat
    decreases |us|
  {
    if us == [] then 0 else (if us[0].error.Some? then 1 else 0) + CountFailures(us[1..])
  }

  /** Over any series of updates the row's counters are running totals: scanned, new and
      duplicate posts add up the scans' counts and `errors` counts the failed scans. */
  lemma {:induction false} StatsCountersAccumulate(row: StatsRow, us: seq<StatsUpdate>)
    ensures ApplyUpdates(row, us).totalScanned == row.totalScanned + SumTotals(us)
    ensures ApplyUpdates(row, us).newPosts == row.newPosts + SumNew(us)
    ensures ApplyUpdates(row, us).duplicatePosts == row.duplicatePosts + SumDuplicates(us)
    ensures ApplyUpdates(row, us).errors == row.errors + CountFailures(us)
    ensures us != [] ==> ApplyUpdates(row, us).status == (if us[|us| - 1].error.Some? then Errored else Succeeded)
    decreases |us|
  {
    if us != [] {
      var u := us[0];
      StatsCountersAccumulate(UpdateStats(row, u.counts, u.duration, u.pollInterval, u.error, u.consecutiveErrors, u.now), us[1..]);
      if |us| > 1 {
        assert us[1..][|us[1..]| - 1] == us[|us| - 1];
      }
    }
  }

  /** An entry of the in-memory `scanHistory`: the fetch count and duration that
      `postsPerSec` is computed from, and the time it was taken. */
  datatype Sample = Sample(fetchCount: nat, durationMs: int, timestamp: int)

  /** `scanHistory.push(s)` followed by one `shift()` when over MAX_HISTORY. */
  function PushSample(history: seq<Sample>, s: Sample): (r: seq<Sample>)
    ensures |history| <= MAX_HISTORY ==> |r| == if |history| < MAX_HISTORY then |history| + 1 else MAX_HISTORY
    ensures |r| > 0 && r[|r| - 1] == s
    ensures |r| <= |history| + 1 && r == (history + [s])[|history| + 1 - |r|..]
  {
    var h := history + [s];
    if |h| > MAX_HISTORY then h[1..] else h
  }

  /** The scheduler fields of the scanner. */
  datatype Schedule = Schedule(scanInterval: int, consecutiveErrors: nat,
                               lastScanPostIds: set<string>, scanHistory: seq<Sample>)

  /** What one `scanFeed` call did: skipped because a scan was running, completed with
      the fetched items, or failed with a message after fetching `fetchCount` items. */
  datatype ScanOutcome =
    | Skipped
    | Completed(items: seq<FeedItem>, counts: ScanCounts, sample: Sample)
    | Aborted(message: string, fetchCount: nat)

  /** The scheduler's reaction to one scan. */
  function SchedulerStep(s: Schedule, o: ScanOutcome): Schedule
  {
    match o
    case Skipped => s
    case Completed(items, _, sample) =>
      var ids := ItemIds(items);
      Schedule(AdjustPollInterval(s.scanInterval, CalculateOverlap(ids, s.lastScanPostIds)), 0, ids,
               PushSample(s.scanHistory, sample))
    case Aborted(_, _) =>
      var errors := s.consecutiveErrors + 1;
      Schedule(if errors >= 3 then Backoff(s.scanInterval) else s.scanInterval, errors,
               s.lastScanPostIds, s.scanHistory)
  }

  function Run(s: Schedule, os: seq<ScanOutcome>): Schedule
    decreases |os|
  {
    if os == [] then s else Run(SchedulerStep(s, os[0]), os[1..])
  }

  /** The scheduler's invariant: the interval inside [MIN, MAX] on the 100 ms grid, and
      at most MAX_HISTORY samples. */
  predicate ScheduleOk(s: Schedule)
  {
    IntervalOk(s.scanInterval) && |s.scanHistory| <= MAX_HISTORY
  }

  function InitialSchedule(): Schedule
  {
    Schedule(BASE_POLL_INTERVAL, 0, {}, [])
  }

  /** One step keeps the invariant. A completed scan resets the error count and takes its
      items' ids as the new previous set; a failed one counts an error, keeps the ids and
      the history, leaves the interval alone before the third consecutive error and
      doubles it (capped at MAX) on the third and on every one after it. */
  lemma SchedulerStepProperties(s: Schedule, o: ScanOutcome)
    requires ScheduleOk(s)
    ensures ScheduleOk(SchedulerStep(s, o))
    ensures o.Completed? ==>
              && SchedulerStep(s, o).consecutiveErrors == 0
              && SchedulerStep(s, o).lastScanPostIds == ItemIds(o.items)
              && SchedulerStep(s, o).scanHistory[|SchedulerStep(s, o).scanHistory| - 1] == o.sample
    ensures o.Aborted? ==>
              && SchedulerStep(s, o).consecutiveErrors == s.consecutiveErrors + 1
              && SchedulerStep(s, o).lastScanPostIds == s.lastScanPostIds
              && SchedulerStep(s, o).scanHistory == s.scanHistory
              && SchedulerStep(s, o).scanInterval >= s.scanInterval
    ensures o.Aborted? && s.consecutiveErrors < 2 ==> SchedulerStep(s, o).scanInterval == s.scanInterval
    ensures o.Aborted? && s.consecutiveErrors >= 2 ==> SchedulerStep(s, o).scanInterval == Backoff(s.scanInterval)
  {
    match o
    case Skipped =>
    case Completed(items, _, _) =>
      AdjustKeepsBand(s.scanInterval, CalculateOverlap(ItemIds(items), s.lastScanPostIds));
    case Aborted(_, _) =>
      BackoffKeepsBand(s.scanInterval);
  }

  /** Every run of scans from a state satisfying the invariant keeps it, the initial
      state included. */
  lemma {:induction false} RunKeepsInvariant(s: Schedule, os: seq<ScanOutcome>)
    requires ScheduleOk(s)
    ensures ScheduleOk(Run(s, os))
    decreases |os|
  {
    if os != [] {
      SchedulerStepProperties(s, os[0]);
      RunKeepsInvariant(SchedulerStep(s, os[0]), os[1..]);
    }
  }

  lemma InitialScheduleOk()
    ensures ScheduleOk(InitialSchedule())
  {
  }

  /** Three failures in a row from a clean state double the interval once (capped at
      MAX) and leave the previous ids and the history as they were. */
  lemma ThreeFailuresBackOff(s: Schedule, m1: string, m2: string, m3: string)
    requires ScheduleOk(s) && s.consecutiveErrors == 0
    ensures var r := Run(s, [Aborted(m1, 0), Aborted(m2, 0), Aborted(m3, 0)]);
            r.scanInterval == Backoff(s.scanInterval) && r.consecutiveErrors == 3
            && r.lastScanPostIds == s.lastScanPostIds && r.scanHistory == s.scanHistory
  {
    var os := [Aborted(m1, 0), Aborted(m2, 0), Aborted(m3, 0)];
    var s1 := SchedulerStep(s, Aborted(m1, 0));
    var s2 := SchedulerStep(s1, Aborted(m2, 0));
    var s3 := SchedulerStep(s2, Aborted(m3, 0));
    assert s1.scanInterval == s.scanInterval && s2.scanInterval == s.scanInterval && s2.consecutiveErrors == 2;
    assert os[1..] == [Aborted(m2, 0), Aborted(m3, 0)] && os[1..][1..] == [Aborted(m3, 0)] && os[1..][1..][1..] == [];
    assert Run(s2, [Aborted(m3, 0)]) == s3;
    assert Run(s1, os[1..]) == Run(s2, [Aborted(m3, 0)]);
  }

  /** A row of `scanner_scan_history`, without the floating-point rate and percentage. */
  datatype HistoryRow = HistoryRow(startedAt: int, completedAt: int, durationMs: int, fetchCount: nat,
                                   newPosts: nat, duplicatePosts: nat, pollInterval: int,
                                   succeeded: bool, errorMessage: Option<string>)

  /** The environment token is set, decodes to an expiry, and has not expired. */
  predicate EnvTokenValid(envToken: Option<string>, jwtExp: string -> Option<int>, now: int)
  {
    envToken.Some? && envToken.value != "" && jwtExp(envToken.value).Some? && jwtExp(envToken.value).value > now
  }

  /** The environment token's entry in the dashboard's token list. */
  datatype EnvTokenInfo = EnvTokenInfo(expiresAt: int, addedAt: int)

  /** `data.jwt`: the count, then the list (the environment entry first, if any, then every
      stored row by expiry). */
  datatype JwtSummary = JwtSummary(count: nat, envEntry: Option<EnvTokenInfo>, stored: seq<TokenRow>)

  /** The valid stored tokens are counted, plus one for a valid environment token even when
      the same token is also stored; the environment entry is listed only when it is not
      stored; every stored row, expired or not, is listed by expiry. */
  function JwtSummaryOf(rows: seq<TokenRow>, envToken: Option<string>, jwtExp: string -> Option<int>, now: int): (r: JwtSummary)
    ensures r.count == |Unexpired(rows, now)| + (if EnvTokenValid(envToken, jwtExp, now) then 1 else 0)
    ensures r.envEntry.Some? <==> EnvTokenValid(envToken, jwtExp, now) && !Stored(rows, envToken.value)
    ensures r.envEntry.Some? ==> r.envEntry.value == EnvTokenInfo(jwtExp(envToken.value).value, now)
    ensures SortedByExpiry(r.stored) && multiset(r.stored) == multiset(rows)
  {
    var valid := EnvTokenValid(envToken, jwtExp, now);
    JwtSummary(|Unexpired(rows, now)| + (if valid then 1 else 0),
               if valid && !Stored(rows, envToken.value) then Some(EnvTokenInfo(jwtExp(envToken.value).value, now)) else None,
               SortByExpiry(rows))
  }

  /** A valid environment token that is also stored is counted twice and listed once. */
  lemma StoredEnvTokenCountedTwice(rows: seq<TokenRow>, env: string, jwtExp: string -> Option<int>, now: int, i: nat)
    requires i < |rows| && rows[i].token == env && rows[i].expiresAt > now
    requires EnvTokenValid(Some(env), jwtExp, now)
    ensures var r := JwtSummaryOf(rows, Some(env), jwtExp, now);
            r.count == |Unexpired(rows, now)| + 1 && r.envEntry.None? && rows[i] in Unexpired(rows, now)
  {
    assert rows[i] in rows;
  }

  /** The parts of the dashboard data that this model computes. */
  datatype DashboardData = DashboardData(stats: StatsRow, totalPosts: nat, jwt: JwtSummary, generatedAt: int)

  datatype DashboardCache = DashboardCache(timestamp: int, data: Option<DashboardData>)

  /** The cache is served: it holds data and is younger than the TTL. */
  predicate CacheServes(c: DashboardCache, now: int)
  {
    c.data.Some? && now - c.timestamp < DASHBOARD_CACHE_TTL
  }

  /** A cache filled at `t` is served until `t + TTL` and not from then on; once a history
      row resets its timestamp to 0 it is not served at any time from the TTL on. */
  lemma CacheLifetime(c: DashboardCache, now: int)
    ensures c.data.Some? ==> (CacheServes(c, now) <==> now < c.timestamp + DASHBOARD_CACHE_TTL)
    ensures now >= DASHBOARD_CACHE_TTL ==> !CacheServes(c.(timestamp := 0), now)
  {
  }

  /** One turn of the rotation loop that ends it: the fetch with the `i`-th candidate
      succeeds, fails with an error that is no token rejection, or is rejected and the
      DELETE of its row fails; the whole rotation then has that outcome and removes
      nothing more. */
  lemma RotateStops(cs: seq<Candidate>, i: nat, fetch: string -> Exchange, deleteError: nat -> Option<string>,
                    last: FetchError, whole: Rotation, removed: seq<nat>)
    requires i < |cs|
    requires whole.result == RotateFrom(cs[i..], fetch, deleteError, last).result
    requires whole.removed == removed + RotateFrom(cs[i..], fetch, deleteError, last).removed
    requires !RotatesPast(cs[i], fetch, deleteError)
    ensures whole.removed == removed && whole.result == StopResult(cs[i], fetch, deleteError)
  {
    assert cs[i..][0] == cs[i];
    StoppedFirst(cs[i..], fetch, deleteError, last);
    assert removed + [] == removed;
  }

  /** One turn of the rotation loop that goes on: the `i`-th candidate is rejected, its
      id (if stored) is removed, and the rest runs with that rejection as the last
      error. */
  lemma RotateHandsOn(cs: seq<Candidate>, i: nat, fetch: string -> Exchange, deleteError: nat -> Option<string>,
                      last: FetchError, whole: Rotation, removed: seq<nat>)
    requires i < |cs|
    requires whole.result == RotateFrom(cs[i..], fetch, deleteError, last).result
    requires whole.removed == removed + RotateFrom(cs[i..], fetch, deleteError, last).removed
    requires RotatesPast(cs[i], fetch, deleteError)
    ensures var e := Classify(fetch(cs[i].token)).error;
            && whole.result == RotateFrom(cs[i + 1..], fetch, deleteError, e).result
            && whole.removed == (removed + RemovedIfAny(cs[i])) + RotateFrom(cs[i + 1..], fetch, deleteError, e).removed
  {
    assert cs[i..][0] == cs[i];
    assert cs[i..][1..] == cs[i + 1..];
    var e := Classify(fetch(cs[i].token)).error;
    var rest := RotateFrom(cs[i + 1..], fetch, deleteError, e).removed;
    assert removed + (RemovedIfAny(cs[i]) + rest) == (removed + RemovedIfAny(cs[i])) + rest;
  }

  /** The table after one more rotation turn is the run of deletions extended by that
      turn's id, if it deleted one. */
  lemma DeletionRecorded(rows: seq<TokenRow>, removed: seq<nat>, c: Candidate, after: seq<TokenRow>)
    requires after == RemoveIds(RemoveIds(rows, removed), RemovedIfAny(c))
    ensures after == RemoveIds(rows, removed + RemovedIfAny(c))
    ensures removed + RemovedIfAny(c) == [] <==> removed == [] && !Removable(c)
  {
    RemoveIdsAppend(rows, removed, RemovedIfAny(c));
    if Removable(c) {
      assert RemovedIfAny(c)[1..] == [];
    }
  }

  /** How one pass of the rotation loop ends: the loop stops with a result, or moves on
      to the next candidate with the rejection as its last error. */
  datatype TurnEnd = Stop(result: Result<seq<FeedItem>, FeedError>) | Next(error: FetchError)

  /** The tables the scanner uses, held in memory. */
  class Database {
    var tokens: seq<TokenRow>
    var nextTokenId: nat
    var posts: PostTable
    var stats: StatsRow
    var history: seq<HistoryRow>

    constructor (initial: StatsRow)
      ensures tokens == [] && nextTokenId == 1 && posts == map[] && stats == initial && history == []
    {
      tokens := [];
      nextTokenId := 1;
      posts := map[];
      stats := initial;
      history := [];
    }
  }

  /** What one scan meets: the environment token, the feed server, the clock at the
      start and at the end, and the database's answers (the status update's error if it
      fails, the token listing's error if it fails, the answer to each token DELETE,
      where the posts transaction fails if it does, and whether the statistics update
      and the history insert succeed). */
  datatype ScanEnv = ScanEnv(envToken: Option<string>, fetchRaw: string -> Exchange,
                             startedAt: int, finishedAt: int,
                             statusUpdateError: Option<string>, listTokensError: Option<string>,
                             deleteError: nat -> Option<string>, postsFault: Option<DbError>,
                             statsUpdateOk: bool, historyInsertOk: bool)

  /** What the `try` block of `scanFeed` leaves behind: the error it threw, if any, the
      fetched items and their count, the batch's counts, and the token and post tables. */
  datatype Attempt = Attempt(failure: Option<string>, items: seq<FeedItem>, fetchCount: nat,
                             counts: ScanCounts, tokens: seq<TokenRow>, posts: PostTable)

  /** The `try` block of `scanFeed` from the status update to `processPosts`: a failing
      status update stops it before any fetch; a failed fetch (after its deletions) or a
      failed transaction stops it with that error and the posts as they were. */
  function TryScan(tokens: seq<TokenRow>, posts: PostTable, env: ScanEnv): Attempt
  {
    if env.statusUpdateError.Some? then Attempt(env.statusUpdateError, [], 0, ScanCounts(0, 0, 0), tokens, posts)
    else
      var rot := Tokens.FetchSoraFeed(env.listTokensError, Tokens.ListValidTokens(tokens, env.startedAt), env.envToken, env.fetchRaw, env.deleteError);
      var left := RemoveIds(tokens, rot.removed);
      if rot.result.Err? then Attempt(Some(FeedErrorMessage(rot.result.error)), [], 0, ScanCounts(0, 0, 0), left, posts)
      else
        var items := rot.result.value;
        match Transaction(posts, items, env.startedAt, env.postsFault)
        case Err(e) => Attempt(Some(e.message), items, |items|, ScanCounts(0, 0, 0), left, posts)
        case Ok(b) => Attempt(None, items, |items|, ScanCounts(|items|, b.newPosts, b.duplicates), left, b.table)
  }

  /** A failed attempt leaves the posts as they were and reports no counts; a
      successful one stores the batch of the fetched items. */
  lemma TryScanOutcome(tokens: seq<TokenRow>, posts: PostTable, env: ScanEnv)
    ensures var a := TryScan(tokens, posts, env);
            && (a.failure.Some? ==> a.posts == posts && a.counts == ScanCounts(0, 0, 0))
            && (a.failure.None? ==>
                  var b := IngestAll(posts, a.items, env.startedAt);
                  a.posts == b.table && a.counts == ScanCounts(|a.items|, b.newPosts, b.duplicates)
                  && a.fetchCount == |a.items|)
  {
    if env.statusUpdateError.None? {
      var rot := Tokens.FetchSoraFeed(env.listTokensError, Tokens.ListValidTokens(tokens, env.startedAt), env.envToken, env.fetchRaw, env.deleteError);
      if rot.result.Ok? {
        var items := rot.result.value;
        var t := Transaction(posts, items, env.startedAt, env.postsFault);
        assert t.Ok? ==> t.value == IngestAll(posts, items, env.startedAt);
      }
    }
  }

  /** A successful attempt adds exactly the fetched ids to the posts, counts every item
      once as new or duplicate, and counts as new exactly the ids that were not stored. */
  lemma TryScanStoresFetchedPosts(tokens: seq<TokenRow>, posts: PostTable, env: ScanEnv)
    ensures var a := TryScan(tokens, posts, env);
            a.failure.None? ==>
              && a.posts.Keys == posts.Keys + ItemIds(a.items)
              && a.counts.total == |a.items| == a.fetchCount
              && a.counts.newPosts + a.counts.duplicates == |a.items|
              && a.counts.newPosts == |ItemIds(a.items) - posts.Keys|
  {
    var a := TryScan(tokens, posts, env);
    TryScanOutcome(tokens, posts, env);
    if a.failure.None? {
      IngestCountsEveryItem(posts, a.items, env.startedAt);
      IngestKeys(posts, a.items, env.startedAt);
      IngestNewPostsAreDistinctUnstoredIds(posts, a.items, env.startedAt);
    }
  }

  /** The token table a scan leaves: the stored rows minus the ids the rotation deleted,
      whether or not the rest of the attempt succeeds; untouched when the status update
      fails. */
  lemma TryScanTokens(tokens: seq<TokenRow>, posts: PostTable, env: ScanEnv)
    ensures TryScan(tokens, posts, env).tokens
            == if env.statusUpdateError.Some? then tokens
               else RemoveIds(tokens, Tokens.FetchSoraFeed(env.listTokensError, Tokens.ListValidTokens(tokens, env.startedAt),
                                                           env.envToken, env.fetchRaw, env.deleteError).removed)
  {
  }

  /** A scan never adds tokens: the rows left are stored rows whose ids the rotation did
      not delete. */
  lemma TryScanOnlyDropsTokens(tokens: seq<TokenRow>, posts: PostTable, env: ScanEnv)
    ensures forall x :: x in TryScan(tokens, posts, env).tokens ==> x in tokens
  {
    var rot := Tokens.FetchSoraFeed(env.listTokensError, Tokens.ListValidTokens(tokens, env.startedAt), env.envToken, env.fetchRaw, env.deleteError);
    TryScanTokens(tokens, posts, env);
    RemoveIdsMembers(tokens, rot.removed);
  }

  /** The outcome of a scan that was not skipped: completed when the attempt threw
      nothing, with the sample `scanHistory` receives. */
  function OutcomeOf(a: Attempt, env: ScanEnv): ScanOutcome
  {
    if a.failure.None? then Completed(a.items, a.counts, Sample(a.fetchCount, env.finishedAt - env.startedAt, env.finishedAt))
    else Aborted(a.failure.value, a.fetchCount)
  }

  /** The counts a scan reports to `updateStats`: the batch's on completion, zero on
      failure. */
  function CountsOf(o: ScanOutcome): ScanCounts
  {
    if o.Completed? then o.counts else ScanCounts(0, 0, 0)
  }

  function FetchCountOf(o: ScanOutcome): nat
  {
    match o
    case Skipped => 0
    case Completed(items, _, _) => |items|
    case Aborted(_, n) => n
  }

  function ErrorOf(o: ScanOutcome): Option<string>
  {
    if o.Aborted? then Some(o.message) else None
  }

  /** The stats row once the status update has run: marked as scanning at the current
      interval, unless that update failed. */
  function Marked(stats: StatsRow, interval: int, env: ScanEnv): StatsRow
  {
    if env.statusUpdateError.None? then stats.(status := Scanning, currentPollInterval := interval) else stats
  }

  /** The history row a scan records. */
  function HistoryRowOf(env: ScanEnv, o: ScanOutcome, pollInterval: int): HistoryRow
  {
    HistoryRow(env.startedAt, env.finishedAt, env.finishedAt - env.startedAt, FetchCountOf(o), CountsOf(o).newPosts,
               CountsOf(o).duplicates, pollInterval, o.Completed?, ErrorOf(o))
  }

  class Scanner {
    var isScanning: bool
    var scanInterval: int
    var consecutiveErrors: nat
    var lastScanPostIds: set<string>
    var scanHistory: seq<Sample>
    var dashboardCache: DashboardCache
    var tokenCache: Option<seq<TokenRow>>
    const db: Database

    constructor (db: Database)
      ensures this.db == db && !isScanning && Sched() == InitialSchedule() && Valid()
      ensures dashboardCache == DashboardCache(0, None) && tokenCache.None?
    {
      this.db := db;
      isScanning := false;
      scanInterval := BASE_POLL_INTERVAL;
      consecutiveErrors := 0;
      lastScanPostIds := {};
      scanHistory := [];
      dashboardCache := DashboardCache(0, None);
      tokenCache := None;
    }

    function Sched(): Schedule
      reads this
    {
      Schedule(scanInterval, consecutiveErrors, lastScanPostIds, scanHistory)
    }

    predicate Valid()
      reads this
    {
      ScheduleOk(Sched())
    }

    /** `listValidTokens`. */
    method ListValidTokens(now: int) returns (rows: seq<TokenRow>)
      ensures rows == Tokens.ListValidTokens(db.tokens, now)
    {
      rows := Tokens.ListValidTokens(db.tokens, now);
    }

    /** `addToken`: `jwtExp` is the decoding of a token's expiry. A rejected token leaves
        the table and the cache alone; otherwise the token cache is cleared. */
    method AddToken(token: string, jwtExp: string -> Option<int>, now: int) returns (r: Result<(), AddError>)
      modifies db`tokens, db`nextTokenId, this`tokenCache
      ensures var t := Tokens.AddToken(TokenTable(old(db.tokens), old(db.nextTokenId)), token, jwtExp(token), now);
              && (t.Err? ==> r == Err(t.error) && db.tokens == old(db.tokens)
                             && db.nextTokenId == old(db.nextTokenId) && tokenCache == old(tokenCache))
              && (t.Ok? ==> r.Ok? && db.tokens == t.value.rows && db.nextTokenId == t.value.nextId && tokenCache.None?)
      ensures r.Ok? <==> jwtExp(token).Some? && jwtExp(token).value > now
      ensures r.Ok? && !Stored(old(db.tokens), token) ==>
                db.tokens == old(db.tokens) + [TokenRow(old(db.nextTokenId), token, jwtExp(token).value, now)]
      ensures r.Ok? && Stored(old(db.tokens), token) ==> db.tokens == old(db.tokens)
    {
      var t := Tokens.AddToken(TokenTable(db.tokens, db.nextTokenId), token, jwtExp(token), now);
      if t.Err? {
        return Err(t.error);
      }
      db.tokens, db.nextTokenId := t.value.rows, t.value.nextId;
      tokenCache := None;
      r := Ok(());
    }

    /** `removeTokenById`; `fault` is the error of the DELETE, which then changes
        nothing and is thrown before the token cache is cleared. */
    method RemoveTokenById(id: nat, fault: Option<string>) returns (error: Option<string>)
      modifies db`tokens, this`tokenCache
      ensures error == fault
      ensures fault.None? ==> db.tokens == RemoveById(old(db.tokens), id) && tokenCache.None?
      ensures fault.Some? ==> db.tokens == old(db.tokens) && tokenCache == old(tokenCache)
    {
      if fault.Some? {
        return fault;
      }
      db.tokens := RemoveById(db.tokens, id);
      tokenCache := None;
      error := None;
    }

    /** `removeTokenByToken`, with the same failure as `removeTokenById`. */
    method RemoveTokenByToken(token: string, fault: Option<string>) returns (error: Option<string>)
      modifies db`tokens, this`tokenCache
      ensures error == fault
      ensures fault.None? ==> db.tokens == RemoveByToken(old(db.tokens), token) && tokenCache.None?
      ensures fault.Some? ==> db.tokens == old(db.tokens) && tokenCache == old(tokenCache)
    {
      if fault.Some? {
        return fault;
      }
      db.tokens := RemoveByToken(db.tokens, token);
      tokenCache := None;
      error := None;
    }

    /** `fetchSoraFeed`: the listing query, then the rotation loop over the candidates,
        deleting each stored token the server rejects as invalid. It does what the
        rotation function describes. */
    method FetchSoraFeed(envToken: Option<string>, fetchRaw: string -> Exchange, now: int,
                         listError: Option<string>, deleteError: nat -> Option<string>)
      returns (r: Result<seq<FeedItem>, FeedError>)
      modifies db`tokens, this`tokenCache
      ensures var rot := Tokens.FetchSoraFeed(listError, Tokens.ListValidTokens(old(db.tokens), now), envToken, fetchRaw, deleteError);
              && r == rot.result
              && db.tokens == RemoveIds(old(db.tokens), rot.removed)
              && tokenCache == if rot.removed == [] then old(tokenCache) else None
    {
      if listError.Some? {
        return Err(Database(listError.value));
      }
      var tokens := ListValidTokens(now);
      var cs := Candidates(tokens, envToken);
      if cs == [] {
        return Err(NoTokens);
      }
      r := RotateCandidates(cs, fetchRaw, deleteError);
    }

    /** One pass of the loop body of `fetchSoraFeed`: the fetch with candidate `c`; a
        rejected token moves the loop on (`continue`) after the deletion of its stored
        row; anything else ends the loop (`return`, `break`, or the error of a failing
        DELETE). */
    method RotateTurn(c: Candidate, fetchRaw: string -> Exchange, deleteError: nat -> Option<string>)
      returns (t: TurnEnd)
      modifies db`tokens, this`tokenCache
      ensures t.Stop? <==> !RotatesPast(c, fetchRaw, deleteError)
      ensures t.Stop? ==> t.result == StopResult(c, fetchRaw, deleteError)
                          && db.tokens == old(db.tokens) && tokenCache == old(tokenCache)
      ensures t.Next? ==> && t.error == Classify(fetchRaw(c.token)).error
                          && db.tokens == RemoveIds(old(db.tokens), RemovedIfAny(c))
                          && tokenCache == if Removable(c) then None else old(tokenCache)
    {
      var attempt := Classify(fetchRaw(c.token));
      if attempt.Ok? {
        return Stop(Ok(attempt.value));
      }
      if !IsAuthFailure(attempt.error) {
        return Stop(Err(FeedError.Failed(attempt.error)));
      }
      if Removable(c) {
        var failure := RemoveTokenById(c.id.value, deleteError(c.id.value));
        if failure.Some? {
          return Stop(Err(Database(failure.value)));
        }
        assert RemovedIfAny(c)[1..] == [];
      }
      t := Next(attempt.error);
    }

    /** The loop of `fetchSoraFeed` over a non-empty candidate list. */
    method RotateCandidates(cs: seq<Candidate>, fetchRaw: string -> Exchange, deleteError: nat -> Option<string>)
      returns (r: Result<seq<FeedItem>, FeedError>)
      requires cs != []
      modifies db`tokens, this`tokenCache
      ensures var rot := RotateFrom(cs, fetchRaw, deleteError, FallbackError());
              && r == rot.result
              && db.tokens == RemoveIds(old(db.tokens), rot.removed)
              && tokenCache == if rot.removed == [] then old(tokenCache) else None
    {
      var lastError := FallbackError();
      var i := 0;
      ghost var whole := RotateFrom(cs, fetchRaw, deleteError, FallbackError());
      ghost var removed: seq<nat> := [];
      assert cs[0..] == cs;
      while i < |cs|
        invariant 0 <= i <= |cs|
        invariant whole.result == RotateFrom(cs[i..], fetchRaw, deleteError, lastError).result
        invariant whole.removed == removed + RotateFrom(cs[i..], fetchRaw, deleteError, lastError).removed
        invariant db.tokens == RemoveIds(old(db.tokens), removed)
        invariant tokenCache == if removed == [] then old(tokenCache) else None
      {
        var c := cs[i];
        var t := RotateTurn(c, fetchRaw, deleteError);
        if t.Stop? {
          assert whole.removed == removed && whole.result == t.result by {
            RotateStops(cs, i, fetchRaw, deleteError, lastError, whole, removed);
          }
          return t.result;
        }
        ghost var removedNow := removed + RemovedIfAny(c);
        assert whole.result == RotateFrom(cs[i + 1..], fetchRaw, deleteError, t.error).result
               && whole.removed == removedNow + RotateFrom(cs[i + 1..], fetchRaw, deleteError, t.error).removed by {
          RotateHandsOn(cs, i, fetchRaw, deleteError, lastError, whole, removed);
        }
        assert db.tokens == RemoveIds(old(db.tokens), removedNow) && (removedNow == [] <==> removed == [] && !Removable(c)) by {
          DeletionRecorded(old(db.tokens), removed, c, db.tokens);
        }
        lastError := t.error;
        removed := removedNow;
        i := i + 1;
      }
      assert cs[i..] == [];
      assert whole.removed == removed;
      r := Err(FeedError.Failed(lastError));
    }

    /** `updateStats`; a failing UPDATE is caught and changes nothing. */
    method UpdateStatsRow(counts: ScanCounts, duration: int, pollInterval: int, error: Option<string>, now: int, ok: bool)
      modifies db`stats
      ensures db.stats == if ok then UpdateStats(old(db.stats), counts, duration, pollInterval, error, consecutiveErrors, now)
                          else old(db.stats)
    {
      if ok {
        db.stats := UpdateStats(db.stats, counts, duration, pollInterval, error, consecutiveErrors, now);
      }
    }

    /** `recordScanHistory`: a stored row also resets the dashboard cache's timestamp; a
        failing INSERT is caught and changes nothing. */
    method RecordScanHistory(row: HistoryRow, ok: bool)
      modifies db`history, this`dashboardCache
      ensures db.history == old(db.history) + (if ok then [row] else [])
      ensures dashboardCache == if ok then old(dashboardCache).(timestamp := 0) else old(dashboardCache)
    {
      if ok {
        db.history := db.history + [row];
        dashboardCache := dashboardCache.(timestamp := 0);
      }
    }

    /** The `try` block of `scanFeed` up to `processPosts`. */
    method AttemptScan(env: ScanEnv) returns (a: Attempt)
      modifies db`stats, db`tokens, db`posts, this`tokenCache
      ensures a == TryScan(old(db.tokens), old(db.posts), env)
      ensures db.tokens == a.tokens && db.posts == a.posts
      ensures db.stats == Marked(old(db.stats), scanInterval, env)
    {
      if env.statusUpdateError.Some? {
        return Attempt(env.statusUpdateError, [], 0, ScanCounts(0, 0, 0), db.tokens, db.posts);
      }
      db.stats := db.stats.(status := Scanning, currentPollInterval := scanInterval);
      var fetched := FetchSoraFeed(env.envToken, env.fetchRaw, env.startedAt, env.listTokensError, env.deleteError);
      if fetched.Err? {
        return Attempt(Some(FeedErrorMessage(fetched.error)), [], 0, ScanCounts(0, 0, 0), db.tokens, db.posts);
      }
      var items := fetched.value;
      var tr := ProcessPosts(db.posts, items, env.startedAt, env.postsFault);
      if tr.Err? {
        return Attempt(Some(tr.error.message), items, |items|, ScanCounts(0, 0, 0), db.tokens, db.posts);
      }
      db.posts := tr.value.table;
      a := Attempt(None, items, |items|, ScanCounts(|items|, tr.value.newPosts, tr.value.duplicates), db.tokens, db.posts);
    }

    /** The rest of `scanFeed` after the attempt: on success the history sample, the
        previous ids and the adjusted interval, then the statistics (recording the error
        count from before its reset), the history row and the reset of the error count;
        on failure the error count, the back-off from the third consecutive error, the
        statistics and the history row. */
    method Conclude(env: ScanEnv, a: Attempt) returns (outcome: ScanOutcome)
      modifies this`scanInterval, this`consecutiveErrors, this`lastScanPostIds, this`scanHistory,
               this`dashboardCache, db`stats, db`history
      ensures outcome == OutcomeOf(a, env)
      ensures Sched() == SchedulerStep(old(Sched()), outcome)
      ensures db.stats == if env.statsUpdateOk
                          then UpdateStats(old(db.stats), CountsOf(outcome), env.finishedAt - env.startedAt, scanInterval,
                                           ErrorOf(outcome), if outcome.Completed? then old(consecutiveErrors) else consecutiveErrors,
                                           env.finishedAt)
                          else old(db.stats)
      ensures db.history == old(db.history) + (if env.historyInsertOk then [HistoryRowOf(env, outcome, scanInterval)] else [])
      ensures dashboardCache == if env.historyInsertOk then old(dashboardCache).(timestamp := 0) else old(dashboardCache)
    {
      outcome := OutcomeOf(a, env);
      var duration := env.finishedAt - env.startedAt;
      if a.failure.None? {
        assert outcome.Completed? && outcome.items == a.items;
        var currentIds := ItemIds(a.items);
        var overlap := CalculateOverlap(currentIds, lastScanPostIds);
        scanHistory := PushSample(scanHistory, outcome.sample);
        lastScanPostIds := currentIds;
        scanInterval := AdjustPollInterval(scanInterval, overlap);
        assert Sched().(consecutiveErrors := 0) == SchedulerStep(old(Sched()), outcome);
        UpdateStatsRow(a.counts, duration, scanInterval, None, env.finishedAt, env.statsUpdateOk);
        RecordScanHistory(HistoryRowOf(env, outcome, scanInterval), env.historyInsertOk);
        consecutiveErrors := 0;
      } else {
        assert outcome.Aborted?;
        consecutiveErrors := consecutiveErrors + 1;
        if consecutiveErrors >= 3 {
          scanInterval := Backoff(scanInterval);
        }
        assert Sched() == SchedulerStep(old(Sched()), outcome);
        UpdateStatsRow(ScanCounts(0, 0, 0), duration, scanInterval, a.failure, env.finishedAt, env.statsUpdateOk);
        RecordScanHistory(HistoryRowOf(env, outcome, scanInterval), env.historyInsertOk);
      }
    }

    /** `scanFeed`. While a scan is running it does nothing. Otherwise it runs the attempt
        and concludes it; the scheduler fields move as `SchedulerStep` says, and the scan
        flag is down afterwards. */
    method ScanFeed(env: ScanEnv) returns (outcome: ScanOutcome)
      requires Valid()
      modifies this, db
      ensures Valid()
      ensures Sched() == SchedulerStep(old(Sched()), outcome)
      ensures old(isScanning) ==> outcome == Skipped && unchanged(this, db)
      ensures !old(isScanning) ==>
                var a := TryScan(old(db.tokens), old(db.posts), env);
                && !isScanning
                && outcome == OutcomeOf(a, env)
                && db.tokens == a.tokens && db.posts == a.posts && db.nextTokenId == old(db.nextTokenId)
                && db.stats == (var marked := Marked(old(db.stats), old(scanInterval), env);
                                if env.statsUpdateOk
                                then UpdateStats(marked, CountsOf(outcome), env.finishedAt - env.startedAt, scanInterval, ErrorOf(outcome),
                                                 if outcome.Completed? then old(consecutiveErrors) else consecutiveErrors, env.finishedAt)
                                else marked)
                && db.history == old(db.history) + (if env.historyInsertOk then [HistoryRowOf(env, outcome, scanInterval)] else [])
                && dashboardCache == if env.historyInsertOk then old(dashboardCache).(timestamp := 0) else old(dashboardCache)
    {
      if isScanning {
        return Skipped;
      }
      isScanning := true;
      var a := AttemptScan(env);
      outcome := Conclude(env, a);
      isScanning := false;
      assert Valid() by {
        SchedulerStepProperties(old(Sched()), outcome);
      }
    }

    /** `scheduleNext`: the next scan is always due after the current interval. */
    method ScheduleNext() returns (delay: int)
      requires Valid()
      ensures delay == scanInterval
      ensures MIN_POLL_INTERVAL <= delay <= MAX_POLL_INTERVAL
    {
      delay := scanInterval;
    }

    /** `fetchDashboardData`: the cached data while it is fresh; otherwise, if the queries
        succeed, freshly computed data that is also cached with `now` as its time, and if
        they fail, their error with the cache left alone. */
    method FetchDashboardData(now: int, envToken: Option<string>, jwtExp: string -> Option<int>, queryError: Option<string>)
      returns (r: Result<DashboardData, string>)
      modifies this`dashboardCache
      ensures CacheServes(old(dashboardCache), now) ==> r == Ok(old(dashboardCache).data.value) && dashboardCache == old(dashboardCache)
      ensures !CacheServes(old(dashboardCache), now) && queryError.Some? ==>
                r == Err(queryError.value) && dashboardCache == old(dashboardCache)
      ensures !CacheServes(old(dashboardCache), now) && queryError.None? ==>
                r == Ok(DashboardData(db.stats, |db.posts.Keys|, JwtSummaryOf(db.tokens, envToken, jwtExp, now), now))
                && dashboardCache == DashboardCache(now, Some(r.value))
    {
      if CacheServes(dashboardCache, now) {
        return Ok(dashboardCache.data.value);
      }
      if queryError.Some? {
        return Err(queryError.value);
      }
      var data := DashboardData(db.stats, |db.posts.Keys|, JwtSummaryOf(db.tokens, envToken, jwtExp, now), now);
      dashboardCache := DashboardCache(now, Some(data));
      r := Ok(data);
    }
  }
}
