/** The earlier scanner of src/scanner-simplified.js: the same ingestion, overlap and
    scheduler rules as src/scanner.js, but a single request with the environment token,
    a classification that ignores the HTTP status, a smaller statistics update, and no
    token store, history table or dashboard. */
module ScannerSimplified {
  import opened Wrappers
  import opened Feed
  import opened Ingestion
  import opened Overlap
  import opened Scanner

  /** The text interpolated into `Bearer ${process.env.AUTH_BEARER_TOKEN}`: an unset
      variable prints as "undefined". */
  function BearerToken(envToken: Option<string>): string
  {
    if envToken.Some? then envToken.value else "undefined"
  }

  /** `fetchSoraFeed`: one request, judged by its body alone. */
  function FetchFeed(envToken: Option<string>, fetchRaw: string -> Exchange): FeedResult
  {
    ClassifySimplified(fetchRaw(BearerToken(envToken)))
  }

  /** A body with items is accepted whatever the status, so a 401 or 403 that the main
      scanner rejects (and rotates away from) is a successful fetch here. */
  lemma StatusIsIgnored(envToken: Option<string>, fetchRaw: string -> Exchange, status: int, items: seq<FeedItem>)
    requires fetchRaw(BearerToken(envToken)) == Answered(status, Json(None, Items(items)))
    ensures FetchFeed(envToken, fetchRaw) == Ok(items)
    ensures status == 401 || status == 403 ==> Classify(Answered(status, Json(None, Items(items)))).Err?
  {
  }

  /** `error?.message || null`: an error with an empty message stores null. */
  function ErrorColumn(error: Option<string>): Option<string>
  {
    if error.Some? && error.value != "" then error else None
  }

  /** `updateStats` of this scanner: the counters, the status and the error message of
      the main scanner's update, without its per-scan copies, error count and error
      time; `pollInterval` is the module's `scanInterval` at the time of the call. */
  function SimplifiedStats(row: StatsRow, counts: ScanCounts, duration: int, pollInterval: int,
                           error: Option<string>, now: int): StatsRow
  {
    row.(totalScanned := row.totalScanned + counts.total,
         newPosts := row.newPosts + counts.newPosts,
         duplicatePosts := row.duplicatePosts + counts.duplicates,
         errors := row.errors + (if error.Some? then 1 else 0),
         lastScanAt := Some(now),
         scanDurationMs := duration,
         status := if error.Some? then Errored else Succeeded,
         errorMessage := ErrorColumn(error),
         lastScanCount := counts.total,
         currentPollInterval := pollInterval)
  }

  /** The two updates agree on every column this one writes (for an error with a
      message), and this one leaves the main scanner's extra columns alone. */
  lemma StatsAgreeWithMainScanner(row: StatsRow, counts: ScanCounts, duration: int, pollInterval: int,
                                  error: Option<string>, consecutiveErrors: nat, now: int)
    requires error.None? || error.value != ""
    ensures var main := UpdateStats(row, counts, duration, pollInterval, error, consecutiveErrors, now);
            SimplifiedStats(row, counts, duration, pollInterval, error, now)
              == main.(lastNewPosts := row.lastNewPosts, lastDuplicates := row.lastDuplicates,
                       consecutiveErrors := row.consecutiveErrors, lastErrorAt := row.lastErrorAt)
  {
  }

  /** A failed scan's update: one more error, no counts, status 'error'. */
  lemma FailureStats(row: StatsRow, duration: int, pollInterval: int, message: string, now: int)
    ensures var r := SimplifiedStats(row, ScanCounts(0, 0, 0), duration, pollInterval, Some(message), now);
            && r.errors == row.errors + 1 && r.totalScanned == row.totalScanned
            && r.newPosts == row.newPosts && r.duplicatePosts == row.duplicatePosts
            && r.status == Errored && r.lastScanCount == 0 && r.lastScanAt == Some(now)
  {
  }

  /** What one scan meets: the environment token, the feed server, the clock at the
      start and at the end, and the database's answers. */
  datatype SimpleEnv = SimpleEnv(envToken: Option<string>, fetchRaw: string -> Exchange,
                                 startedAt: int, finishedAt: int,
                                 statusUpdateError: Option<string>, postsFault: Option<DbError>,
                                 statsUpdateOk: bool)

  /** What the `try` block leaves behind: the error it threw, the items, the batch's
      counts and the posts. */
  datatype SimpleAttempt = SimpleAttempt(failure: Option<string>, items: seq<FeedItem>,
                                         counts: ScanCounts, posts: PostTable)

  /** The `try` block of `scanFeed` from the status update to `processPosts`. */
  function TrySimpleScan(posts: PostTable, env: SimpleEnv): SimpleAttempt
  {
    if env.statusUpdateError.Some? then SimpleAttempt(env.statusUpdateError, [], ScanCounts(0, 0, 0), posts)
    else
      match FetchFeed(env.envToken, env.fetchRaw)
      case Err(e) => SimpleAttempt(Some(e.message), [], ScanCounts(0, 0, 0), posts)
      case Ok(items) =>
        match Transaction(posts, items, env.startedAt, env.postsFault)
        case Err(e) => SimpleAttempt(Some(e.message), items, ScanCounts(0, 0, 0), posts)
        case Ok(b) => SimpleAttempt(None, items, ScanCounts(|items|, b.newPosts, b.duplicates), b.table)
  }

  /** A failed attempt leaves the posts alone and reports no counts; a successful one
      adds exactly the fetched ids, counts each item once as new or duplicate, and
      counts as new exactly the ids that were not stored. */
  lemma TrySimpleScanProperties(posts: PostTable, env: SimpleEnv)
    ensures var a := TrySimpleScan(posts, env);
            && (a.failure.Some? ==> a.posts == posts && a.counts == ScanCounts(0, 0, 0))
            && (a.failure.None? ==>
                  && a.posts == IngestAll(posts, a.items, env.startedAt).table
                  && a.posts.Keys == posts.Keys + ItemIds(a.items)
                  && a.counts.total == |a.items|
                  && a.counts.newPosts + a.counts.duplicates == |a.items|
                  && a.counts.newPosts == |ItemIds(a.items) - posts.Keys|)
  {
    var a := TrySimpleScan(posts, env);
    if env.statusUpdateError.None? && FetchFeed(env.envToken, env.fetchRaw).Ok? {
      var items := FetchFeed(env.envToken, env.fetchRaw).value;
      var t := Transaction(posts, items, env.startedAt, env.postsFault);
      assert t.Ok? ==> t.value == IngestAll(posts, items, env.startedAt);
      IngestCountsEveryItem(posts, items, env.startedAt);
      IngestKeys(posts, items, env.startedAt);
      IngestNewPostsAreDistinctUnstoredIds(posts, items, env.startedAt);
    }
  }

  /** The scan's outcome for the scheduler; this scanner keeps no fetch count on
      failure. */
  function SimpleOutcomeOf(a: SimpleAttempt, env: SimpleEnv): ScanOutcome
  {
    if a.failure.None? then Completed(a.items, a.counts, Sample(|a.items|, env.finishedAt - env.startedAt, env.finishedAt))
    else Aborted(a.failure.value, 0)
  }

  /** The database this scanner writes. */
  class Store {
    var posts: PostTable
    var stats: StatsRow

    constructor (initial: StatsRow)
      ensures posts == map[] && stats == initial
    {
      posts := map[];
      stats := initial;
    }
  }

  /** The module-level state of src/scanner-simplified.js. */
  class SimplifiedScanner {
    var isScanning: bool
    var scanInterval: int
    var consecutiveErrors: nat
    var lastScanPostIds: set<string>
    var scanHistory: seq<Sample>
    const db: Store

    constructor (db: Store)
      ensures this.db == db && !isScanning && Sched() == InitialSchedule() && Valid()
    {
      this.db := db;
      isScanning := false;
      scanInterval := BASE_POLL_INTERVAL;
      consecutiveErrors := 0;
      lastScanPostIds := {};
      scanHistory := [];
    }

    function Sched(): Schedule
      reads this
    {
      Schedule(scanInterval, consecutiveErrors, lastScanPostIds, scanHistory)
    }

    predicate Valid()
      reads this
    {
      ScheduleOk(Sched())
    }

    /** `updateStats`, recording the current `scanInterval`; a failing UPDATE is caught
        and changes nothing. */
    method UpdateStatsRow(counts: ScanCounts, duration: int, error: Option<string>, now: int, ok: bool)
      modifies db`stats
      ensures db.stats == if ok then SimplifiedStats(old(db.stats), counts, duration, scanInterval, error, now)
                          else old(db.stats)
    {
      if ok {
        db.stats := SimplifiedStats(db.stats, counts, duration, scanInterval, error, now);
      }
    }

    /** The `try` block of `scanFeed` up to `processPosts`; the status update sets only
        the status. */
    method AttemptScan(env: SimpleEnv) returns (a: SimpleAttempt)
      modifies db`stats, db`posts
      ensures a == TrySimpleScan(old(db.posts), env) && db.posts == a.posts
      ensures db.stats == if env.statusUpdateError.None? then old(db.stats).(status := Scanning) else old(db.stats)
    {
      if env.statusUpdateError.Some? {
        return SimpleAttempt(env.statusUpdateError, [], ScanCounts(0, 0, 0), db.posts);
      }
      db.stats := db.stats.(status := Scanning);
      var fetched := FetchFeed(env.envToken, env.fetchRaw);
      if fetched.Err? {
        return SimpleAttempt(Some(fetched.error.message), [], ScanCounts(0, 0, 0), db.posts);
      }
      var items := fetched.value;
      var tr := ProcessPosts(db.posts, items, env.startedAt, env.postsFault);
      if tr.Err? {
        return SimpleAttempt(Some(tr.error.message), items, ScanCounts(0, 0, 0), db.posts);
      }
      db.posts := tr.value.table;
      a := SimpleAttempt(None, items, ScanCounts(|items|, tr.value.newPosts, tr.value.duplicates), db.posts);
    }

    /** The rest of `scanFeed`: on success the history sample, the previous ids, the
        adjusted interval, the statistics and the reset of the error count; on failure
        the statistics first, with the interval from before any back-off, then the
        error count and the back-off from the third consecutive error. */
    method Conclude(env: SimpleEnv, a: SimpleAttempt) returns (outcome: ScanOutcome)
      modifies this`scanInterval, this`consecutiveErrors, this`lastScanPostIds, this`scanHistory, db`stats
      ensures outcome == SimpleOutcomeOf(a, env)
      ensures Sched() == SchedulerStep(old(Sched()), outcome)
      ensures db.stats == if env.statsUpdateOk
                          then SimplifiedStats(old(db.stats), CountsOf(outcome), env.finishedAt - env.startedAt,
                                               if outcome.Completed? then scanInterval else old(scanInterval),
                                               ErrorOf(outcome), env.finishedAt)
                          else old(db.stats)
    {
      outcome := SimpleOutcomeOf(a, env);
      var duration := env.finishedAt - env.startedAt;
      if a.failure.None? {
        var currentIds := ItemIds(a.items);
        var overlap := CalculateOverlap(currentIds, lastScanPostIds);
        scanHistory := PushSample(scanHistory, outcome.sample);
        lastScanPostIds := currentIds;
        scanInterval := AdjustPollInterval(scanInterval, overlap);
        UpdateStatsRow(a.counts, duration, None, env.finishedAt, env.statsUpdateOk);
        consecutiveErrors := 0;
      } else {
        UpdateStatsRow(ScanCounts(0, 0, 0), duration, a.failure, env.finishedAt, env.statsUpdateOk);
        consecutiveErrors := consecutiveErrors + 1;
        if consecutiveErrors >= 3 {
          scanInterval := Backoff(scanInterval);
        }
      }
    }

    /** `scanFeed`. While a scan is running it does nothing; otherwise the scheduler
        fields move as `SchedulerStep` says and the scan flag is down afterwards. */
    method ScanFeed(env: SimpleEnv) returns (outcome: ScanOutcome)
      requires Valid()
      modifies this, db
      ensures Valid()
      ensures Sched() == SchedulerStep(old(Sched()), outcome)
      ensures old(isScanning) ==> outcome == Skipped && unchanged(this, db)
      ensures !old(isScanning) ==>
                var a := TrySimpleScan(old(db.posts), env);
                var marked := if env.statusUpdateError.None? then old(db.stats).(status := Scanning) else old(db.stats);
                && !isScanning
                && outcome == SimpleOutcomeOf(a, env)
                && db.posts == a.posts
                && db.stats == if env.statsUpdateOk
                               then SimplifiedStats(marked, CountsOf(outcome), env.finishedAt - env.startedAt,
                                                    if outcome.Completed? then scanInterval else old(scanInterval),
                                                    ErrorOf(outcome), env.finishedAt)
                               else marked
    {
      if isScanning {
        return Skipped;
      }
      isScanning := true;
      var a := AttemptScan(env);
      outcome := Conclude(env, a);
      isScanning := false;
      assert Valid() by {
        SchedulerStepProperties(old(Sched()), outcome);
      }
    }

    /** `scheduleNext`: the next scan is due after the current interval. */
    method ScheduleNext() returns (delay: int)
      requires Valid()
      ensures delay == scanInterval
      ensures MIN_POLL_INTERVAL <= delay <= MAX_POLL_INTERVAL
    {
      delay := scanInterval;
    }
  }
}
