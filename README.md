# Sora scanner, modelled in Dafny

This project models the scanner loop of the Sora feed scanner and proves properties of
that model. The loop polls a third-party feed on a timer, stores new posts in PostgreSQL,
tunes its poll interval from the overlap between consecutive fetches, and rotates through a
pool of bearer tokens when one is rejected. Three smaller pieces are modelled as well:

- the cookie jar and `.env` rewrite of the HTTP token refresher;
- the transient-error retry policy of the browser token refresher;
- that refresher's own `.env` rewrite.

The model holds the database in memory. Posts form a map from id to record, and the token
table is a sequence of rows with a SERIAL counter. One HTTPS exchange is an oracle
`fetchRaw: string -> Exchange`, giving a status and body, a socket error or a timeout.
The classification the client code applies to that exchange is modelled exactly.
Time is an integer in milliseconds. The expiry decoded from a JWT is the parameter
`jwtExp: string -> Option<int>`.

Files, one module each:

- `wrappers.dfy`: `Option` and `Result`.
- `strings.dfy`: `includes`, `indexOf`, ASCII lower-casing, and the end of a line as `.` in
  a JavaScript regular expression sees it.
- `feed.dfy`: feed items, the two clients' response classification, and the rotation test
  `e.statusCode === 401 || e.statusCode === 403 || /invalid token|jwt/i.test(e.message)`.
- `ingestion.dfy`: `getOrientation`, `framesToDuration`, and `processPosts` as an
  all-or-nothing transaction loop.
- `overlap.dfy`: `calculateOverlap`, `adjustPollInterval`, and the failure backoff.
- `tokens.dfy`: the token table on values, the candidate list, and the rotation loop as a
  function.
- `scanner.dfy`: the module state of `src/scanner.js`, as a `Database` class holding the
  tables and a `Scanner` class holding the scheduler fields and the caches. Its methods
  are `listValidTokens`, `addToken`, the two removals, the rotating `fetchSoraFeed`,
  `updateStats`, `recordScanHistory`, `scanFeed`, `scheduleNext` and
  `fetchDashboardData`.
- `scanner_simplified.dfy`: the scanner without rotation, as `SimplifiedScanner`.
- `env_rewrite.dfy`: `String.prototype.replace` with `/AUTH_BEARER_TOKEN=.*/`, with and
  without the `g` flag, and `trimEnd`.
- `refresh_token.dfy`: `OpenAIAuth`'s cookie jar, and the `updateEnvFile` content of
  refresh-token.js.
- `refresh_token_browser.dfy`: `isTransientFrameError`, `retryOperation`, and the
  `updateEnvFile` content of refresh-token-browser.js.

Both scanners use one definition each of `getOrientation`, `framesToDuration`,
`processPosts`, `calculateOverlap` and `adjustPollInterval`. The source files repeat these
functions with the same thresholds, steps and rounding (src/scanner-simplified.js:33-46 and
src/scanner-simplified.js:100-175).

Some of this system's documentation does not match the code. The model follows the code:

- The main client rejects only 401 and 403 by status. Any other status, 500 included,
  is judged by its body alone, so a 500 with an `items` array is a success. No separate
  "upstream status" error exists.
- The interval doubles on every failure from the third consecutive one on (`>= 3`), not
  only on the third. A failed scan does not run the overlap controller.

## Model

| member | source | states |
|---|---|---|
| Feed.Classify | src/scanner.js:147-166 | 401 and 403 are rejected as `HTTP 401`/`HTTP 403` with their status whatever the body; an exchange succeeds exactly when it is an answer with another status whose JSON body has no error and an items array, and then yields those items |
| Feed.ClassifyBody | src/scanner.js:153-166 | the body succeeds exactly when it parses, has no `error` member and has an `items` array |
| Feed.ClassifySimplified | src/scanner-simplified.js:73-88 | the simplified client succeeds exactly on a parsed body with no error and an items array, whatever the status, and its errors carry no status code |
| Feed.ClassifiersAgreeOffAuthStatus | src/scanner-simplified.js:73-88 | away from 401/403 both clients accept the same exchanges with the same items and reject the others with the same message |
| Feed.TimeoutIsNotAuthFailure | src/scanner.js:172-175 | the timeout error never satisfies the rotation test, so the fetcher stops on it |
| Feed.AuthStatusIsAuthFailure | src/scanner.js:147-151 | every 401/403 answer, whatever its body, is rejected and satisfies the rotation test |
| Feed.MentionsAuthMatches | src/scanner.js:199 | the case-insensitive scan of the rotation regex succeeds exactly when `invalid token` or `jwt`, in any letter case, starts at some position of the message |
| Feed.JwtMentionRotates | src/scanner.js:199 | an API error envelope mentioning `jwt` in any letter case satisfies the rotation test even on a 200 answer |
| Ingestion.RatioTestsMatchReals | src/scanner.js:107-109 | the integer cross-multiplication tests agree with comparing the ratio `width / height` as a real number |
| Ingestion.OrientationMatchesRatio | src/scanner.js:105-111 | with both sides truthy: `wide` exactly when the ratio exceeds 1.1, `tall` exactly when it is below 0.9, `square` exactly when it lies in [0.9, 1.1] |
| Ingestion.FramesToDuration | src/scanner.js:114-118 | missing, zero or negative frame counts give 0; otherwise the hundredths are within 1/3 of a hundredth of `frames / 30` |
| Ingestion.DurationIsNearestHundredth | src/scanner.js:117 | the stored value is the unique hundredth nearest to `frames / 30` |
| Ingestion.DurationExamples | src/scanner.js:114-118 | 300 frames give 10.00 s; absent, 0 and negative counts give 0; 1 and 2 frames give 0.03 and 0.07 |
| Ingestion.ToRecord | src/scanner.js:237-246 | the prompt is the post's text exactly when that is present and non-empty, otherwise null; the time is `Math.floor` of a truthy `posted_at`, otherwise `now` in whole seconds (floored); orientation and duration come from the first attachment, or from none |
| Ingestion.ItemIdsMembers | src/scanner.js:418 | an id is in the batch's id set exactly when some item carries it |
| Ingestion.IngestCountsEveryItem | src/scanner.js:222-260 | new plus duplicate counts equal the batch length |
| Ingestion.IngestKeys | src/scanner.js:226-256 | afterwards the stored ids are the old ones plus the batch's |
| Ingestion.IngestKeepsStoredPosts | src/scanner.js:231-234 | a post stored before the batch keeps its record |
| Ingestion.UnstoredGrowth | src/scanner.js:231-256 | one more id adds one to the count of unstored distinct ids exactly when it is new to both sets |
| Ingestion.IngestNewPostsAreDistinctUnstoredIds | src/scanner.js:226-256 | the new-post count is the number of distinct batch ids not stored before, so a repeated id counts once as new and then as a duplicate |
| Ingestion.IngestIsIdempotent | src/scanner.js:226-234 | ingesting the same batch again stores nothing, counts every item as duplicate and leaves the table as it was |
| Ingestion.IngestStoresFirstOccurrence | src/scanner.js:249-256 | an unstored id is stored with the record built from its first occurrence in the batch |
| Ingestion.ThreeItemsOneStored | src/scanner.js:222-260 | a batch of one stored and two new distinct ids gives 2 new, 1 duplicate, and two more rows |
| Ingestion.TransactionOutcome | src/scanner.js:219-266 | a database failure before COMMIT completes is returned and nothing is stored (rollback); otherwise new + duplicates = batch length, new = distinct unstored ids, and the stored ids gain exactly the batch's |
| Ingestion.ProcessPosts | src/scanner.js:214-267 | the loop with its two counters and its working table returns what the transaction function does, fault or no fault |
| Overlap.CalculateOverlap | src/scanner.js:270-274 | 0 when the previous set is empty, otherwise the shared count over the current size. An empty current set after a non-empty previous one is the `0/0` case, `NaN` |
| Overlap.BandTestsMatchPercent | src/scanner.js:280-283 | `4k < n` is exactly "percentage below 25" and `5k > 2n` exactly "percentage above 40" |
| Overlap.BandFromProduct | src/scanner.js:280-283 | for `p * n = 100 k` with `n > 0`, `p < 25` iff `4k < n` and `p > 40` iff `5k > 2n` |
| Overlap.OverlapExtremes | src/scanner.js:270-274 | an empty previous set gives 0; a repeat of the previous set gives 100 % and slows polling; a disjoint one gives 0 % and speeds it up |
| Overlap.RoundToHundred | src/scanner.js:288 | the result is a multiple of 100 within 50 of the input, halves upward as `Math.round` does |
| Overlap.RoundOnGrid | src/scanner.js:288 | rounding keeps a multiple of 100, and keeps a value inside [6000, 30000] inside it |
| Overlap.AdjustKeepsBand | src/scanner.js:277-289 | from an interval in [6000, 30000] the result is again in that range on the 100 ms grid. On the grid: low overlap gives `max(6000, i - 500)`, high overlap `min(30000, i + 1000)`, and 25-40 inclusive or `NaN` leaves `i` |
| Overlap.BackoffKeepsBand | src/scanner.js:460-461 | the doubled interval stays in range, never shrinks, and is exactly `2i` below the cap |
| Strings.ContainsIff | refresh-token.js:351 | `includes` holds exactly when the pattern occurs at some position |
| Strings.IndexOf | refresh-token.js:352-355 | the first occurrence: it occurs there and nowhere before, and `None` only when it occurs nowhere |
| Strings.LowerChar | src/scanner.js:199 | the `i` flag's folding: each upper-case ASCII letter to its own lower-case letter (code + 32), everything else unchanged |
| Strings.LineEnd | refresh-token.js:353 | `.*` stops at the first line terminator (LF, CR, U+2028, U+2029) or at the end |
| Tokens.InsertByExpiry | src/scanner.js:81 | inserting into an expiry-sorted list keeps it sorted and adds exactly the one row |
| Tokens.SortByExpiry | src/scanner.js:81 | `ORDER BY expires_at DESC, added_at DESC`: sorted and a permutation of its input |
| Tokens.Unexpired | src/scanner.js:81 | `WHERE expires_at > NOW()` keeps exactly the rows not yet expired |
| Tokens.ListValidTokens | src/scanner.js:79-84 | exactly the unexpired rows, each once, sorted by expiry then insertion time |
| Tokens.ListedInOrder | src/scanner.js:81 | three unexpired rows with strictly decreasing expiry are listed as they are |
| Tokens.AddToken | src/scanner.js:86-92 | an undecodable token is `Invalid JWT format`, an expiry at or before now `Token already expired`, and any other token is accepted; an accepted insert draws the next SERIAL value |
| Tokens.AddTokenProperties | src/scanner.js:86-92 | the table stays well formed (positive unique ids, unique tokens); a decodable unexpired token is accepted: a stored one leaves the rows as they were (ON CONFLICT DO NOTHING), a new one becomes the last row with the drawn id, its expiry and `now`, and is then listed as valid |
| Tokens.RemoveById | src/scanner.js:94-97 | exactly the rows with another id remain |
| Tokens.RemoveByToken | src/scanner.js:99-102 | exactly the rows with another token remain |
| Tokens.RemoveIdsMembers | src/scanner.js:199-203 | after a run of deletions exactly the rows whose id was not deleted remain |
| Tokens.RemoveIdsAppend | src/scanner.js:200-201 | one more deletion extends the run by that id |
| Tokens.Candidates | src/scanner.js:182-184 | the stored tokens in listing order with their ids; only with none stored, the environment token with no id, and only when it is set and non-empty |
| Tokens.StoredCandidates | src/scanner.js:183 | one candidate per listed row, in order, with its id and token |
| Tokens.RotatedPrefix | src/scanner.js:193-209 | the length of the run of leading candidates the loop moves past: rejected by the rotation test, and deleted without error when stored |
| Tokens.RotationRemoves | src/scanner.js:196-204 | the rotation deletes, in order, exactly the stored ids in that leading run, never the environment token |
| Tokens.RotationAttempts | src/scanner.js:193-209 | it fetches once per candidate in the run plus once for the candidate that ends it, if any |
| Tokens.RotationOutcome | src/scanner.js:193-210 | the first candidate the loop does not move past decides: its items, its error, which stops the loop, or the error of its failing DELETE. If the loop moves past all, the last rejection is thrown |
| Tokens.RotationCharacterized | src/scanner.js:192-210 | the rotation without the loop: deletions, fetch count and outcome as above |
| Tokens.FetchFallbackRules | src/scanner.js:180-190 | a failing listing query is thrown with no fetch and no deletion; otherwise `No valid JWT tokens available` exactly when there is no candidate, with no fetch and no deletion; the environment fallback is never deleted |
| Tokens.DeleteFailureEndsRotation | src/scanner.js:199-201 | when the DELETE of a rejected stored candidate fails, its error is thrown after that fetch, the earlier rejected rows stay deleted and that row is kept |
| Tokens.TwoRejectedThenSuccess | src/scanner.js:180-211 | three stored tokens, the first two answered 401 and deleted without error: the third's items are returned after three fetches and the first two rows are deleted |
| Tokens.RotationTwoRejected | src/scanner.js:192-209 | the same on candidates: the result, both deletions in order, three attempts |
| Tokens.RemoveFirstTwo | src/scanner.js:200-201 | deleting the first two of three distinct rows leaves the third |
| Scanner.StatsCountersAccumulate | src/scanner.js:299-336 | over any run of updates the scanned, new and duplicate counters grow by the sums of the scans' counts and errors by the number of failed scans; the status is that of the last update |
| Scanner.PushSample | src/scanner.js:423-424 | the history gains the sample last and keeps the newest ones, dropping the oldest beyond 6 |
| Scanner.SchedulerStepProperties | src/scanner.js:419-463 | one scan keeps the interval in range on the grid and at most 6 samples. Success resets the error count and replaces the previous ids. Failure adds one error, keeps the ids and history, leaves the interval alone before the third consecutive error and doubles it (capped) on the third and every later one |
| Scanner.RunKeepsInvariant | src/scanner.js:392-489 | any sequence of scans keeps that invariant |
| Scanner.InitialScheduleOk | src/scanner.js:44-49 | the initial state (10 s, no errors, no ids, no samples) satisfies it |
| Scanner.ThreeFailuresBackOff | src/scanner.js:459-463 | three failures from a clean state double the interval (capped) once, at the third |
| Scanner.JwtSummaryOf | src/scanner.js:645-686 | the count is the valid stored tokens plus one for a valid environment token; the environment entry is listed exactly when it is valid and not stored; all rows are listed by expiry |
| Scanner.StoredEnvTokenCountedTwice | src/scanner.js:651-683 | a valid environment token that is also stored is counted twice and not listed separately |
| Scanner.CacheLifetime | src/scanner.js:556-560 | cached data is served exactly while it is younger than 5 s; after `timestamp = 0` it is not served once 5 s of epoch time have passed |
| Scanner.RotateStops | src/scanner.js:195-207 | a candidate that is accepted, rejected without satisfying the rotation test, or whose DELETE fails ends the loop with its outcome and no further deletion |
| Scanner.RotateHandsOn | src/scanner.js:197-204 | a rejected candidate whose deletion succeeds adds its id to the deletions and hands its error on to the rest of the loop |
| Scanner.Database.constructor | src/scanner.js:67-77 | empty tables, SERIAL counter at 1 |
| Scanner.TryScanOutcome | src/scanner.js:407-418 | a failure (status update, token listing or deletion, fetch, transaction) stores nothing and reports zero counts; a success stores the batch and reports its counts and fetch count |
| Scanner.TryScanStoresFetchedPosts | src/scanner.js:410-418 | on success the fetched ids are stored, total and fetch count equal the batch length, and new = distinct unstored ids |
| Scanner.TryScanTokens | src/scanner.js:192-204 | the token table after an attempt is the stored rows minus the ids the rotation deleted, whatever happens after the fetch; untouched when the status update fails |
| Scanner.TryScanOnlyDropsTokens | src/scanner.js:193-204 | a scan can delete token rows but never adds one |
| Scanner.Scanner.constructor | src/scanner.js:44-52 | not scanning, interval 10 s, no errors, no previous ids, no samples, empty caches, and the scheduler invariant holds |
| Scanner.Scanner.ListValidTokens | src/scanner.js:79-84 | returns the listing of the current table |
| Scanner.Scanner.AddToken | src/scanner.js:86-92 | accepted exactly when the token decodes to an unexpired expiry; a rejected token leaves table, counter and cache alone; an accepted new one is appended as the last row with the drawn id, a stored one changes no row, and the token cache is cleared |
| Scanner.Scanner.RemoveTokenById | src/scanner.js:94-97 | the table loses exactly that id and the token cache is cleared; a failing DELETE is thrown with table and cache unchanged |
| Scanner.Scanner.RemoveTokenByToken | src/scanner.js:99-102 | the table loses exactly that token and the token cache is cleared; a failing DELETE is thrown with table and cache unchanged |
| Scanner.Scanner.FetchSoraFeed | src/scanner.js:180-211 | a failing listing query is thrown at once; otherwise returns the rotation's outcome over the listed candidates, deletes exactly the rows it names, and clears the cache only if something was deleted |
| Scanner.Scanner.RotateTurn | src/scanner.js:194-205 | one pass of the loop body: it stops exactly when the candidate is not moved past (accepted, rejected for another reason, or its DELETE fails), then with the rotation's result for that candidate and tables untouched; otherwise it goes on with the fetch error, the candidate's row deleted if it has an id, and the token cache dropped in that case |
| Scanner.Scanner.RotateCandidates | src/scanner.js:192-210 | the loop over a non-empty candidate list agrees with the rotation function: the same outcome, a failing DELETE included, and the same deletions |
| Scanner.Scanner.UpdateStatsRow | src/scanner.js:292-340 | the stats row becomes the update's result, or stays as it was when the query fails (the error is caught) |
| Scanner.Scanner.RecordScanHistory | src/scanner.js:342-389 | a successful insert appends the row and resets the dashboard cache's timestamp to 0; a failed one changes nothing |
| Scanner.Scanner.AttemptScan | src/scanner.js:407-416 | the tables become those of the try block's steps and the stats row is marked `scanning` with the current interval |
| Scanner.Scanner.Conclude | src/scanner.js:417-485 | the scheduler fields take one scheduler step; stats and history get the success or failure rows with the step's interval and error count |
| Scanner.Scanner.ScanFeed | src/scanner.js:392-489 | while a scan runs the call changes nothing; otherwise the scan runs to its end, `isScanning` is false afterwards, and the state is that of one scheduler step with the corresponding stats and history rows; the scheduler invariant is kept |
| Scanner.Scanner.ScheduleNext | src/scanner.js:1254-1261 | the next scan is due after the current interval, which lies in [6000, 30000] |
| Scanner.Scanner.FetchDashboardData | src/scanner.js:556-689 | fresh cached data is returned untouched; otherwise a query failure is returned with the cache unchanged, or the new data is returned and cached with `now` as its time |
| ScannerSimplified.StatusIsIgnored | src/scanner-simplified.js:73-84 | a body with items succeeds in the simplified client even on 401/403, which the main client rejects |
| ScannerSimplified.StatsAgreeWithMainScanner | src/scanner-simplified.js:178-214 | for no error or an error with a message, the simplified UPDATE writes every column it has as the main one does, and leaves the main one's extra columns (last new and duplicate counts, error count, last error time) as they were |
| ScannerSimplified.FailureStats | src/scanner-simplified.js:257-260 | on failure it runs with empty stats: errors +1, other counters +0, status `error`, last count 0 |
| ScannerSimplified.TrySimpleScanProperties | src/scanner-simplified.js:227-234 | a failure stores nothing and reports zero counts; a success stores the batch with new + duplicates = length and new = distinct unstored ids |
| ScannerSimplified.Store.constructor | src/scanner-simplified.js:5-15 | an empty post table and the given stats row |
| ScannerSimplified.SimplifiedScanner.constructor | src/scanner-simplified.js:24-30 | not scanning, 10 s interval, no errors, no previous ids, no samples, and the scheduler invariant holds |
| ScannerSimplified.SimplifiedScanner.UpdateStatsRow | src/scanner-simplified.js:178-214 | the stats row becomes the simplified update's result, or stays when the query fails |
| ScannerSimplified.SimplifiedScanner.AttemptScan | src/scanner-simplified.js:227-234 | the post table becomes that of the try block and the stats row is marked `scanning` when that update succeeds |
| ScannerSimplified.SimplifiedScanner.Conclude | src/scanner-simplified.js:235-266 | one scheduler step, with the stats update written with the interval before the error count grows |
| ScannerSimplified.SimplifiedScanner.ScanFeed | src/scanner-simplified.js:217-270 | while a scan runs nothing changes; otherwise one scheduler step, `isScanning` false afterwards, posts and stats as the scan left them; the scheduler invariant is kept |
| ScannerSimplified.SimplifiedScanner.ScheduleNext | src/scanner-simplified.js:273-280 | the next scan is due after the current interval, in [6000, 30000] |
| RefreshToken.CookiePair | refresh-token.js:45-47 | only the text before the first `;` counts; the name is the text before its first `=` and the value the rest, later `=` signs kept, or empty without an `=` |
| RefreshToken.PutLookup | refresh-token.js:49 | after `cookies[name] = value` the name has the new value and every other name keeps its own |
| RefreshToken.PutNames | refresh-token.js:49 | the names keep their order, and a new name goes last |
| RefreshToken.PutEntries | refresh-token.js:49 | every entry afterwards is the new one or an old one |
| RefreshToken.PutKeepsUnique | refresh-token.js:49 | distinct names stay distinct |
| RefreshToken.AbsorbOne | refresh-token.js:48-50 | a cookie whose value is empty or `null` leaves the jar unchanged; any other takes its value under its name, the rest unchanged |
| RefreshToken.SingleHeaderIsList | refresh-token.js:41-42 | a single string is handled as the one-element list it is wrapped in |
| RefreshToken.CookieStringAppend | refresh-token.js:54-58 | an empty jar gives `""`; each added entry appends `; name=value`, and the first has no separator |
| RefreshToken.OpenAIAuth.constructor | refresh-token.js:27-30 | the jar starts empty |
| RefreshToken.OpenAIAuth.ParseCookies | refresh-token.js:40-52 | the jar becomes the old one with every header applied in order; a missing or empty value applies nothing |
| RefreshToken.UpdateEnvContentReplaces | refresh-token.js:351-355 | with the key present, the text up to the first key and after the end of its line is kept, later key lines included, and the first occurrence of the key then reads back the new token |
| RefreshToken.CommentedKeyTakesToken | refresh-token.js:351-355 | the key is found anywhere, not only at a line start: in `#AUTH_BEARER_TOKEN=a` followed by the live line `AUTH_BEARER_TOKEN=b`, the commented line takes the token and the live line keeps `b` |
| RefreshToken.UpdateEnvContentAppends | refresh-token.js:356-358 | without the key, the old content is kept whole, the new line starts a line of its own, and the file then gives the new token |
| EnvRewrite.SubstituteLiteral | refresh-token.js:354 | a replacement text without `$` is inserted literally |
| EnvRewrite.MatchPatternExpands | refresh-token.js:352-355 | the replacement text is a template: `$&` in a token stands for the matched text |
| EnvRewrite.MatchEnd | refresh-token.js:353 | the match of `AUTH_BEARER_TOKEN=.*` covers the key and ends inside the string |
| EnvRewrite.ReplaceAllExtendsReplaceFirst | refresh-token-browser.js:299 | the global replace agrees with the single one on the first match and goes on after it; with one match they coincide |
| EnvRewrite.ReplaceAllWithoutKey | refresh-token-browser.js:299 | with no further match the rest is kept as it is |
| EnvRewrite.ReplaceFirstReadBack | refresh-token.js:351-355 | replacing the first key line with a `$`-free token on one line makes the first occurrence of the key read back that token |
| EnvRewrite.ReplaceAllReadBack | refresh-token-browser.js:298-299 | the same for the global replace |
| EnvRewrite.AppendReadBack | refresh-token.js:357 | a line appended after a line terminator to content without the key starts a line, and the file then gives its token |
| EnvRewrite.TrimEnd | refresh-token-browser.js:301 | `trimEnd` removes exactly the trailing run of JavaScript white space and line terminators |
| RefreshTokenBrowser.TransientIff | refresh-token-browser.js:76-84 | false for a missing error or message; otherwise true exactly when the message contains one of the four fragments |
| RefreshTokenBrowser.TargetClosedIsTransient | refresh-token-browser.js:76-84 | a `Protocol error: Target closed.` message is transient |
| RefreshTokenBrowser.RetryFrom | refresh-token-browser.js:86-103 | from attempt `k` at most `attempts - k + 1` calls, and at least one while attempts remain; with none left, no call and `undefined` rethrown. One wait separates each pair of calls |
| RefreshTokenBrowser.RetryUnfold | refresh-token-browser.js:88-100 | one attempt: a result is returned at once; a non-transient error, or any on the last attempt, is rethrown; a transient one waits `delayMs * k` and tries again; a thrown `undefined` or `null` ends the run with the TypeError its logged `${error.message}` raises, before any wait |
| RefreshTokenBrowser.RetryWaitsGrow | refresh-token-browser.js:99 | the i-th wait is `delayMs * (k + i)`, so the waits grow linearly |
| RefreshTokenBrowser.RetryEarlierCallsTransient | refresh-token-browser.js:94-99 | every call but the last threw a transient error other than `undefined` or `null` |
| RefreshTokenBrowser.RetryLastCall | refresh-token-browser.js:88-97 | the outcome is the last call's own result, or its error as the `catch` lets it out: the error itself, or the TypeError for `undefined` and `null`, so never one of those two; a transient error is rethrown only from the last attempt |
| RefreshTokenBrowser.NoAttempts | refresh-token-browser.js:86-102 | with fewer than one attempt the operation is never called and `undefined` is thrown |
| RefreshTokenBrowser.DefaultPolicy | refresh-token-browser.js:86-99 | with the defaults, one to four calls, and the waits are the first `calls - 1` of 750, 1500 and 2250 ms |
| RefreshTokenBrowser.RetryOperation | refresh-token-browser.js:86-103 | the loop returns the same outcome, the same number of calls and the same waits as the retry function, the TypeError for a thrown `undefined` or `null` included |
| RefreshTokenBrowser.RetryFrameOperation | refresh-token-browser.js:86-103 | the same with the script's own test, `isTransientFrameError`, which never retries `undefined` or `null`, so they leave as the TypeError of the failure log |
| RefreshTokenBrowser.BrowserEnvContentReplaces | refresh-token-browser.js:298-299 | with the key present, the text before the first key is kept, every key line is replaced, and the first occurrence of the key then reads back the new token |
| RefreshTokenBrowser.SecondKeyLine | refresh-token-browser.js:299 | a second key line is rewritten too, where the refresh-token.js rewrite keeps it |
| RefreshTokenBrowser.AsWrittenGluesLastLine | refresh-token-browser.js:301 | as written: content without the key that ends in a newline loses it, and the new line is glued onto the last line |
| RefreshTokenBrowser.GluedLineExample | refresh-token-browser.js:301 | `A=1\n` becomes `A=1AUTH_BEARER_TOKEN=t\n` |
| RefreshTokenBrowser.CorrectedOnEmpty | refresh-token-browser.js:301 | corrected: empty content becomes the key line alone, as in the code |
| RefreshTokenBrowser.CorrectedStartsOwnLine | refresh-token-browser.js:301 | corrected: for non-empty content the new line follows the trimmed content after a newline, starts its own line, and the file gives the new token |
| RefreshTokenBrowser.CorrectedAgreesOffNewline | refresh-token-browser.js:301 | the correction changes nothing when the content does not end in a newline |

## Left out

- HTTP mechanics: the socket, headers, cookies and the 30 s timer of `fetchSoraFeedRaw`. The
  exchange is an input; only its classification is modelled.
- SQL text, `NOW()`, the pool and the connection setup, and the dashboard's aggregate
  queries. The tables are in memory, the aggregates are left out, and a failing dashboard
  query is one optional error.
- Floating-point metrics: `postsPerSec`, `avgPostsPerSec`, and the `toFixed` overlap and
  throughput columns of `updateStats` and the history row. A sample keeps the fetch count,
  duration and time from which `postsPerSec` is computed. The unguarded
  `count / (duration / 1000)` of the simplified scanner is left out for the same reason.
- JWT decoding (`parseJwtExp`), which uses base64 and `JSON.parse`: it is the parameter
  `jwtExp`.
- `generateDeviceId`, which draws from `Math.random`.
- The OAuth request chain and the browser automation around `retryOperation`.
- `setTimeout`, the signal handlers and `main`. The one rule modelled is that the next scan
  is always due after `scanInterval`.
- Reading and writing the `.env` file: only the computed content is modelled. In
  refresh-token-browser.js a missing file is read as the empty string
  (refresh-token-browser.js:294). In refresh-token.js `readFileSync` throws
  for a missing file inside the `try`, so the warning is logged and nothing is written
  (refresh-token.js:348, 363-365). No content is computed then, so that case has no model.
- What `dotenv` (src/scanner.js:4) reads back from the rewritten file: the key is found by
  an unanchored regular expression (refresh-token.js:353, refresh-token-browser.js:299),
  so an earlier occurrence in a `#` comment or inside a longer name such as
  `MY_AUTH_BEARER_TOKEN=` takes the token, and a live line after it keeps its old value
  (RefreshToken.CommentedKeyTakesToken). With the key only in such places, no live line is
  written at all. The read-back lemmas therefore speak of the first occurrence of the key;
  that it is the value `dotenv` loads is not modelled.
- RefreshToken.Put: a JavaScript object lists integer-like keys before the others, and
  `__proto__` is not an ordinary key. The jar keeps plain insertion order for every name.
- Ingestion.ProcessPosts: the `ON CONFLICT (id) DO NOTHING` race with a concurrent writer is
  not modelled, because the model has one writer.
- Tokens.AddToken: the insert's own failure (for example a lost connection) is not
  modelled; an accepted token is always inserted or already present.
- Concurrency of the admin handlers: `POST /api/tokens` and `DELETE /api/tokens/:id`
  (src/scanner.js:1203, 1220) await `addToken` and `removeTokenById` on the same event loop,
  so they can interleave with a running scan's awaits. The model runs each method to its end
  alone, so a token added or deleted between a scan's listing and its rotation is not
  captured.
- RefreshTokenBrowser.RetryFrom: `attempts` is an integer; a fractional or non-numeric
  count has no model.
- RefreshTokenBrowser.RetryOperation: the transient test is a parameter, so the loop is
  stated for any test. RefreshTokenBrowser.RetryFrameOperation fixes it to
  `isTransientFrameError`.
- Feed.Classify: a body is parsed JSON or not. Which texts `JSON.parse` accepts, and the
  exact `JSON.stringify` text of an error envelope, are inputs.
- Strings.LowerChar: folds only ASCII letters. It suffices for the ASCII patterns
  `invalid token` and `jwt`, but other Unicode case pairs are not modelled.

## Findings

| source | as written | input that shows it | evidently intended | confidence | as-written member | corrected member |
|---|---|---|---|---|---|---|
| refresh-token-browser.js:301 | the separator test `existing.endsWith('\n')` looks at the untrimmed content, but `trimEnd()` has already removed that newline, so no separator is added | `.env` content `A=1\n` without the key: the result is `A=1AUTH_BEARER_TOKEN=t\n`, and `A=1` gets a corrupted value | the new key line starts a line of its own after the trimmed content (separator `\n` unless the content is empty) | high, not executed | RefreshTokenBrowser.AsWrittenGluesLastLine | RefreshTokenBrowser.CorrectedStartsOwnLine |
