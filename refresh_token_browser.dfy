/** The browser-driven token script refresh-token-browser.js, in its parts that do not
    drive the browser: the test for the transient errors a navigating page throws, the
    retry policy built on it, and the content that `updateEnvFile` writes. */
module RefreshTokenBrowser {
  import opened Wrappers
  import opened Strings
  import opened EnvRewrite

  const DEFAULT_ATTEMPTS: int := 4
  const DEFAULT_DELAY_MS: int := 750

  /** The messages of errors that only mean the page's frame changed under the
      script. */
  const TRANSIENT_FRAGMENTS: seq<string> := [
    "Execution context was destroyed",
    "Cannot find context with specified id",
    "Target closed",
    "Frame was detached"
  ]

  /** A thrown value: `undefined`, `null`, or any other value, seen through its
      `message` property, which may be missing (a thrown string or number has none). */
  datatype Thrown = Undefined | Null | ErrorObject(message: Option<string>)

  /** The values whose `message` cannot be read. */
  predicate IsNullish(e: Thrown)
  {
    e.Undefined? || e.Null?
  }

  /** The TypeError that reading `message` of `undefined` or `null` raises. */
  function MessageReadError(e: Thrown): Thrown
  {
    if e.Null? then ErrorObject(Some("Cannot read properties of null (reading 'message')"))
    else ErrorObject(Some("Cannot read properties of undefined (reading 'message')"))
  }

  /** What leaves a `catch` block that logs `${error.message}` before it rethrows: the
      error itself, or the TypeError the template raises for `undefined` and `null`. */
  function Reported(e: Thrown): Thrown
  {
    if IsNullish(e) then MessageReadError(e) else e
  }

  /** `isTransientFrameError`: false without an error or a (non-empty) message,
      otherwise whether the message contains one of the fragments. */
  predicate IsTransientFrameError(e: Thrown)
  {
    e.ErrorObject? && e.message.Some? && e.message.value != ""
    && exists k :: 0 <= k < |TRANSIENT_FRAGMENTS| && Contains(e.message.value, TRANSIENT_FRAGMENTS[k])
  }

  /** An error is transient exactly when it carries a message in which one of the
      fragments occurs somewhere. */
  lemma TransientIff(e: Thrown)
    ensures IsTransientFrameError(e) <==>
              e.ErrorObject? && e.message.Some?
              && exists k, j :: 0 <= k < |TRANSIENT_FRAGMENTS| && OccursAt(e.message.value, TRANSIENT_FRAGMENTS[k], j)
  {
    if e.ErrorObject? && e.message.Some? {
      var m := e.message.value;
      forall k | 0 <= k < |TRANSIENT_FRAGMENTS|
        ensures Contains(m, TRANSIENT_FRAGMENTS[k]) <==> exists j :: OccursAt(m, TRANSIENT_FRAGMENTS[k], j)
      {
        ContainsIff(m, TRANSIENT_FRAGMENTS[k]);
      }
      if exists k, j :: 0 <= k < |TRANSIENT_FRAGMENTS| && OccursAt(m, TRANSIENT_FRAGMENTS[k], j) {
        var k, j :| 0 <= k < |TRANSIENT_FRAGMENTS| && OccursAt(m, TRANSIENT_FRAGMENTS[k], j);
        assert m != "";
      }
    }
  }

  /** Puppeteer's "Protocol error: Target closed." is transient. */
  lemma TargetClosedIsTransient()
    ensures IsTransientFrameError(ErrorObject(Some("Protocol error: Target closed.")))
  {
    var m := "Protocol error: Target closed.";
    assert m[16..29] == TRANSIENT_FRAGMENTS[2];
    assert OccursAt(m, TRANSIENT_FRAGMENTS[2], 16);
    ContainsIff(m, TRANSIENT_FRAGMENTS[2]);
  }

  /** What the `k`-th call of the operation did. */
  datatype CallResult<T> = Resolved(value: T) | Threw(error: Thrown)

  datatype RetryOutcome<T> = Returned(value: T) | Rethrown(error: Thrown)

  /** A whole `retryOperation`: its outcome, how many times it called the operation, and
      the waits it slept between the calls. */
  datatype RetryRun<T> = RetryRun(outcome: RetryOutcome<T>, calls: nat, waits: seq<int>)

  /** `retryOperation` from attempt `k` on, with `transient` the test it applies to an
      error (the script's own is `IsTransientFrameError`, see `RetryFrameOperation`):
      a result is returned at once; an error is rethrown when it is not transient or
      the attempt is the last; otherwise it waits `delayMs * k` and tries again. Both
      paths first log `${error.message}`, so `undefined` and `null` leave as the
      TypeError that raises, before any wait. With fewer than one attempt no call is
      made and the still undefined `lastError` is thrown. At most the remaining
      attempts are used, at least one when any remains, with one wait between two
      calls. */
  function RetryFrom<T>(op: nat -> CallResult<T>, transient: Thrown -> bool, attempts: int, delayMs: int, k: nat): (run: RetryRun<T>)
    requires k >= 1
    decreases attempts - k
    ensures k <= attempts ==> 1 <= run.calls <= attempts - k + 1
    ensures k > attempts ==> run.calls == 0 && run.outcome == Rethrown(Undefined)
    ensures |run.waits| == if run.calls == 0 then 0 else run.calls - 1
  {
    if k > attempts then RetryRun(Rethrown(Undefined), 0, [])
    else
      match op(k)
      case Resolved(v) => RetryRun(Returned(v), 1, [])
      case Threw(e) =>
        if IsNullish(e) then RetryRun(Rethrown(MessageReadError(e)), 1, [])
        else if !transient(e) || k == attempts then RetryRun(Rethrown(e), 1, [])
        else
          var rest := RetryFrom(op, transient, attempts, delayMs, k + 1);
          RetryRun(rest.outcome, rest.calls + 1, [delayMs * k] + rest.waits)
  }

  /** The run from attempt `k` is the call at `k` followed, after a transient error
      that was not the last attempt, by a wait and the run from `k + 1`; an error that
      ends the run leaves as itself, or as the TypeError of reading the `message` of
      `undefined` or `null`, whether or not the test called it transient. */
  lemma RetryUnfold<T>(op: nat -> CallResult<T>, transient: Thrown -> bool, attempts: int, delayMs: int, k: nat)
    requires 1 <= k <= attempts
    ensures var run := RetryFrom(op, transient, attempts, delayMs, k);
            var rest := RetryFrom(op, transient, attempts, delayMs, k + 1);
            && (op(k).Threw? && transient(op(k).error) && k != attempts && !IsNullish(op(k).error) ==>
                  run == RetryRun(rest.outcome, rest.calls + 1, [delayMs * k] + rest.waits))
            && (op(k).Resolved? ==> run == RetryRun(Returned(op(k).value), 1, []))
            && (op(k).Threw? && (!transient(op(k).error) || k == attempts) && !IsNullish(op(k).error) ==>
                  run == RetryRun(Rethrown(op(k).error), 1, []))
            && (op(k).Threw? && op(k).error.Undefined? ==>
                  run == RetryRun(Rethrown(ErrorObject(Some("Cannot read properties of undefined (reading 'message')"))), 1, []))
            && (op(k).Threw? && op(k).error.Null? ==>
                  run == RetryRun(Rethrown(ErrorObject(Some("Cannot read properties of null (reading 'message')"))), 1, []))
  {
  }

  /** The waits grow linearly: `delayMs` times the number of the attempt that failed. */
  lemma {:induction false} RetryWaitsGrow<T>(op: nat -> CallResult<T>, transient: Thrown -> bool, attempts: int, delayMs: int, k: nat)
    requires 1 <= k
    decreases attempts - k
    ensures var run := RetryFrom(op, transient, attempts, delayMs, k);
            forall i :: 0 <= i < |run.waits| ==> run.waits[i] == delayMs * (k + i)
  {
    if k <= attempts {
      RetryUnfold(op, transient, attempts, delayMs, k);
      if op(k).Threw? && transient(op(k).error) && k != attempts && !IsNullish(op(k).error) {
        RetryWaitsGrow(op, transient, attempts, delayMs, k + 1);
        var run := RetryFrom(op, transient, attempts, delayMs, k);
        var rest := RetryFrom(op, transient, attempts, delayMs, k + 1);
        forall i | 0 <= i < |run.waits|
          ensures run.waits[i] == delayMs * (k + i)
        {
          if i > 0 {
            assert run.waits[i] == rest.waits[i - 1];
          }
        }
      }
    }
  }

  /** Every call before the last one made threw a transient error that has a
      `message` to log. */
  lemma {:induction false} RetryEarlierCallsTransient<T>(op: nat -> CallResult<T>, transient: Thrown -> bool, attempts: int, delayMs: int, k: nat)
    requires 1 <= k
    decreases attempts - k
    ensures var run := RetryFrom(op, transient, attempts, delayMs, k);
            forall j :: k <= j < k + run.calls - 1 ==> op(j).Threw? && transient(op(j).error) && !IsNullish(op(j).error)
  {
    if k <= attempts {
      RetryUnfold(op, transient, attempts, delayMs, k);
      if op(k).Threw? && transient(op(k).error) && k != attempts && !IsNullish(op(k).error) {
        RetryEarlierCallsTransient(op, transient, attempts, delayMs, k + 1);
      }
    }
  }

  /** The last call made gives the outcome: its value, or its error as the `catch`
      block lets it out (a TypeError in place of `undefined` or `null`, so never one of
      those two), which is transient only when that call was the last attempt. */
  lemma {:induction false} RetryLastCall<T>(op: nat -> CallResult<T>, transient: Thrown -> bool, attempts: int, delayMs: int, k: nat)
    requires 1 <= k <= attempts
    decreases attempts - k
    ensures var run := RetryFrom(op, transient, attempts, delayMs, k);
            var last := k + run.calls - 1;
            && (run.outcome.Returned? ==> op(last) == Resolved(run.outcome.value))
            && (run.outcome.Rethrown? ==> op(last).Threw? && run.outcome.error == Reported(op(last).error))
            && (run.outcome.Rethrown? ==> run.outcome.error.ErrorObject?)
            && (run.outcome.Rethrown? && transient(op(last).error) && !IsNullish(op(last).error) ==> last == attempts)
  {
    RetryUnfold(op, transient, attempts, delayMs, k);
    if op(k).Threw? && transient(op(k).error) && k != attempts && !IsNullish(op(k).error) {
      RetryLastCall(op, transient, attempts, delayMs, k + 1);
    }
  }

  /** With fewer than one attempt nothing is called and `undefined` is thrown. */
  lemma NoAttempts<T>(op: nat -> CallResult<T>, transient: Thrown -> bool, attempts: int, delayMs: int)
    requires attempts < 1
    ensures RetryFrom(op, transient, attempts, delayMs, 1) == RetryRun(Rethrown(Undefined), 0, [])
  {
  }

  /** With the default four attempts and 750 ms, at most four calls are made and the
      waits are 750, 1500 and 2250 ms at most. */
  lemma DefaultPolicy<T>(op: nat -> CallResult<T>, transient: Thrown -> bool)
    ensures var run := RetryFrom(op, transient, DEFAULT_ATTEMPTS, DEFAULT_DELAY_MS, 1);
            1 <= run.calls <= 4 && run.waits == [750, 1500, 2250][..run.calls - 1]
  {
    RetryWaitsGrow(op, transient, DEFAULT_ATTEMPTS, DEFAULT_DELAY_MS, 1);
    var run := RetryFrom(op, transient, DEFAULT_ATTEMPTS, DEFAULT_DELAY_MS, 1);
    assert |run.waits| == run.calls - 1;
    forall i | 0 <= i < |run.waits|
      ensures run.waits[i] == [750, 1500, 2250][i]
    {
      assert run.waits[i] == 750 * (1 + i);
    }
  }

  /** `RetryRun` of attempts already made followed by the run from the next one. */
  function Then<T>(calls: nat, waits: seq<int>, rest: RetryRun<T>): RetryRun<T>
  {
    RetryRun(rest.outcome, calls + rest.calls, waits + rest.waits)
  }

  /** `retryOperation`: the `for` loop over the attempts, with `lastError` kept as the
      source keeps it; the sleeps are returned as the waits. */
  method RetryOperation<T>(op: nat -> CallResult<T>, transient: Thrown -> bool, attempts: int, delayMs: int)
    returns (outcome: RetryOutcome<T>, calls: nat, waits: seq<int>)
    ensures RetryRun(outcome, calls, waits) == RetryFrom(op, transient, attempts, delayMs, 1)
  {
    var lastError := Undefined;
    calls, waits := 0, [];
    var attempt: nat := 1;
    while attempt <= attempts
      invariant 1 <= attempt && (attempt <= attempts || attempt == 1)
      invariant calls == attempt - 1
      invariant attempt == 1 ==> lastError == Undefined
      invariant RetryFrom(op, transient, attempts, delayMs, 1) == Then(calls, waits, RetryFrom(op, transient, attempts, delayMs, attempt))
      decreases attempts - attempt
    {
      var r := op(attempt);
      RetryStep(op, transient, attempts, delayMs, attempt, calls, waits);
      if r.Resolved? {
        return Returned(r.value), calls + 1, waits;
      }
      lastError := r.error;
      if !transient(r.error) || attempt == attempts {
        // the failure is logged with `${error.message}` before `throw error`
        return Rethrown(Reported(r.error)), calls + 1, waits;
      }
      if IsNullish(r.error) {
        // the retry notice reads `${error.message}` too
        return Rethrown(MessageReadError(r.error)), calls + 1, waits;
      }
      calls := calls + 1;
      waits := waits + [delayMs * attempt];
      attempt := attempt + 1;
    }
    assert RetryFrom(op, transient, attempts, delayMs, attempt) == RetryRun(Rethrown(Undefined), 0, []);
    assert waits + [] == waits;
    outcome := Rethrown(lastError);
  }

  /** One pass of the loop of `retryOperation`, after `calls` calls that slept `waits`:
      what the run so far followed by the run from attempt `k` comes to in each case of
      the call at `k`. */
  lemma RetryStep<T>(op: nat -> CallResult<T>, transient: Thrown -> bool, attempts: int, delayMs: int, k: nat,
                     calls: nat, waits: seq<int>)
    requires 1 <= k <= attempts
    ensures var run := Then(calls, waits, RetryFrom(op, transient, attempts, delayMs, k));
            && (op(k).Resolved? ==> run == RetryRun(Returned(op(k).value), calls + 1, waits))
            && (op(k).Threw? && (!transient(op(k).error) || k == attempts) ==>
                  run == RetryRun(Rethrown(Reported(op(k).error)), calls + 1, waits))
            && (op(k).Threw? && IsNullish(op(k).error) ==>
                  run == RetryRun(Rethrown(MessageReadError(op(k).error)), calls + 1, waits))
            && (op(k).Threw? && transient(op(k).error) && k != attempts && !IsNullish(op(k).error) ==>
                  run == Then(calls + 1, waits + [delayMs * k], RetryFrom(op, transient, attempts, delayMs, k + 1)))
  {
    assert waits + [] == waits;
    if op(k).Threw? && transient(op(k).error) && k != attempts && !IsNullish(op(k).error) {
      var rest := RetryFrom(op, transient, attempts, delayMs, k + 1);
      assert waits + ([delayMs * k] + rest.waits) == (waits + [delayMs * k]) + rest.waits;
    }
  }

  /** `retryOperation` as the script runs it, with `isTransientFrameError` deciding
      which errors are retried. */
  method RetryFrameOperation<T>(op: nat -> CallResult<T>, attempts: int, delayMs: int)
    returns (outcome: RetryOutcome<T>, calls: nat, waits: seq<int>)
    ensures RetryRun(outcome, calls, waits) == RetryFrom(op, IsTransientFrameError, attempts, delayMs, 1)
  {
    outcome, calls, waits := RetryOperation(op, IsTransientFrameError, attempts, delayMs);
  }

  function EndsWithNewline(s: string): bool
  {
    |s| > 0 && s[|s| - 1] == '\n'
  }

  /** The content `updateEnvFile` writes, as written: every line with the key rewritten
      (`g` flag); without the key, the trimmed content, a newline unless the UNTRIMMED
      content ended in one or was empty, and the new line. */
  function BrowserEnvContent(existing: string, token: string): string
  {
    if Contains(existing, KEY) then ReplaceAll(existing, KEY + token)
    else TrimEnd(existing) + (if EndsWithNewline(existing) || |existing| == 0 then "" else "\n") + (KEY + token) + "\n"
  }

  /** The same computation with the newline test applied to the trimmed content, which
      never ends in one: a newline separates any old content from the new line. */
  function CorrectedEnvContent(existing: string, token: string): string
  {
    if Contains(existing, KEY) then ReplaceAll(existing, KEY + token)
    else TrimEnd(existing) + (if |existing| == 0 then "" else "\n") + (KEY + token) + "\n"
  }

  /** With the key present, the first occurrence of the key then reads back the new
      token; the first key's line is rewritten as `refresh-token.js` rewrites it, and so
      is every later one. */
  lemma BrowserEnvContentReplaces(existing: string, token: string)
    requires Contains(existing, KEY) && NoDollar(token) && NoLineTerminator(token)
    ensures var i := IndexOf(existing, KEY).value;
            var e := MatchEnd(existing, i);
            var r := BrowserEnvContent(existing, token);
            && r == existing[..i] + (KEY + token) + ReplaceAllFrom(existing, KEY + token, e)
            && FirstValue(r) == Some(token)
  {
    ReplaceAllReadBack(existing, token);
  }

  /** A second line with the key is where the two scripts part: this one rewrites it too,
      the other keeps it. */
  lemma SecondKeyLine(existing: string, token: string)
    requires Contains(existing, KEY) && NoDollar(token)
    requires IndexFrom(existing, KEY, MatchEnd(existing, IndexOf(existing, KEY).value)).Some?
    ensures var i := IndexOf(existing, KEY).value;
            var e := MatchEnd(existing, i);
            var i2 := IndexFrom(existing, KEY, e).value;
            var e2 := MatchEnd(existing, i2);
            && BrowserEnvContent(existing, token)
                 == existing[..i] + (KEY + token) + (existing[e..i2] + (KEY + token) + ReplaceAllFrom(existing, KEY + token, e2))
            && ReplaceFirst(existing, KEY + token) == existing[..i] + (KEY + token) + existing[e..]
  {
    var i := IndexOf(existing, KEY).value;
    var e := MatchEnd(existing, i);
    var i2 := IndexFrom(existing, KEY, e).value;
    var e2 := MatchEnd(existing, i2);
    SubstituteLine(token, existing[i..e], existing[..i], existing[e..]);
    SubstituteLine(token, existing[i2..e2], existing[..i2], existing[e2..]);
    ReplaceAllExtendsReplaceFirst(existing, KEY + token);
    ReplaceAllFromStep(existing, KEY + token, e, KEY + token);
  }

  /** A character `trimEnd` keeps at the end is no line terminator. */
  lemma KeptIsNoTerminator(c: char)
    requires !IsJsSpace(c)
    ensures !IsLineTerminator(c)
  {
  }

  /** As written, content without the key that ends in a newline (after something other
      than white space) loses that newline, and the new line is glued onto its last
      line: the key no longer starts a line. */
  lemma AsWrittenGluesLastLine(existing: string, token: string)
    requires !Contains(existing, KEY) && EndsWithNewline(existing) && TrimEnd(existing) != []
    ensures var t := TrimEnd(existing);
            var r := BrowserEnvContent(existing, token);
            r == t + (KEY + token) + "\n" && !StartsLine(r, |t|)
  {
    var t := TrimEnd(existing);
    var r := BrowserEnvContent(existing, token);
    assert t + "" == t;
    assert r == t + (KEY + token) + "\n";
    assert r[|t| - 1] == t[|t| - 1];
    KeptIsNoTerminator(t[|t| - 1]);
  }

  /** The smallest case: "A=1\n" becomes "A=1AUTH_BEARER_TOKEN=t\n", so `A` reads
      "1AUTH_BEARER_TOKEN=t". */
  lemma GluedLineExample()
    ensures BrowserEnvContent("A=1\n", "t") == "A=1AUTH_BEARER_TOKEN=t\n"
  {
    var s := "A=1\n";
    assert !Contains(s, KEY) by {
      assert |s| < |KEY|;
    }
    assert TrimEnd(s) == "A=1" by {
      assert s[..3] == "A=1" && IsJsSpace(s[3]);
      assert !IsJsSpace("A=1"[2]);
    }
    assert BrowserEnvContent(s, "t") == TrimEnd(s) + (KEY + "t") + "\n" by {
      AsWrittenGluesLastLine(s, "t");
    }
    GluedText();
  }

  lemma GluedText()
    ensures "A=1" + (KEY + "t") + "\n" == "A=1AUTH_BEARER_TOKEN=t\n"
  {
  }

  /** Corrected, content that was empty holds just the new line. */
  lemma CorrectedOnEmpty(token: string)
    requires NoLineTerminator(token)
    ensures var r := CorrectedEnvContent([], token);
            r == (KEY + token) + "\n" && FirstValue(r) == Some(token)
            && r == BrowserEnvContent([], token)
  {
    assert !OccursAt([], KEY, 0);
    assert CorrectedEnvContent([], token) == [] + (KEY + token) + "\n";
    ReadBack([], token, "\n");
  }

  /** Corrected, the old content is kept up to its trailing white space, the new line
      starts a line of its own and the file gives the key the new token. */
  lemma CorrectedStartsOwnLine(existing: string, token: string)
    requires !Contains(existing, KEY) && existing != [] && NoLineTerminator(token)
    ensures var t := TrimEnd(existing);
            var r := CorrectedEnvContent(existing, token);
            && r == t + ['\n'] + (KEY + token) + "\n"
            && StartsLine(r, |t| + 1) && OccursAt(r, KEY + token, |t| + 1)
            && FirstValue(r) == Some(token)
  {
    var t := TrimEnd(existing);
    var r := CorrectedEnvContent(existing, token);
    assert r == t + ['\n'] + (KEY + token) + "\n";
    assert FirstValue(r) == Some(token) && StartsLine(r, |t| + 1) by {
      PrefixHasNoKey(existing, |t|);
      AppendReadBack(t, '\n', token);
    }
    assert OccursAt(r, KEY + token, |t| + 1) by {
      assert r[|t| + 1..|t| + 1 + |KEY + token|] == KEY + token;
    }
  }

  /** The two computations differ only on content ending in a newline. */
  lemma CorrectedAgreesOffNewline(existing: string, token: string)
    requires !EndsWithNewline(existing)
    ensures CorrectedEnvContent(existing, token) == BrowserEnvContent(existing, token)
  {
  }
}
