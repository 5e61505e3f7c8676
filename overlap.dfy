/** The overlap controller shared by both scanners: how much of the current fetch was
    already seen in the previous one, and how the poll interval reacts to it. The
    percentage is kept as the two counts it is computed from, so the band tests are
    integer comparisons. */
module Overlap {

  const MIN_POLL_INTERVAL: int := 6000
  const MAX_POLL_INTERVAL: int := 30000
  const BASE_POLL_INTERVAL: int := 10000
  const TARGET_OVERLAP_PERCENTAGE: int := 30

  /** `Pct(shared, size)` with `size > 0` is `shared / size * 100`; `NaN` is the `0 / 0`
      the source computes for an empty current fetch after a non-empty previous one. */
  datatype OverlapPct = Pct(shared: nat, size: nat) | NaN

  /** The percentage as a real number, when it is one. */
  function PercentValue(o: OverlapPct): real
    requires o.Pct? && o.size > 0
  {
    (o.shared as real) / (o.size as real) * 100.0
  }

  /** `calculateOverlap`: 0 when there is no previous fetch, otherwise the part of the
      current ids that the previous fetch also had. */
  function CalculateOverlap(current: set<string>, previous: set<string>): (r: OverlapPct)
    ensures r.Pct? ==> r.size > 0 && r.shared <= r.size
    ensures |previous| == 0 ==> r == Pct(0, 1)
    ensures |previous| > 0 && |current| > 0 ==> r == Pct(|current * previous|, |current|)
    ensures r == NaN <==> |previous| > 0 && |current| == 0
  {
    if |previous| == 0 then Pct(0, 1)
    else if |current| == 0 then NaN
    else
      assert current == (current * previous) + (current - previous);
      assert (current * previous) !! (current - previous);
      Pct(|current * previous|, |current|)
  }

  /** `overlapPct < TARGET - 5`, that is `< 25`; false for NaN. */
  predicate BelowBand(o: OverlapPct)
  {
    o.Pct? && 4 * o.shared < o.size
  }

  /** `overlapPct > TARGET + 10`, that is `> 40`; false for NaN. */
  predicate AboveBand(o: OverlapPct)
  {
    o.Pct? && 5 * o.shared > 2 * o.size
  }

  /** Scaling by a positive number keeps the order. */
  lemma ScaleKeepsOrder(a: real, b: real, n: real)
    requires n > 0.0
    ensures a < b <==> a * n < b * n
  {
    if a < b {
      assert (b - a) * n > 0.0;
    } else {
      assert (a - b) * n >= 0.0;
    }
  }

  /** The percentage times the size is a hundred times the shared count. */
  lemma PercentTimesSize(o: OverlapPct)
    requires o.Pct? && o.size > 0
    ensures PercentValue(o) * (o.size as real) == 100.0 * (o.shared as real)
  {
    var k, n := o.shared as real, o.size as real;
    assert k / n * n == k;
    assert k / n * 100.0 * n == k / n * n * 100.0;
  }

  /** A percentage `p` of `k` out of `n` against the band limits 25 and 40. */
  lemma BandFromProduct(p: real, k: real, n: real)
    requires n > 0.0 && p * n == 100.0 * k
    ensures p < 25.0 <==> 4.0 * k < n
    ensures p > 40.0 <==> 5.0 * k > 2.0 * n
  {
    ScaleKeepsOrder(p, 25.0, n);
    ScaleKeepsOrder(40.0, p, n);
  }

  /** The integer band tests are the source's comparisons of the real percentage with
      `TARGET_OVERLAP_PERCENTAGE - 5` and `TARGET_OVERLAP_PERCENTAGE + 10`. */
  lemma BandTestsMatchPercent(o: OverlapPct)
    requires o.Pct? && o.size > 0
    ensures BelowBand(o) <==> PercentValue(o) < (TARGET_OVERLAP_PERCENTAGE - 5) as real
    ensures AboveBand(o) <==> PercentValue(o) > (TARGET_OVERLAP_PERCENTAGE + 10) as real
  {
    PercentTimesSize(o);
    BandFromProduct(PercentValue(o), o.shared as real, o.size as real);
    assert (4 * o.shared) as real == 4.0 * (o.shared as real);
    assert (5 * o.shared) as real == 5.0 * (o.shared as real);
    assert (2 * o.size) as real == 2.0 * (o.size as real);
  }

  /** Identical non-empty fetches overlap 100%; disjoint ones 0%; a first fetch 0%. */
  lemma OverlapExtremes(current: set<string>, previous: set<string>)
    ensures |previous| == 0 ==> CalculateOverlap(current, previous) == Pct(0, 1)
    ensures current == previous && |current| > 0 ==>
              CalculateOverlap(current, previous) == Pct(|current|, |current|)
              && PercentValue(CalculateOverlap(current, previous)) == 100.0
              && AboveBand(CalculateOverlap(current, previous))
    ensures current !! previous && |current| > 0 ==>
              CalculateOverlap(current, previous).shared == 0
              && BelowBand(CalculateOverlap(current, previous))
  {
    if current == previous && |current| > 0 {
      assert current * previous == current;
      var n := |current| as real;
      assert n / n == 1.0;
    }
    if current !! previous && |current| > 0 && |previous| > 0 {
      assert current * previous == {};
    }
  }

  /** `Math.round(x / 100) * 100` for an integer `x`: halves round up. */
  function RoundToHundred(x: int): (r: int)
    ensures r % 100 == 0
    ensures x - 50 < r <= x + 50
  {
    (x + 50) / 100 * 100
  }

  /** The interval before rounding: 500 ms faster below the band, 1000 ms slower above
      it, clamped to [MIN, MAX] on the side it moves to. */
  function StepInterval(interval: int, o: OverlapPct): int
  {
    if BelowBand(o) then (if interval - 500 > MIN_POLL_INTERVAL then interval - 500 else MIN_POLL_INTERVAL)
    else if AboveBand(o) then (if interval + 1000 < MAX_POLL_INTERVAL then interval + 1000 else MAX_POLL_INTERVAL)
    else interval
  }

  /** `adjustPollInterval`. */
  function AdjustPollInterval(interval: int, o: OverlapPct): int
  {
    RoundToHundred(StepInterval(interval, o))
  }

  /** The scheduler's interval invariant: inside [MIN, MAX] and a multiple of 100. */
  predicate IntervalOk(i: int)
  {
    MIN_POLL_INTERVAL <= i <= MAX_POLL_INTERVAL && i % 100 == 0
  }

  /** From an interval inside [MIN, MAX] the adjusted interval is inside the band and a
      multiple of 100; it only moves down below the band and up above it, by at most
      one step, and stays put inside the band (and on NaN) once on the 100 ms grid. */
  lemma AdjustKeepsBand(interval: int, o: OverlapPct)
    requires MIN_POLL_INTERVAL <= interval <= MAX_POLL_INTERVAL
    ensures IntervalOk(AdjustPollInterval(interval, o))
    ensures interval % 100 == 0 ==>
              (BelowBand(o) ==> AdjustPollInterval(interval, o) == if interval - 500 > MIN_POLL_INTERVAL then interval - 500 else MIN_POLL_INTERVAL)
              && (AboveBand(o) ==> AdjustPollInterval(interval, o) == if interval + 1000 < MAX_POLL_INTERVAL then interval + 1000 else MAX_POLL_INTERVAL)
              && (!BelowBand(o) && !AboveBand(o) ==> AdjustPollInterval(interval, o) == interval)
  {
    var x := StepInterval(interval, o);
    assert MIN_POLL_INTERVAL <= x <= MAX_POLL_INTERVAL;
    RoundOnGrid(x);
  }

  /** An interval already on the 100 ms grid is its own rounding, and rounding keeps
      [MIN, MAX]. */
  lemma RoundOnGrid(x: int)
    ensures x % 100 == 0 ==> RoundToHundred(x) == x
    ensures MIN_POLL_INTERVAL <= x <= MAX_POLL_INTERVAL ==>
              MIN_POLL_INTERVAL <= RoundToHundred(x) <= MAX_POLL_INTERVAL
  {
  }

  /** The back-off applied from the third consecutive error: double, capped at MAX. */
  function Backoff(interval: int): int
  {
    if interval * 2 < MAX_POLL_INTERVAL then interval * 2 else MAX_POLL_INTERVAL
  }

  /** Backing off keeps the interval invariant and never shortens the interval. */
  lemma BackoffKeepsBand(interval: int)
    requires IntervalOk(interval)
    ensures IntervalOk(Backoff(interval))
    ensures Backoff(interval) >= interval
    ensures interval * 2 <= MAX_POLL_INTERVAL ==> Backoff(interval) == 2 * interval
  {
  }
}
