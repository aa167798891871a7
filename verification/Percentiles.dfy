/** `percentile_from_buckets`: an interpolated quantile from bucket counts. */
module Percentiles {
  import opened Sorting
  import opened Histograms
  import opened Wrappers

  function Ceil(x: real): (n: int)
    ensures (n - 1) as real < x <= n as real
  {
    -((-x).Floor)
  }

  /** The lower end of bucket `k`. */
  function Lower(bounds: seq<real>, k: nat): real
    requires k <= |bounds|
  {
    if k == 0 then 0.0 else bounds[k - 1]
  }

  /** The first bucket whose running count reaches the target rank, or the +Inf bucket. */
  function Hit(counts: seq<nat>, target: real, i: nat): (k: nat)
    requires i < |counts|
    requires forall j | 1 <= j <= i :: (Cumulative(counts, j) as real) < target
    ensures i <= k < |counts|
    ensures forall j | 1 <= j <= k :: (Cumulative(counts, j) as real) < target
    ensures k < |counts| - 1 ==> Cumulative(counts, k + 1) as real >= target
    decreases |counts| - i
  {
    if i == |counts| - 1 || Cumulative(counts, i + 1) as real >= target then i else Hit(counts, target, i + 1)
  }

  /** The estimate once the bucket is known: interpolated in a finite bucket, the last
      finite bound in the +Inf bucket. */
  function EstimateIn(bounds: seq<real>, counts: seq<nat>, target: real, k: nat): real
    requires |counts| == |bounds| + 1 && k < |counts|
  {
    if k == |bounds| then Lower(bounds, k)
    else if counts[k] == 0 then bounds[k]
    else
      Interpolate(Lower(bounds, k), bounds[k], target - Cumulative(counts, k) as real, counts[k] as real)
  }

  /** The point `over / count` of the way from `lower` to `upper`. */
  function Interpolate(lower: real, upper: real, over: real, count: real): real
    requires count > 0.0
  {
    lower + over / count * (upper - lower)
  }

  /** The target rank. */
  function Target(q: real, total: nat): real {
    q * total as real
  }

  /** It is the share of the total the quantile asks for: as much of it as `q` is of one. */
  lemma TargetIsShare(q: real, total: nat)
    requires total > 0
    ensures Target(q, total) / total as real == q
  {
    Undone(q, total as real);
  }

  lemma Undone(q: real, n: real)
    requires n != 0.0
    ensures q * n / n == q
  {
  }

  lemma TargetIn(q: real, total: nat)
    requires 0.0 < q && total > 0
    ensures 0.0 < Target(q, total) && (q <= 1.0 ==> Target(q, total) <= total as real)
  {
    assert q <= 1.0 ==> (1.0 - q) * total as real >= 0.0;
  }

  lemma TargetMonotone(p: real, q: real, total: nat)
    requires p <= q
    ensures Target(p, total) <= Target(q, total)
  {
    assert (q - p) * total as real >= 0.0;
  }

  /** The estimate for a target rank. */
  function EstimateAt(bounds: seq<real>, counts: seq<nat>, target: real): real
    requires |counts| == |bounds| + 1
  {
    EstimateIn(bounds, counts, target, Hit(counts, target, 0))
  }

  /** The quantile of well-shaped counts. */
  function Quantile(bounds: seq<real>, counts: seq<nat>, q: real): Option<real>
    requires |counts| == |bounds| + 1
  {
    var total := Cumulative(counts, |counts|);
    if total == 0 then None else Some(EstimateAt(bounds, counts, Target(q, total)))
  }

  /** `sum(bucket_counts)`. */
  method Total(counts: seq<nat>) returns (total: nat)
    ensures total == Cumulative(counts, |counts|)
  {
    total := 0;
    for i := 0 to |counts|
      invariant total == Cumulative(counts, i)
    {
      total := total + counts[i];
    }
  }

  /** Mismatched lengths are an error only when the walk gets past the shorter of the two. */
  method PercentileFromBuckets(bounds: seq<real>, counts: seq<nat>, quantile: real)
    returns (r: Result<Option<real>, HistogramError>)
    ensures Cumulative(counts, |counts|) == 0 ==> r == Ok(None)
    ensures |counts| == |bounds| + 1 ==> r == Ok(Quantile(bounds, counts, quantile))
    ensures r.Err? ==> r.error == LengthMismatch && |counts| != |bounds| + 1
    ensures Cumulative(counts, |counts|) != 0 && |counts| != |bounds| + 1 ==>
              (r.Err? <==> NeverReached(bounds, counts, Target(quantile, Cumulative(counts, |counts|))))
  {
    var total := Total(counts);
    if total == 0 {
      return Ok(None);
    }
    var walked := Walk(bounds, counts, Target(quantile, total));
    match walked
    case Ok(estimate) => return Ok(Some(estimate));
    case Err(e) => return Err(e);
  }

  /** No running count up to the shorter of the two lists reaches the target. */
  ghost predicate NeverReached(bounds: seq<real>, counts: seq<nat>, target: real) {
    forall i | 1 <= i <= |bounds| && i < |counts| :: (Cumulative(counts, i) as real) < target
  }

  /** The loop over `zip(bounds, counts[:-1], strict=True)`. */
  method Walk(bounds: seq<real>, counts: seq<nat>, targetRank: real) returns (r: Result<real, HistogramError>)
    requires counts != []
    ensures |counts| == |bounds| + 1 ==> r == Ok(EstimateAt(bounds, counts, targetRank))
    ensures r.Err? ==> r.error == LengthMismatch && |counts| != |bounds| + 1
    ensures |counts| != |bounds| + 1 ==> (r.Err? <==> NeverReached(bounds, counts, targetRank))
  {
    var running := 0;
    var lowerBound := 0.0;
    var i := 0;
    while i < |bounds| && i < |counts| - 1
      invariant i <= |bounds| && i < |counts|
      invariant running == Cumulative(counts, i) && lowerBound == Lower(bounds, i)
      invariant forall j | 1 <= j <= i :: (Cumulative(counts, j) as real) < targetRank
      invariant Hit(counts, targetRank, 0) == Hit(counts, targetRank, i)
    {
      var bound, count := bounds[i], counts[i];
      HitOrOn(counts, targetRank, i);
      if running as real + count as real >= targetRank {
        if count == 0 {
          return Ok(bound);
        }
        return Ok(Interpolate(lowerBound, bound, targetRank - running as real, count as real));
      }
      running := running + count;
      lowerBound := bound;
      i := i + 1;
    }
    if i < |bounds| || i < |counts| - 1 {
      return Err(LengthMismatch);
    }
    return Ok(if |bounds| > 0 then bounds[|bounds| - 1] else lowerBound);
  }

  /** The walk stops at a bucket, or goes on to the next. */
  lemma HitOrOn(counts: seq<nat>, target: real, i: nat)
    requires i < |counts| - 1 && forall j | 1 <= j <= i :: (Cumulative(counts, j) as real) < target
    ensures Cumulative(counts, i + 1) == Cumulative(counts, i) + counts[i]
    ensures Cumulative(counts, i + 1) as real >= target ==> Hit(counts, target, i) == i
    ensures (Cumulative(counts, i + 1) as real) < target ==> Hit(counts, target, i) == Hit(counts, target, i + 1)
  {
  }

  // ---------------------------------------------------------------- the error bound

  lemma CeilIsLeast(x: real, n: int)
    ensures n >= Ceil(x) <==> n as real >= x
  {
  }

  lemma NotBeyond(bounds: seq<real>, samples: seq<real>, target: real, v: real, k: nat)
    requires AscendingBounds(bounds) && target > 0.0 && IsRanked(samples, Ceil(target), v) && k < |bounds|
    requires Cumulative(Fed(bounds, samples).counts, k + 1) as real >= target
    ensures v / NANOSECONDS_PER_MILLISECOND <= bounds[k]
  {
    var b := bounds[k] * NANOSECONDS_PER_MILLISECOND;
    CumulativeCounts(bounds, samples, k);
    CeilIsLeast(target, Cumulative(Fed(bounds, samples).counts, k + 1));
    if b < v { CountMonotone(samples, b, v); }
    Scale(v, bounds[k]);
  }

  lemma NotBefore(bounds: seq<real>, samples: seq<real>, target: real, v: real, k: nat)
    requires AscendingBounds(bounds) && target > 0.0 && IsRanked(samples, Ceil(target), v) && 0 < k <= |bounds|
    requires (Cumulative(Fed(bounds, samples).counts, k) as real) < target
    ensures bounds[k - 1] < v / NANOSECONDS_PER_MILLISECOND
  {
    var b := bounds[k - 1] * NANOSECONDS_PER_MILLISECOND;
    CumulativeCounts(bounds, samples, k - 1);
    CeilIsLeast(target, Cumulative(Fed(bounds, samples).counts, k));
    if v < b {
      CountMonotone(samples, v, b);
      CountMonotone(samples, b, b + 1.0);
    }
    Scale(v, bounds[k - 1]);
  }

  /** The bucket the walk stops in is the bucket of the exact order statistic. */
  lemma HitsTheRank(bounds: seq<real>, samples: seq<real>, target: real, v: real)
    requires AscendingBounds(bounds) && target > 0.0 && IsRanked(samples, Ceil(target), v)
    ensures Hit(Fed(bounds, samples).counts, target, 0) == Bucket(bounds, v)
  {
    var counts, r := Fed(bounds, samples).counts, Ceil(target);
    var k := Hit(counts, target, 0);
    if k < |bounds| { NotBeyond(bounds, samples, target, v, k); }
    if k > 0 { NotBefore(bounds, samples, target, v, k); }
    BucketIs(bounds, v, k);
  }

  lemma BucketIs(bounds: seq<real>, v: real, k: nat)
    requires AscendingBounds(bounds) && k <= |bounds|
    requires k < |bounds| ==> v / NANOSECONDS_PER_MILLISECOND <= bounds[k]
    requires k > 0 ==> bounds[k - 1] < v / NANOSECONDS_PER_MILLISECOND
    ensures Bucket(bounds, v) == k
  {
  }

  /** What interpolation gives in a finite bucket that holds the target. */
  lemma InterpolatesInside(bounds: seq<real>, counts: seq<nat>, target: real, k: nat)
    requires |counts| == |bounds| + 1 && k < |bounds| && counts[k] > 0
    requires (Cumulative(counts, k) as real) < target <= Cumulative(counts, k + 1) as real
    requires Lower(bounds, k) <= bounds[k]
    ensures var e := EstimateIn(bounds, counts, target, k);
            && Lower(bounds, k) <= e <= bounds[k]
            && (Lower(bounds, k) < bounds[k] ==> Lower(bounds, k) < e)
            && (Lower(bounds, k) < bounds[k] ==> (e == bounds[k] <==> target == Cumulative(counts, k + 1) as real))
  {
    assert Cumulative(counts, k + 1) == Cumulative(counts, k) + counts[k];
    Between(Lower(bounds, k), bounds[k], target - Cumulative(counts, k) as real, counts[k] as real);
  }

  lemma Between(lower: real, upper: real, over: real, count: real)
    requires 0.0 < over <= count && lower <= upper
    ensures var e := Interpolate(lower, upper, over, count);
            && lower <= e <= upper
            && (lower < upper ==> lower < e && (e == upper <==> over == count))
  {
    var f, width := over / count, upper - lower;
    assert f * count == over;
    assert (f - 1.0) * count == over - count;
    assert 0.0 < f <= 1.0;
    assert (f - 1.0) * width <= 0.0;
    assert f * width == (f - 1.0) * width + width;
  }

  predicate NonNegative(samples: seq<real>) {
    forall x | x in samples :: x >= 0.0
  }

  /** The error bound. For durations, whatever the sorted bounds: the estimate lies in the
      bucket of the exact ceil(q * N)-th smallest sample, so it is off by no more than that
      bucket's width, and it is the last bound if that sample overflows. */
  lemma SameBucketAsExact(bounds: seq<real>, samples: seq<real>, q: real, v: real)
    requires AscendingBounds(bounds) && NonNegative(samples) && 0.0 < q <= 1.0 && samples != []
    requires IsRanked(samples, Ceil(Target(q, |samples|)), v)
    ensures var e, k, ms := Quantile(bounds, Fed(bounds, samples).counts, q), Bucket(bounds, v),
                            v / NANOSECONDS_PER_MILLISECOND;
            && e.Some?
            && (k < |bounds| ==>
                  && BisectLeft(bounds, e.value) == k
                  && -(bounds[k] - Lower(bounds, k)) <= e.value - ms <= bounds[k] - Lower(bounds, k))
            && (k == |bounds| > 0 ==> e.value == bounds[|bounds| - 1] < ms)
  {
    FedIsExact(bounds, samples);
    TargetIn(q, |samples|);
    SameBucketAt(bounds, samples, Target(q, |samples|), v);
  }

  lemma SameBucketAt(bounds: seq<real>, samples: seq<real>, target: real, v: real)
    requires AscendingBounds(bounds) && NonNegative(samples) && target > 0.0
    requires IsRanked(samples, Ceil(target), v)
    ensures var e, k, ms := EstimateAt(bounds, Fed(bounds, samples).counts, target), Bucket(bounds, v),
                            v / NANOSECONDS_PER_MILLISECOND;
            && (k < |bounds| ==>
                  && BisectLeft(bounds, e) == k
                  && -(bounds[k] - Lower(bounds, k)) <= e - ms <= bounds[k] - Lower(bounds, k))
            && (k == |bounds| > 0 ==> e == bounds[|bounds| - 1] < ms)
  {
    var counts := Fed(bounds, samples).counts;
    HitsTheRank(bounds, samples, target, v);
    var k := Hit(counts, target, 0);
    if k < |bounds| {
      FirstCount(counts, target, k);
      assert v in samples;
      InterpolatesInside(bounds, counts, target, k);
      Bisects(bounds, EstimateIn(bounds, counts, target, k), k);
    }
  }

  /** The bucket the walk stops in is not empty. */
  lemma FirstCount(counts: seq<nat>, target: real, k: nat)
    requires target > 0.0 && k < |counts| - 1 && k == Hit(counts, target, 0)
    ensures counts[k] > 0
    ensures (Cumulative(counts, k) as real) < target <= Cumulative(counts, k + 1) as real
  {
  }

  lemma Bisects(bounds: seq<real>, e: real, k: nat)
    requires AscendingBounds(bounds) && k < |bounds| && e <= bounds[k] && (k > 0 ==> bounds[k - 1] < e)
    ensures BisectLeft(bounds, e) == k
  {
  }

  /** `e` is where the running counts, drawn as a line through each bucket, reach the target:
      as far into the bucket as the target is into its count. */
  ghost predicate Reaches(bounds: seq<real>, counts: seq<nat>, target: real, e: real) {
    exists k :: ReachesIn(bounds, counts, target, e, k)
  }

  predicate ReachesIn(bounds: seq<real>, counts: seq<nat>, target: real, e: real, k: int) {
    && 0 <= k < |bounds| && |counts| == |bounds| + 1
    && (Cumulative(counts, k) as real) < target <= Cumulative(counts, k + 1) as real
    && var lower := if k == 0 then 0.0 else bounds[k - 1];
       (e - lower) * counts[k] as real == (target - Cumulative(counts, k) as real) * (bounds[k] - lower)
  }

  /** For any counts whatever, the estimate is where the interpolated running counts reach the
      share `q` of the total, as long as the finite buckets reach it; else the last bound. */
  lemma EstimateReachesTarget(bounds: seq<real>, counts: seq<nat>, q: real)
    requires |counts| == |bounds| + 1 && 0.0 < q && Cumulative(counts, |counts|) > 0
    ensures var e := Quantile(bounds, counts, q);
            e.Some? && IsEstimate(bounds, counts, Target(q, Cumulative(counts, |counts|)), e.value)
  {
    TargetIn(q, Cumulative(counts, |counts|));
    ReachesAt(bounds, counts, Target(q, Cumulative(counts, |counts|)));
  }

  ghost predicate IsEstimate(bounds: seq<real>, counts: seq<nat>, target: real, e: real) {
    && |counts| == |bounds| + 1
    && if target <= Cumulative(counts, |bounds|) as real then Reaches(bounds, counts, target, e)
       else e == if bounds == [] then 0.0 else bounds[|bounds| - 1]
  }

  lemma ReachesAt(bounds: seq<real>, counts: seq<nat>, target: real)
    requires |counts| == |bounds| + 1 && target > 0.0
    ensures IsEstimate(bounds, counts, target, EstimateAt(bounds, counts, target))
  {
    var k := Hit(counts, target, 0);
    if k < |bounds| {
      FirstCount(counts, target, k);
      CumulativeMonotone(counts, k + 1, |bounds|);
      ReachesInside(bounds, counts, target, k);
    }
  }

  lemma ReachesInside(bounds: seq<real>, counts: seq<nat>, target: real, k: nat)
    requires |counts| == |bounds| + 1 && k < |bounds| && counts[k] > 0
    requires (Cumulative(counts, k) as real) < target <= Cumulative(counts, k + 1) as real
    ensures ReachesIn(bounds, counts, target, EstimateIn(bounds, counts, target, k), k)
  {
    Share(Lower(bounds, k), bounds[k], target - Cumulative(counts, k) as real, counts[k] as real);
  }

  lemma Share(lower: real, upper: real, over: real, count: real)
    requires count > 0.0
    ensures (Interpolate(lower, upper, over, count) - lower) * count == over * (upper - lower)
  {
    var f := over / count;
    assert f * count == over;
    assert f * (upper - lower) * count == (f * count) * (upper - lower);
  }

  /** The exact sample exists, for every quantile of a non-empty stream. */
  lemma ExactExists(samples: seq<real>, q: real) returns (v: real)
    requires samples != [] && 0.0 < q <= 1.0
    ensures IsRanked(samples, Ceil(Target(q, |samples|)), v)
  {
    TargetIn(q, |samples|);
    v := RankExists(samples, Target(q, |samples|));
  }

  lemma RankExists(samples: seq<real>, target: real) returns (v: real)
    requires 0.0 < target <= |samples| as real
    ensures IsRanked(samples, Ceil(target), v)
  {
    CeilIsLeast(target, |samples|);
    SortRanks(samples, Ceil(target));
    v := SortReals(samples)[Ceil(target) - 1];
  }

  /** Exactly when the result is the last bound: the target rank lies beyond the finite
      buckets, or it is the very last sample of the last finite one. */
  lemma LastBoundExactlyWhen(bounds: seq<real>, counts: seq<nat>, q: real)
    requires |counts| == |bounds| + 1 && |bounds| > 0 && bounds[0] > 0.0
    requires forall i, j | 0 <= i < j < |bounds| :: bounds[i] < bounds[j]
    requires 0.0 < q && Cumulative(counts, |counts|) > 0
    ensures var n, target, finite := |bounds|, Target(q, Cumulative(counts, |counts|)),
                                     Cumulative(counts, |bounds|) as real;
            Quantile(bounds, counts, q) == Some(bounds[n - 1])
            <==> target > finite || (target == finite && counts[n - 1] > 0)
  {
    TargetIn(q, Cumulative(counts, |counts|));
    LastBoundAt(bounds, counts, Target(q, Cumulative(counts, |counts|)));
  }

  lemma LastBoundAt(bounds: seq<real>, counts: seq<nat>, target: real)
    requires |counts| == |bounds| + 1 && |bounds| > 0 && bounds[0] > 0.0 && target > 0.0
    requires forall i, j | 0 <= i < j < |bounds| :: bounds[i] < bounds[j]
    ensures var n, finite := |bounds|, Cumulative(counts, |bounds|) as real;
            EstimateAt(bounds, counts, target) == bounds[n - 1]
            <==> target > finite || (target == finite && counts[n - 1] > 0)
  {
    var n := |bounds|;
    var k := Hit(counts, target, 0);
    if k < n {
      FirstCount(counts, target, k);
      InterpolatesInside(bounds, counts, target, k);
      CumulativeMonotone(counts, k + 1, n);
      if k < n - 1 {
        CumulativeMonotone(counts, k + 1, n - 1);
      }
    }
  }

  /** The result can be the last bound although no sample overflows. */
  lemma LastBoundWithoutOverflow()
    ensures var samples := [500000.0];
            && Quantile([1.0], Fed([1.0], samples).counts, 1.0) == Some(1.0)
            && Bucket([1.0], samples[0]) == 0
  {
    var h := Observed(Empty([1.0]), 500000.0);
    assert [500000.0][..0] == [];
    assert Fed([1.0], [500000.0]) == h;
    assert h.counts == [1, 0];
    assert Cumulative([1, 0], 1) == 1 && Cumulative([1, 0], 2) == 1;
    Between(0.0, 1.0, 1.0, 1.0);
  }

  /** A larger quantile never gives a smaller estimate, for any counts whatever. */
  lemma MonotoneInQ(bounds: seq<real>, counts: seq<nat>, p: real, q: real)
    requires |counts| == |bounds| + 1 && AscendingBounds(bounds) && 0.0 < p <= q
    requires |bounds| > 0 && counts[0] > 0 ==> bounds[0] >= 0.0
    ensures Quantile(bounds, counts, p).Some? <==> Quantile(bounds, counts, q).Some?
    ensures Quantile(bounds, counts, p).Some? ==>
              Quantile(bounds, counts, p).value <= Quantile(bounds, counts, q).value
  {
    var total := Cumulative(counts, |counts|);
    if total > 0 {
      TargetIn(p, total);
      TargetMonotone(p, q, total);
      MonotoneInTarget(bounds, counts, Target(p, total), Target(q, total));
    }
  }

  lemma MonotoneInTarget(bounds: seq<real>, counts: seq<nat>, s: real, t: real)
    requires |counts| == |bounds| + 1 && AscendingBounds(bounds) && 0.0 < s <= t
    requires |bounds| > 0 && counts[0] > 0 ==> bounds[0] >= 0.0
    ensures EstimateAt(bounds, counts, s) <= EstimateAt(bounds, counts, t)
  {
    var j, k := Hit(counts, s, 0), Hit(counts, t, 0);
    HitMonotone(counts, s, t, 0);
    if j < k {
      LaterBucket(bounds, counts, s, t, j, k);
    } else if j < |bounds| {
      FirstCount(counts, s, j);
      Steeper(Lower(bounds, j), bounds[j], s - Cumulative(counts, j) as real, t - Cumulative(counts, j) as real,
              counts[j] as real);
    }
  }

  lemma LaterBucket(bounds: seq<real>, counts: seq<nat>, s: real, t: real, j: nat, k: nat)
    requires |counts| == |bounds| + 1 && AscendingBounds(bounds) && 0.0 < s <= t
    requires |bounds| > 0 && counts[0] > 0 ==> bounds[0] >= 0.0
    requires j == Hit(counts, s, 0) < k == Hit(counts, t, 0)
    ensures EstimateIn(bounds, counts, s, j) <= EstimateIn(bounds, counts, t, k)
  {
    FirstCount(counts, s, j);
    InterpolatesInside(bounds, counts, s, j);
    if k < |bounds| {
      FirstCount(counts, t, k);
      InterpolatesInside(bounds, counts, t, k);
    }
  }

  lemma {:induction false} HitMonotone(counts: seq<nat>, s: real, t: real, i: nat)
    requires i < |counts| && s <= t
    requires forall j | 1 <= j <= i :: (Cumulative(counts, j) as real) < s
    ensures Hit(counts, s, i) <= Hit(counts, t, i)
    decreases |counts| - i
  {
  }

  lemma Steeper(lower: real, upper: real, over: real, further: real, count: real)
    requires count > 0.0 && lower <= upper && over <= further
    ensures Interpolate(lower, upper, over, count) <= Interpolate(lower, upper, further, count)
  {
    var f, g, width := over / count, further / count, upper - lower;
    assert f * count == over && g * count == further;
    assert (g - f) * count >= 0.0;
    assert f <= g;
    assert (g - f) * width >= 0.0;
  }
}
