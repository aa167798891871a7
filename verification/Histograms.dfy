/** `Histogram`: fixed buckets over a stream of nanosecond durations, with bounds in
    milliseconds. */
module Histograms {
  import opened Sorting
  import opened Wrappers

  const NANOSECONDS_PER_MILLISECOND: real := 1000000.0

  datatype HistogramError = UnsortedBounds | LengthMismatch

  /** The fields of a histogram. The last counter is the implicit +Inf bucket. */
  datatype Hist = Hist(
    bounds: seq<real>,
    counts: seq<nat>,
    count: nat,
    total: real,
    minimum: Option<real>,
    maximum: Option<real>)

  predicate AscendingBounds(bounds: seq<real>) {
    forall i, j | 0 <= i < j < |bounds| :: bounds[i] <= bounds[j]
  }

  /** The bucket of a duration. */
  function Bucket(bounds: seq<real>, v: real): (k: nat)
    ensures k <= |bounds|
  {
    BisectLeft(bounds, v / NANOSECONDS_PER_MILLISECOND)
  }

  function Empty(bounds: seq<real>): Hist {
    Hist(bounds, seq(|bounds| + 1, i => 0), 0, 0.0, None, None)
  }

  predicate Shaped(h: Hist) {
    |h.counts| == |h.bounds| + 1
  }

  function MinOf(m: Option<real>, v: real): Option<real> {
    if m.None? || v < m.value then Some(v) else m
  }

  function MaxOf(m: Option<real>, v: real): Option<real> {
    if m.None? || v > m.value then Some(v) else m
  }

  /** `observe`. */
  function Observed(h: Hist, v: real): (r: Hist)
    requires Shaped(h)
    ensures Shaped(r)
  {
    var k := Bucket(h.bounds, v);
    h.(count := h.count + 1, total := h.total + v, minimum := MinOf(h.minimum, v),
       maximum := MaxOf(h.maximum, v), counts := h.counts[k := h.counts[k] + 1])
  }

  /** The histogram after a whole stream. */
  function Fed(bounds: seq<real>, samples: seq<real>): (r: Hist)
    ensures Shaped(r) && r.bounds == bounds
  {
    if samples == [] then Empty(bounds)
    else Observed(Fed(bounds, samples[..|samples| - 1]), samples[|samples| - 1])
  }

  function Sum(xs: seq<real>): real {
    if xs == [] then 0.0 else Sum(xs[..|xs| - 1]) + xs[|xs| - 1]
  }

  /** How many samples fall into bucket `k`. */
  function InBucket(bounds: seq<real>, samples: seq<real>, k: nat): nat {
    if samples == [] then 0
    else InBucket(bounds, samples[..|samples| - 1], k)
         + if Bucket(bounds, samples[|samples| - 1]) == k then 1 else 0
  }

  /** The sum of the first `n` counters. */
  function Cumulative(counts: seq<nat>, n: nat): nat
    requires n <= |counts|
  {
    if n == 0 then 0 else Cumulative(counts, n - 1) + counts[n - 1]
  }

  /** The histogram is exactly the statistics of its stream. */
  lemma {:induction false} FedIsExact(bounds: seq<real>, samples: seq<real>)
    ensures var h := Fed(bounds, samples);
            && h.count == |samples| && h.total == Sum(samples)
            && (samples == [] ==> h.minimum == None && h.maximum == None)
            && (samples != [] ==> h.minimum == Some(Least(samples)) && h.maximum == Some(Greatest(samples)))
            && (forall k | 0 <= k <= |bounds| :: h.counts[k] == InBucket(bounds, samples, k))
            && Cumulative(h.counts, |bounds| + 1) == h.count
  {
    if samples == [] {
      Zeros(Empty(bounds).counts, |bounds| + 1);
    } else {
      var n := |samples| - 1;
      FedIsExact(bounds, samples[..n]);
      Bumped(Fed(bounds, samples[..n]).counts, Bucket(bounds, samples[n]), |bounds| + 1);
    }
  }

  lemma {:induction false} Zeros(counts: seq<nat>, n: nat)
    requires n <= |counts| && forall i | 0 <= i < |counts| :: counts[i] == 0
    ensures Cumulative(counts, n) == 0
  {
    if n > 0 { Zeros(counts, n - 1); }
  }

  /** One more observation raises the running counts from its bucket on. */
  lemma {:induction false} Bumped(counts: seq<nat>, k: nat, n: nat)
    requires k < |counts| && n <= |counts|
    ensures Cumulative(counts[k := counts[k] + 1], n) == Cumulative(counts, n) + if k < n then 1 else 0
  {
    if n > 0 { Bumped(counts, k, n - 1); }
  }

  lemma {:induction false} CumulativeMonotone(counts: seq<nat>, i: nat, j: nat)
    requires i <= j <= |counts|
    ensures Cumulative(counts, i) <= Cumulative(counts, j)
    decreases j
  {
    if i < j { CumulativeMonotone(counts, i, j - 1); }
  }

  /** `v / 1e6 <= b` without the division. */
  lemma Scale(v: real, b: real)
    ensures v / NANOSECONDS_PER_MILLISECOND <= b <==> v <= b * NANOSECONDS_PER_MILLISECOND
  {
  }

  /** The running count up to a bound is the number of durations that do not exceed it. */
  lemma {:induction false} CumulativeCounts(bounds: seq<real>, samples: seq<real>, k: nat)
    requires AscendingBounds(bounds) && k < |bounds|
    ensures Cumulative(Fed(bounds, samples).counts, k + 1)
            == CountLe(samples, bounds[k] * NANOSECONDS_PER_MILLISECOND)
  {
    if samples == [] {
      Zeros(Empty(bounds).counts, k + 1);
    } else {
      var n := |samples| - 1;
      var before := Fed(bounds, samples[..n]);
      CumulativeCounts(bounds, samples[..n], k);
      Bumped(before.counts, Bucket(bounds, samples[n]), k + 1);
      CountAppended(samples[..n], [samples[n]], bounds[k] * NANOSECONDS_PER_MILLISECOND);
      assert samples == samples[..n] + [samples[n]];
      Scale(samples[n], bounds[k]);
    }
  }

  /** The histogram object. */
  class Histogram {
    const bounds: seq<real>
    var counts: seq<nat>
    var count: nat
    var total: real
    var minimum: Option<real>
    var maximum: Option<real>

    function Model(): Hist
      reads this
    {
      Hist(bounds, counts, count, total, minimum, maximum)
    }

    /** `__post_init__`, for bounds it accepts. */
    constructor (bounds: seq<real>)
      requires AscendingBounds(bounds)
      ensures Model() == Fed(bounds, [])
    {
      this.bounds := bounds;
      counts := seq(|bounds| + 1, i => 0);
      count, total, minimum, maximum := 0, 0.0, None, None;
    }

    method Observe(value: real)
      requires Shaped(Model())
      modifies this
      ensures Model() == Observed(old(Model()), value)
    {
      count := count + 1;
      total := total + value;
      minimum := if minimum.None? then Some(value) else Some(if value < minimum.value then value else minimum.value);
      maximum := if maximum.None? then Some(value) else Some(if value > maximum.value then value else maximum.value);
      var index := BisectLeft(bounds, value / NANOSECONDS_PER_MILLISECOND);
      counts := counts[index := counts[index] + 1];
    }

    /** `cumulative_counts`. */
    method CumulativeCountsOf() returns (result: map<Option<real>, nat>)
      requires Shaped(Model())
      ensures result == Labelled(bounds, counts, |counts|)
    {
      var running := 0;
      result := map[];
      for n := 0 to |counts|
        invariant running == Cumulative(counts, n) && result == Labelled(bounds, counts, n)
      {
        running := running + counts[n];
        result := result[Label(bounds, n) := running];
      }
    }
  }

  /** The label of a bucket: its bound, or none for +Inf. */
  function Label(bounds: seq<real>, i: nat): Option<real> {
    if i < |bounds| then Some(bounds[i]) else None
  }

  /** The running counts of the first `n` buckets by label. */
  function Labelled(bounds: seq<real>, counts: seq<nat>, n: nat): map<Option<real>, nat>
    requires n <= |counts|
  {
    if n == 0 then map[] else Labelled(bounds, counts, n - 1)[Label(bounds, n - 1) := Cumulative(counts, n)]
  }

  /** Every bucket's label is there, and nothing else. */
  lemma {:induction false} LabelsAre(bounds: seq<real>, counts: seq<nat>, n: nat)
    requires n <= |counts|
    ensures Labelled(bounds, counts, n).Keys == set i | 0 <= i < n :: Label(bounds, i)
  {
    if n > 0 {
      LabelsAre(bounds, counts, n - 1);
      var before := set i | 0 <= i < n - 1 :: Label(bounds, i);
      assert (set i | 0 <= i < n :: Label(bounds, i)) == before + {Label(bounds, n - 1)};
    }
  }

  /** Equal bounds share a label, which carries the running count of the last of them. */
  lemma {:induction false} LabelledAt(bounds: seq<real>, counts: seq<nat>, n: nat, i: nat)
    requires i < n <= |counts| && forall j: nat | i < j < n :: Label(bounds, j) != Label(bounds, i)
    ensures var r := Labelled(bounds, counts, n);
            Label(bounds, i) in r && r[Label(bounds, i)] == Cumulative(counts, i + 1)
  {
    if i < n - 1 {
      LabelledAt(bounds, counts, n - 1, i);
    }
  }

  /** Sorted bounds are what `__post_init__` checks for. */
  method CheckBounds(bounds: seq<real>) returns (r: Result<seq<real>, HistogramError>)
    ensures r == if AscendingBounds(bounds) then Ok(bounds) else Err(UnsortedBounds)
  {
    var sorted := SortReals(bounds);
    SortedIsSame(bounds, sorted);
    r := if bounds == sorted then Ok(bounds) else Err(UnsortedBounds);
  }

  /** A sorted list is its own sorting. */
  lemma {:induction false} SortedIsSame(xs: seq<real>, ys: seq<real>)
    requires multiset(xs) == multiset(ys) && AscendingBounds(ys)
    ensures xs == ys <==> AscendingBounds(xs)
  {
    assert |xs| == |multiset(xs)| == |multiset(ys)| == |ys|;
    if AscendingBounds(xs) && xs != [] {
      var n := |xs| - 1;
      SameLast(xs, ys);
      SortedIsSame(xs[..n], ys[..n]);
      assert xs == xs[..n] + [xs[n]] && ys == ys[..n] + [ys[n]];
    }
  }

  lemma SameLast(xs: seq<real>, ys: seq<real>)
    requires multiset(xs) == multiset(ys) && AscendingBounds(xs) && AscendingBounds(ys)
    requires |xs| == |ys| > 0
    ensures var n := |xs| - 1; xs[n] == ys[n] && multiset(xs[..n]) == multiset(ys[..n])
  {
    var n := |xs| - 1;
    assert xs[n] == ys[n] by {
      assert xs[n] in multiset(ys) && ys[n] in multiset(xs);
      assert xs[n] in ys && ys[n] in xs;
    }
    LastOut(xs);
    LastOut(ys);
  }

  lemma LastOut(xs: seq<real>)
    requires |xs| > 0
    ensures var n := |xs| - 1; multiset(xs[..n]) == multiset(xs) - multiset{xs[n]}
  {
    var n := |xs| - 1;
    assert xs == xs[..n] + [xs[n]];
  }
}
