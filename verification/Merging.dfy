/** `merge_performance_summaries`: many workers' summaries as one. */
module Merging {
  import opened Sorting
  import opened Histograms
  import opened Percentiles
  import opened Wrappers

  /** A metric's name with its tags; equal tag dictionaries give equal keys. */
  datatype Key = Key(name: string, tags: map<string, string>)

  const HOST_LEVEL_GAUGES: set<string> := {"cpu_logical_count"}

  // ---------------------------------------------------------------- histograms

  function AddCounts(a: seq<nat>, b: seq<nat>): seq<nat>
    requires |a| == |b|
  {
    seq(|a|, i requires 0 <= i < |a| => a[i] + b[i])
  }

  /** Equal bounds come with equally many counters; `zip(strict=True)` fails otherwise. */
  predicate Compatible(a: Hist, b: Hist) {
    a.bounds == b.bounds ==> |a.counts| == |b.counts|
  }

  /** One more worker's histogram for a key already seen: the first bucket layout wins. */
  function Combine(a: Hist, b: Hist): (r: Hist)
    requires Compatible(a, b)
    ensures r.bounds == a.bounds && |r.counts| == |a.counts|
  {
    if a.bounds != b.bounds then a
    else
      a.(counts := AddCounts(a.counts, b.counts), count := a.count + b.count, total := a.total + b.total,
         minimum := if b.minimum.Some? then MinOf(a.minimum, b.minimum.value) else a.minimum,
         maximum := if b.maximum.Some? then MaxOf(a.maximum, b.maximum.value) else a.maximum)
  }

  /** Every histogram can be merged into the first. */
  predicate Alike(hs: seq<Hist>) {
    forall i | 0 <= i < |hs| :: Compatible(hs[0], hs[i])
  }

  /** All workers' histograms of one key, in the order they come. */
  function CombineAll(hs: seq<Hist>): (r: Hist)
    requires hs != [] && Alike(hs)
    ensures r.bounds == hs[0].bounds && |r.counts| == |hs[0].counts|
  {
    var n := |hs| - 1;
    if n == 0 then hs[0] else Combine(CombineAll(hs[..n]), hs[n])
  }

  /** Observing commutes with combining. */
  lemma CombineObserved(a: Hist, b: Hist, v: real)
    requires Histograms.Shaped(a) && Histograms.Shaped(b) && a.bounds == b.bounds
    ensures Combine(a, Histograms.Observed(b, v)) == Histograms.Observed(Combine(a, b), v)
  {
  }

  /** Two streams' histograms combine into the histogram of the streams together. */
  lemma {:induction false} CombineFed(bounds: seq<real>, xs: seq<real>, ys: seq<real>)
    ensures Combine(Histograms.Fed(bounds, xs), Histograms.Fed(bounds, ys)) == Histograms.Fed(bounds, xs + ys)
  {
    if ys == [] {
      assert xs + ys == xs;
      var a, b := Histograms.Fed(bounds, xs), Empty(bounds);
      assert AddCounts(a.counts, b.counts) == a.counts;
    } else {
      var n := |ys| - 1;
      CombineFed(bounds, xs, ys[..n]);
      CombineObserved(Histograms.Fed(bounds, xs), Histograms.Fed(bounds, ys[..n]), ys[n]);
      JoinedLast(xs, ys);
      FedOne(bounds, xs + ys[..n], ys[n]);
    }
  }

  lemma ObservedCommutes(h: Hist, x: real, y: real)
    requires Histograms.Shaped(h)
    ensures Histograms.Observed(Histograms.Observed(h, x), y) == Histograms.Observed(Histograms.Observed(h, y), x)
  {
  }

  lemma FedOne(bounds: seq<real>, xs: seq<real>, x: real)
    ensures Histograms.Fed(bounds, xs + [x]) == Histograms.Observed(Histograms.Fed(bounds, xs), x)
  {
  }

  lemma Regrouped<T>(a: seq<T>, b: seq<T>, c: seq<T>)
    requires c != []
    ensures a + b + c == a + b + c[..|c| - 1] + [c[|c| - 1]]
  {
  }

  lemma JoinedLast<T>(a: seq<T>, b: seq<T>)
    requires b != []
    ensures a + b == a + b[..|b| - 1] + [b[|b| - 1]]
  {
  }

  /** A sample can be observed later. */
  lemma {:induction false} Delayed(bounds: seq<real>, pre: seq<real>, x: real, post: seq<real>)
    ensures Histograms.Fed(bounds, pre + [x] + post) == Histograms.Observed(Histograms.Fed(bounds, pre + post), x)
  {
    assert pre + [] == pre;
    if post == [] {
      assert pre + [x] + post == pre + [x];
      FedOne(bounds, pre, x);
    } else {
      var n := |post| - 1;
      Delayed(bounds, pre, x, post[..n]);
      Regrouped(pre, [x], post);
      Regrouped(pre, [], post);
      FedOne(bounds, pre + [x] + post[..n], post[n]);
      FedOne(bounds, pre + post[..n], post[n]);
      ObservedCommutes(Histograms.Fed(bounds, pre + post[..n]), x, post[n]);
    }
  }

  /** A histogram does not see the order of its samples. */
  lemma {:induction false} FedPermuted(bounds: seq<real>, xs: seq<real>, ys: seq<real>)
    requires multiset(xs) == multiset(ys)
    ensures Histograms.Fed(bounds, xs) == Histograms.Fed(bounds, ys)
  {
    if xs == [] {
      assert |ys| == |multiset(ys)|;
    } else {
      var pre, post := SameRest(xs, ys);
      FedPermuted(bounds, xs[1..], pre + post);
      Delayed(bounds, pre, xs[0], post);
      FirstDelayed(bounds, xs);
    }
  }

  lemma FirstDelayed(bounds: seq<real>, xs: seq<real>)
    requires xs != []
    ensures Histograms.Fed(bounds, xs) == Histograms.Observed(Histograms.Fed(bounds, xs[1..]), xs[0])
  {
    Delayed(bounds, [], xs[0], xs[1..]);
    assert [] + [xs[0]] + xs[1..] == xs && [] + xs[1..] == xs[1..];
  }

  /** The streams of all workers, one after the other. */
  function Concat(streams: seq<seq<real>>): seq<real> {
    if streams == [] then [] else Concat(streams[..|streams| - 1]) + streams[|streams| - 1]
  }

  function FedEach(bounds: seq<real>, streams: seq<seq<real>>): (hs: seq<Hist>)
    ensures |hs| == |streams| && Alike(hs)
    ensures forall i | 0 <= i < |hs| :: hs[i] == Histograms.Fed(bounds, streams[i])
  {
    seq(|streams|, i requires 0 <= i < |streams| => Histograms.Fed(bounds, streams[i]))
  }

  lemma FedEachButLast(bounds: seq<real>, streams: seq<seq<real>>)
    requires streams != []
    ensures var n := |streams| - 1;
            FedEach(bounds, streams)[..n] == FedEach(bounds, streams[..n])
  {
    var n := |streams| - 1;
    var hs, rest := FedEach(bounds, streams), FedEach(bounds, streams[..n]);
    assert forall i | 0 <= i < n :: hs[..n][i] == rest[i];
  }

  lemma {:induction false} CombineAllFed(bounds: seq<real>, streams: seq<seq<real>>)
    requires streams != []
    ensures CombineAll(FedEach(bounds, streams)) == Histograms.Fed(bounds, Concat(streams))
  {
    var n := |streams| - 1;
    if n == 0 {
      assert Concat(streams[..0]) == [];
      assert Concat(streams) == [] + streams[0] == streams[0];
    } else {
      CombineAllFed(bounds, streams[..n]);
      OneMoreStream(bounds, streams);
    }
  }

  lemma OneMoreStream(bounds: seq<real>, streams: seq<seq<real>>)
    requires |streams| > 1
    requires var init := streams[..|streams| - 1];
             CombineAll(FedEach(bounds, init)) == Histograms.Fed(bounds, Concat(init))
    ensures CombineAll(FedEach(bounds, streams)) == Histograms.Fed(bounds, Concat(streams))
  {
    var n := |streams| - 1;
    var hs, fed := FedEach(bounds, streams[..n]), Histograms.Fed(bounds, streams[n]);
    assert FedEach(bounds, streams) == hs + [fed] by { FedEachButLast(bounds, streams); }
    OneMoreWorker(bounds, hs, Concat(streams[..n]), streams[n]);
  }

  lemma OneMoreWorker(bounds: seq<real>, hs: seq<Hist>, xs: seq<real>, ys: seq<real>)
    requires hs != [] && Alike(hs + [Histograms.Fed(bounds, ys)])
    requires Alike(hs) && CombineAll(hs) == Histograms.Fed(bounds, xs)
    ensures CombineAll(hs + [Histograms.Fed(bounds, ys)]) == Histograms.Fed(bounds, xs + ys)
  {
    CombineAllMore(hs, Histograms.Fed(bounds, ys));
    CombineFed(bounds, xs, ys);
  }

  /** What the merge reports for a histogram, in nanoseconds. */
  datatype Report = Report(
    count: nat, sum: real, mean: Option<real>, minimum: Option<real>, maximum: Option<real>,
    quantiles: seq<Option<real>>)

  function InNanoseconds(ms: Option<real>): Option<real> {
    if ms.Some? then Some(ms.value * NANOSECONDS_PER_MILLISECOND) else None
  }

  const QUANTILES: seq<real> := [0.5, 0.9, 0.95, 0.99]

  function ReportOf(h: Hist): Report
    requires Histograms.Shaped(h)
  {
    Report(h.count, h.total, if h.count > 0 then Some(h.total / h.count as real) else None, h.minimum, h.maximum,
           seq(|QUANTILES|, i requires 0 <= i < |QUANTILES| =>
             InNanoseconds(Quantile(h.bounds, h.counts, QUANTILES[i]))))
  }

  /** Merging is a homomorphism: however one stream of samples is split over workers with
      the same bounds, and in whatever order the snapshots arrive, the merged histogram and
      all it reports are those of one histogram fed the whole stream in any order. */
  lemma MergeIsHomomorphic(bounds: seq<real>, streams: seq<seq<real>>, all: seq<real>)
    requires streams != [] && multiset(all) == multiset(Concat(streams))
    ensures CombineAll(FedEach(bounds, streams)) == Histograms.Fed(bounds, all)
    ensures ReportOf(CombineAll(FedEach(bounds, streams))) == ReportOf(Histograms.Fed(bounds, all))
  {
    CombineAllFed(bounds, streams);
    FedPermuted(bounds, Concat(streams), all);
  }

  /** What the merge reports is right about the whole stream: its number, sum, mean and
      extremes, and as each quantile, in nanoseconds, where the interpolated running counts
      of the stream reach that share of it. */
  lemma ReportIsExact(bounds: seq<real>, streams: seq<seq<real>>)
    requires streams != []
    ensures Reports(bounds, Concat(streams), ReportOf(CombineAll(FedEach(bounds, streams))))
  {
    CombineAllFed(bounds, streams);
    if Concat(streams) == [] {
      NothingReported(bounds);
    } else {
      FedReported(bounds, Concat(streams));
    }
  }

  ghost predicate Reports(bounds: seq<real>, all: seq<real>, r: Report) {
    && r.count == |all| && r.sum == Sum(all) && |r.quantiles| == 4
    && if all == [] then
         && r.mean == None && r.minimum == None && r.maximum == None
         && forall i | 0 <= i < 4 :: r.quantiles[i] == None
       else
         && r.mean.Some? && IsMean(r.mean.value, r.sum, |all|)
         && r.minimum == Some(Least(all)) && r.maximum == Some(Greatest(all))
         && ReportsAll(bounds, all, r.quantiles)
  }

  ghost predicate ReportsAll(bounds: seq<real>, all: seq<real>, figures: seq<Option<real>>) {
    && |figures| == 4
    && ReportsQuantile(bounds, all, 0.5, figures[0]) && ReportsQuantile(bounds, all, 0.9, figures[1])
    && ReportsQuantile(bounds, all, 0.95, figures[2]) && ReportsQuantile(bounds, all, 0.99, figures[3])
  }

  predicate IsMean(mean: real, total: real, count: nat) {
    mean * count as real == total
  }

  lemma NothingReported(bounds: seq<real>)
    ensures Reports(bounds, [], ReportOf(Histograms.Fed(bounds, [])))
  {
    FedIsExact(bounds, []);
  }

  lemma FedReported(bounds: seq<real>, all: seq<real>)
    requires all != []
    ensures Reports(bounds, all, ReportOf(Histograms.Fed(bounds, all)))
  {
    FedIsExact(bounds, all);
    var r := ReportOf(Histograms.Fed(bounds, all));
    assert IsMean(r.mean.value, r.sum, |all|) by { MeanIs(r.sum, |all|); }
    assert ReportsAll(bounds, all, r.quantiles) by { QuantilesReported(bounds, all, r.quantiles); }
  }

  lemma QuantilesReported(bounds: seq<real>, all: seq<real>, figures: seq<Option<real>>)
    requires all != [] && |figures| == |QUANTILES|
    requires forall i | 0 <= i < |figures| ::
               figures[i] == InNanoseconds(Quantile(bounds, Histograms.Fed(bounds, all).counts, QUANTILES[i]))
    ensures ReportsAll(bounds, all, figures)
  {
    QuantileReported(bounds, all, 0.5);
    QuantileReported(bounds, all, 0.9);
    QuantileReported(bounds, all, 0.95);
    QuantileReported(bounds, all, 0.99);
  }

  lemma MeanIs(total: real, count: nat)
    requires count > 0
    ensures IsMean(total / count as real, total, count)
  {
  }

  /** The figure, in milliseconds, is where the running counts of the samples reach the share. */
  ghost predicate ReportsQuantile(bounds: seq<real>, samples: seq<real>, q: real, figure: Option<real>) {
    && figure.Some?
    && IsEstimate(bounds, Histograms.Fed(bounds, samples).counts, Target(q, |samples|), figure.value / 1000000.0)
  }

  lemma QuantileReported(bounds: seq<real>, samples: seq<real>, q: real)
    requires samples != [] && 0.0 < q
    ensures var counts := Histograms.Fed(bounds, samples).counts;
            ReportsQuantile(bounds, samples, q, InNanoseconds(Quantile(bounds, counts, q)))
  {
    FedIsExact(bounds, samples);
    var counts := Histograms.Fed(bounds, samples).counts;
    EstimateReachesTarget(bounds, counts, q);
    var e := Quantile(bounds, counts, q).value;
    assert e * NANOSECONDS_PER_MILLISECOND / 1000000.0 == e;
  }

  // ---------------------------------------------------------------- mixed layouts

  /** Each worker with its own bounds. */
  function FedWith(layouts: seq<seq<real>>, streams: seq<seq<real>>): (hs: seq<Hist>)
    requires |layouts| == |streams|
    ensures |hs| == |streams| && forall i | 0 <= i < |hs| :: hs[i] == Histograms.Fed(layouts[i], streams[i])
  {
    seq(|streams|, i requires 0 <= i < |streams| => Histograms.Fed(layouts[i], streams[i]))
  }

  /** The samples of the workers whose layout is `bounds`, one after the other. */
  function SamplesOf(bounds: seq<real>, layouts: seq<seq<real>>, streams: seq<seq<real>>): seq<real>
    requires |layouts| == |streams|
  {
    if streams == [] then []
    else
      var n := |streams| - 1;
      SamplesOf(bounds, layouts[..n], streams[..n]) + if layouts[n] == bounds then streams[n] else []
  }

  /** Whatever the layouts, the merge is the histogram of the samples of exactly those workers
      that share the first one's. */
  lemma {:induction false} FirstLayoutWins(layouts: seq<seq<real>>, streams: seq<seq<real>>)
    requires |layouts| == |streams| > 0
    ensures Alike(FedWith(layouts, streams))
    ensures CombineAll(FedWith(layouts, streams)) == Histograms.Fed(layouts[0], SamplesOf(layouts[0], layouts, streams))
  {
    var n := |streams| - 1;
    if n == 0 {
      assert SamplesOf(layouts[0], layouts[..0], streams[..0]) == [];
      assert [] + streams[0] == streams[0];
    } else {
      FirstLayoutWins(layouts[..n], streams[..n]);
      var before := FedWith(layouts[..n], streams[..n]);
      assert FedWith(layouts, streams) == before + [Histograms.Fed(layouts[n], streams[n])];
      OneMoreLayout(layouts[0], before, SamplesOf(layouts[0], layouts[..n], streams[..n]), layouts[n], streams[n]);
    }
  }

  lemma OneMoreLayout(bounds: seq<real>, hs: seq<Hist>, some: seq<real>, layout: seq<real>, stream: seq<real>)
    requires hs != [] && Alike(hs) && hs[0].bounds == bounds && |hs[0].counts| == |bounds| + 1
    requires CombineAll(hs) == Histograms.Fed(bounds, some)
    ensures Alike(hs + [Histograms.Fed(layout, stream)])
    ensures CombineAll(hs + [Histograms.Fed(layout, stream)])
            == Histograms.Fed(bounds, some + if layout == bounds then stream else [])
  {
    var last := Histograms.Fed(layout, stream);
    assert forall i | 0 <= i < |hs| + 1 :: Compatible((hs + [last])[0], (hs + [last])[i]);
    CombineAllMore(hs, last);
    if layout == bounds {
      CombineFed(bounds, some, stream);
    } else {
      assert some + [] == some;
    }
  }

  /** Snapshots in another order carry the same samples. */
  lemma {:induction false} ConcatPermuted(streams: seq<seq<real>>, others: seq<seq<real>>)
    requires multiset(streams) == multiset(others)
    ensures multiset(Concat(streams)) == multiset(Concat(others))
  {
    if streams == [] {
      assert |others| == |multiset(others)|;
    } else {
      var pre, post := SameRest(streams, others);
      ConcatPermuted(streams[1..], pre + post);
      ConcatSplit(pre, streams[0], post);
      ConcatSplit([], streams[0], streams[1..]);
      assert [] + [streams[0]] + streams[1..] == streams && [] + streams[1..] == streams[1..];
    }
  }

  lemma {:induction false} ConcatSplit(pre: seq<seq<real>>, x: seq<real>, post: seq<seq<real>>)
    ensures multiset(Concat(pre + [x] + post)) == multiset(Concat(pre + post)) + multiset(x)
  {
    if post == [] {
      assert pre + [x] + post == pre + [x] && pre + post == pre && (pre + [x])[..|pre|] == pre;
    } else {
      var n := |post| - 1;
      ConcatSplit(pre, x, post[..n]);
      assert (pre + [x] + post)[..|pre + [x] + post| - 1] == pre + [x] + post[..n];
      assert (pre + post)[..|pre + post| - 1] == pre + post[..n];
    }
  }

  lemma OrderOfSnapshotsDoesNotMatter(bounds: seq<real>, streams: seq<seq<real>>, others: seq<seq<real>>)
    requires streams != [] && multiset(streams) == multiset(others)
    ensures others != [] && CombineAll(FedEach(bounds, streams)) == CombineAll(FedEach(bounds, others))
  {
    assert |others| == |multiset(others)| == |streams|;
    ConcatPermuted(streams, others);
    MergeIsHomomorphic(bounds, streams, Concat(others));
    CombineAllFed(bounds, others);
  }

  /** Whatever the order, any histogram can be merged into any other. */
  predicate AllCompatible(hs: seq<Hist>) {
    forall i, j | 0 <= i < |hs| && 0 <= j < |hs| :: Compatible(hs[i], hs[j])
  }

  predicate SameBounds(hs: seq<Hist>) {
    forall i, j | 0 <= i < |hs| && 0 <= j < |hs| :: hs[i].bounds == hs[j].bounds
  }

  /** With equal bounds, combining commutes and associates. */
  lemma CombineCommutes(a: Hist, b: Hist)
    requires a.bounds == b.bounds && |a.counts| == |b.counts|
    ensures Combine(a, b) == Combine(b, a)
  {
    assert Combine(a, b).counts == Combine(b, a).counts;
  }

  lemma CombineSwaps(a: Hist, b: Hist, c: Hist)
    requires a.bounds == b.bounds == c.bounds && |a.counts| == |b.counts| == |c.counts|
    ensures Combine(Combine(a, b), c) == Combine(Combine(a, c), b)
  {
    assert Combine(Combine(a, b), c).counts == Combine(Combine(a, c), b).counts;
  }

  /** All have these bounds and this many counters. */
  predicate Uniform(hs: seq<Hist>, bounds: seq<real>, n: nat) {
    forall h | h in hs :: h.bounds == bounds && |h.counts| == n
  }

  lemma UniformAlike(hs: seq<Hist>, bounds: seq<real>, n: nat)
    requires Uniform(hs, bounds, n)
    ensures Alike(hs) && (hs != [] ==> CombineAll(hs).bounds == bounds && |CombineAll(hs).counts| == n)
  {
  }

  lemma CombineOne(hs: seq<Hist>, y: Hist)
    requires hs != [] && Alike(hs + [y]) && Alike(hs)
    ensures Compatible(CombineAll(hs), y) && CombineAll(hs + [y]) == Combine(CombineAll(hs), y)
  {
    assert (hs + [y])[0] == hs[0] && (hs + [y])[|hs|] == y && (hs + [y])[..|hs|] == hs;
  }

  /** With equal bounds, one histogram can be combined last. */
  lemma {:induction false} CombinedLast(pre: seq<Hist>, x: Hist, post: seq<Hist>, bounds: seq<real>, n: nat)
    requires pre + post != [] && Uniform(pre + [x] + post, bounds, n)
    ensures Uniform(pre + post, bounds, n) && x.bounds == bounds && |x.counts| == n
    ensures Alike(pre + post) && Alike(pre + [x] + post) && Compatible(CombineAll(pre + post), x)
    ensures CombineAll(pre + [x] + post) == Combine(CombineAll(pre + post), x)
    decreases |post|, 0
  {
    UniformAlike(pre + [x] + post, bounds, n);
    assert x in pre + [x] + post;
    assert Uniform(pre + post, bounds, n);
    UniformAlike(pre + post, bounds, n);
    if post == [] {
      assert pre + [x] + post == pre + [x] && pre + post == pre;
      CombineOne(pre, x);
    } else {
      var i, y := |post| - 1, post[|post| - 1];
      Regrouped(pre, [x], post);
      assert pre + post == pre + post[..i] + [y];
      assert y in post;
      LastStep(pre, x, post[..i], y, bounds, n);
    }
  }

  lemma LastStep(pre: seq<Hist>, x: Hist, post: seq<Hist>, y: Hist, bounds: seq<real>, n: nat)
    requires Uniform(pre + [x] + post + [y], bounds, n) && Uniform(pre + post + [y], bounds, n)
    ensures Alike(pre + post + [y]) && Alike(pre + [x] + post + [y]) && Compatible(CombineAll(pre + post + [y]), x)
    ensures CombineAll(pre + [x] + post + [y]) == Combine(CombineAll(pre + post + [y]), x)
    decreases |post|, 1
  {
    var more, rest := pre + [x] + post, pre + post;
    assert x in more + [y] && y in more + [y];
    assert Uniform(more, bounds, n) && Uniform(rest, bounds, n);
    UniformAlike(more, bounds, n);
    UniformAlike(rest, bounds, n);
    UniformAlike(more + [y], bounds, n);
    UniformAlike(rest + [y], bounds, n);
    CombineOne(more, y);
    if rest == [] {
      assert more == [x] && rest + [y] == [y];
      CombineCommutes(x, y);
    } else {
      CombineOne(rest, y);
      CombinedLast(pre, x, post, bounds, n);
      CombineSwaps(CombineAll(rest), x, y);
    }
  }

  lemma FirstLast(hs: seq<Hist>, bounds: seq<real>, n: nat)
    requires |hs| > 1 && Uniform(hs, bounds, n)
    ensures Alike(hs) && Alike(hs[1..]) && Compatible(CombineAll(hs[1..]), hs[0])
    ensures CombineAll(hs) == Combine(CombineAll(hs[1..]), hs[0])
  {
    var pre: seq<Hist> := [];
    assert pre + [hs[0]] + hs[1..] == hs && pre + hs[1..] == hs[1..];
    CombinedLast(pre, hs[0], hs[1..], bounds, n);
  }

  lemma UniformPermuted(hs: seq<Hist>, ps: seq<Hist>, bounds: seq<real>, n: nat)
    requires multiset(ps) == multiset(hs) && Uniform(hs, bounds, n)
    ensures |ps| == |hs| && Uniform(ps, bounds, n) && Alike(hs) && Alike(ps)
  {
    assert |ps| == |multiset(ps)|;
    assert forall h :: h in ps ==> h in multiset(ps);
    UniformAlike(hs, bounds, n);
    UniformAlike(ps, bounds, n);
  }

  /** With equal bounds, the order of the workers makes no difference. */
  lemma {:induction false} CombinePermuted(hs: seq<Hist>, ps: seq<Hist>, bounds: seq<real>, n: nat)
    requires hs != [] && multiset(ps) == multiset(hs) && Uniform(hs, bounds, n)
    ensures ps != [] && Alike(hs) && Alike(ps) && CombineAll(ps) == CombineAll(hs)
    decreases |hs|
  {
    UniformPermuted(hs, ps, bounds, n);
    var pre, post := SameRest(hs, ps);
    var rest := hs[1..];
    if rest == [] {
      assert ps == [ps[0]] && ps[0] in multiset(hs);
    } else {
      assert |pre + post| == |multiset(rest)| > 0;
      assert Uniform(rest, bounds, n);
      CombinePermuted(rest, pre + post, bounds, n);
      CombinedLast(pre, hs[0], post, bounds, n);
      FirstLast(hs, bounds, n);
    }
  }

  /** The order of the workers makes no difference if and only if all their bucket layouts
      agree: any other list has a permutation that merges to something else. */
  lemma OrderMattersExactlyWhen(hs: seq<Hist>)
    requires hs != [] && AllCompatible(hs)
    ensures SameBounds(hs) <==> forall ps | multiset(ps) == multiset(hs) :: Same(ps, hs)
  {
    if SameBounds(hs) {
      forall ps | multiset(ps) == multiset(hs) ensures Same(ps, hs) {
        CombinePermuted(hs, ps, hs[0].bounds, |hs[0].counts|);
      }
    } else {
      var k :| 0 <= k < |hs| && hs[k].bounds != hs[0].bounds;
      OtherFirst(hs, k);
    }
  }

  /** A worker with another layout, moved to the front, imposes it. */
  lemma OtherFirst(hs: seq<Hist>, k: nat)
    requires k < |hs| && Alike(hs) && hs[k].bounds != hs[0].bounds
    ensures exists ps :: multiset(ps) == multiset(hs) && !Same(ps, hs)
  {
    var ps := [hs[k]] + hs[..k] + hs[k + 1..];
    assert hs == hs[..k] + [hs[k]] + hs[k + 1..];
    assert multiset(ps) == multiset(hs);
    assert ps[0] == hs[k];
    assert !Same(ps, hs);
  }

  ghost predicate Same(ps: seq<Hist>, hs: seq<Hist>)
    requires hs != [] && Alike(hs)
  {
    ps != [] && Alike(ps) && CombineAll(ps) == CombineAll(hs)
  }

  /** Two workers, one with a bound of one millisecond and one with none. */
  lemma MixedLayoutsDisagree()
    ensures var a, b := Histograms.Fed([1.0], [5.0]), Histograms.Fed([], [7.0]);
            CombineAll([a, b]).total == 5.0 && CombineAll([b, a]).total == 7.0
  {
    var a, b := Histograms.Fed([1.0], [5.0]), Histograms.Fed([], [7.0]);
    assert [5.0][..0] == [] && [7.0][..0] == [];
    assert a.total == 5.0 && b.total == 7.0;
    assert [a, b][..1] == [a] && [b, a][..1] == [b];
  }

  /** The fleet-wide quantile lies in the bucket of the exact order statistic of all
      workers' samples together, and is off by no more than its width; it is the last bound if
      that sample overflows. */
  lemma FleetQuantileInExactBucket(bounds: seq<real>, streams: seq<seq<real>>, q: real, v: real)
    requires AscendingBounds(bounds) && streams != [] && 0.0 < q <= 1.0
    requires Concat(streams) != [] && NonNegative(Concat(streams))
    requires IsRanked(Concat(streams), Ceil(Target(q, |Concat(streams)|)), v)
    ensures var e, k, ms := Quantile(bounds, CombineAll(FedEach(bounds, streams)).counts, q), Bucket(bounds, v),
                            v / NANOSECONDS_PER_MILLISECOND;
            && e.Some?
            && (k < |bounds| ==>
                  && BisectLeft(bounds, e.value) == k
                  && -(bounds[k] - Lower(bounds, k)) <= e.value - ms <= bounds[k] - Lower(bounds, k))
            && (k == |bounds| > 0 ==> e.value == bounds[|bounds| - 1] < ms)
  {
    CombineAllFed(bounds, streams);
    SameBucketAsExact(bounds, Concat(streams), q, v);
  }

  // ---------------------------------------------------------------- the keyed tables

  /** The values recorded under key `k`, in order. */
  function Select<T>(entries: seq<(Key, T)>, k: Key): seq<T> {
    if entries == [] then []
    else
      var n := |entries| - 1;
      Select(entries[..n], k) + if entries[n].0 == k then [entries[n].1] else []
  }

  /** All snapshots' entries in the order the loops visit them. */
  function Flatten<T>(snapshots: seq<seq<T>>): seq<T> {
    if snapshots == [] then [] else Flatten(snapshots[..|snapshots| - 1]) + snapshots[|snapshots| - 1]
  }

  lemma SelectMore<T>(entries: seq<(Key, T)>, e: (Key, T), k: Key)
    ensures Select(entries + [e], k) == if e.0 == k then Select(entries, k) + [e.1] else Select(entries, k)
  {
  }

  /** No two entries of one key have equal bounds and different numbers of counters. */
  ghost predicate Mergeable(entries: seq<(Key, Hist)>) {
    forall k :: Alike(Select(entries, k))
  }

  /** The `histograms` dictionary: under each key, all workers' entries combined in order. */
  ghost predicate IsHistogramTable(table: map<Key, Hist>, entries: seq<(Key, Hist)>) {
    && Mergeable(entries)
    && (forall k :: k in table <==> Select(entries, k) != [])
    && (forall k | k in table :: table[k] == CombineAll(Select(entries, k)))
  }

  /** One turn of the inner loop: it fails exactly when the entry cannot be merged. */
  lemma OneMoreHistogram(table: map<Key, Hist>, entries: seq<(Key, Hist)>, e: (Key, Hist))
    requires IsHistogramTable(table, entries)
    ensures Mergeable(entries + [e]) <==> (e.0 in table ==> Compatible(table[e.0], e.1))
    ensures Mergeable(entries + [e]) ==>
              IsHistogramTable(table[e.0 := if e.0 in table then Combine(table[e.0], e.1) else e.1], entries + [e])
  {
    forall k ensures Alike(Select(entries + [e], k)) <==> (k == e.0 && k in table ==> Compatible(table[k], e.1)) {
      SelectMore(entries, e, k);
      AlikeMore(Select(entries, k), e.1);
    }
    if Mergeable(entries + [e]) {
      assert Alike(Select(entries + [e], e.0));
      var more := table[e.0 := if e.0 in table then Combine(table[e.0], e.1) else e.1];
      forall k ensures (k in more <==> Select(entries + [e], k) != [])
                       && (k in more ==> more[k] == CombineAll(Select(entries + [e], k)))
      {
        SelectMore(entries, e, k);
        if k == e.0 { CombineAllMore(Select(entries, k), e.1); }
      }
    }
  }

  lemma AlikeMore(hs: seq<Hist>, h: Hist)
    requires Alike(hs)
    ensures Alike(hs + [h]) <==> (hs != [] ==> Compatible(CombineAll(hs), h))
  {
    var more := hs + [h];
    if hs != [] {
      assert more[0] == hs[0] && more[|hs|] == h;
      assert forall i | 0 <= i < |hs| :: more[i] == hs[i];
    }
  }

  lemma CombineAllMore(hs: seq<Hist>, h: Hist)
    requires Alike(hs + [h])
    ensures hs != [] ==> Alike(hs) && Compatible(CombineAll(hs), h)
    ensures CombineAll(hs + [h]) == if hs == [] then h else Combine(CombineAll(hs), h)
  {
    var more := hs + [h];
    assert more[..|hs|] == hs && more[|hs|] == h;
    if hs != [] {
      assert forall i | 0 <= i < |hs| :: Compatible(hs[0], hs[i]) by {
        assert forall i | 0 <= i < |hs| :: Compatible(more[0], more[i]) && more[i] == hs[i];
      }
      AlikeMore(hs, h);
    }
  }

  /** What cannot be merged in a prefix cannot be merged in the whole. */
  lemma {:induction false} SelectGrows<T>(part: seq<(Key, T)>, all: seq<(Key, T)>, k: Key)
    requires part <= all
    ensures Select(part, k) <= Select(all, k)
    decreases |all|
  {
    if |part| < |all| {
      assert part <= all[..|all| - 1];
      SelectGrows(part, all[..|all| - 1], k);
    } else {
      assert part == all;
    }
  }

  lemma MergeableShrinks(part: seq<(Key, Hist)>, all: seq<(Key, Hist)>)
    requires part <= all && Mergeable(all)
    ensures Mergeable(part)
  {
    forall k ensures Alike(Select(part, k)) {
      SelectGrows(part, all, k);
      var hs, more := Select(part, k), Select(all, k);
      assert Alike(more);
      assert forall i | 0 <= i < |hs| :: hs[i] == more[i];
    }
  }

  /** The loop over the snapshots' histograms. It fails exactly when two entries of one key
      agree on their bounds but not on the number of counters. */
  method MergeHistograms(snapshots: seq<seq<(Key, Hist)>>) returns (r: Result<map<Key, Hist>, HistogramError>)
    ensures r.Ok? <==> Mergeable(Flatten(snapshots))
    ensures r.Ok? ==> IsHistogramTable(r.value, Flatten(snapshots))
    ensures r.Err? ==> r.error == LengthMismatch
  {
    var histograms := map[];
    for i := 0 to |snapshots|
      invariant IsHistogramTable(histograms, Flatten(snapshots[..i]))
    {
      FlattenOne(snapshots, i);
      var added := AddHistograms(histograms, snapshots[i], Flatten(snapshots[..i]));
      if added.Err? {
        FlattenStep(snapshots, i + 1);
        if Mergeable(Flatten(snapshots)) { MergeableShrinks(Flatten(snapshots[..i + 1]), Flatten(snapshots)); }
        return added;
      }
      histograms := added.value;
    }
    assert snapshots[..|snapshots|] == snapshots;
    return Ok(histograms);
  }

  method AddHistograms(before: map<Key, Hist>, snapshot: seq<(Key, Hist)>, ghost seen: seq<(Key, Hist)>)
    returns (r: Result<map<Key, Hist>, HistogramError>)
    requires IsHistogramTable(before, seen)
    ensures r.Ok? ==> IsHistogramTable(r.value, seen + snapshot)
    ensures r.Err? ==> r.error == LengthMismatch && !Mergeable(seen + snapshot)
  {
    var histograms := before;
    ghost var done := seen;
    for j := 0 to |snapshot|
      invariant done == seen + snapshot[..j] && IsHistogramTable(histograms, done)
    {
      var (key, hist) := snapshot[j];
      OneMoreHistogram(histograms, done, snapshot[j]);
      Extended(seen, snapshot, j);
      if key !in histograms {
        histograms := histograms[key := hist];
      } else if !Compatible(histograms[key], hist) {
        if Mergeable(seen + snapshot) { MergeableShrinks(done + [snapshot[j]], seen + snapshot); }
        return Err(LengthMismatch);
      } else {
        histograms := histograms[key := Combine(histograms[key], hist)];
      }
      done := done + [snapshot[j]];
    }
    assert snapshot[..|snapshot|] == snapshot;
    return Ok(histograms);
  }

  /** Flattening one snapshot more. */
  lemma FlattenOne<T>(snapshots: seq<seq<T>>, i: nat)
    requires i < |snapshots|
    ensures Flatten(snapshots[..i + 1]) == Flatten(snapshots[..i]) + snapshots[i]
  {
    assert snapshots[..i + 1][..i] == snapshots[..i];
  }

  /** And where that sits in the whole. */
  lemma {:induction false} FlattenStep<T>(snapshots: seq<seq<T>>, i: nat)
    requires i <= |snapshots|
    ensures Flatten(snapshots[..i]) <= Flatten(snapshots)
    decreases |snapshots| - i
  {
    if i < |snapshots| {
      FlattenOne(snapshots, i);
      FlattenStep(snapshots, i + 1);
    } else {
      assert snapshots[..i] == snapshots;
    }
  }

  /** How two values of one counter or gauge combine. */
  function Accumulate(takeMax: bool, a: real, b: real): real {
    if takeMax then (if b > a then b else a) else a + b
  }

  /** What a list of values of one counter or gauge comes to: their sum, or for a fact about
      the shared host their maximum. */
  function Total(takeMax: bool, values: seq<real>): real
    requires values != []
  {
    if takeMax then Greatest(values) else Sum(values)
  }

  predicate IsHostLevel(k: Key) {
    k.name in HOST_LEVEL_GAUGES
  }

  ghost predicate IsValueTable(table: map<Key, real>, entries: seq<(Key, real)>, gauges: bool) {
    && (forall k :: k in table <==> Select(entries, k) != [])
    && (forall k | k in table :: table[k] == Total(gauges && IsHostLevel(k), Select(entries, k)))
  }

  lemma OneMoreValue(table: map<Key, real>, entries: seq<(Key, real)>, e: (Key, real), gauges: bool)
    requires IsValueTable(table, entries, gauges)
    ensures IsValueTable(
              table[e.0 := if e.0 in table then Accumulate(gauges && IsHostLevel(e.0), table[e.0], e.1) else e.1],
              entries + [e], gauges)
  {
    var top := gauges && IsHostLevel(e.0);
    var more := table[e.0 := if e.0 in table then Accumulate(top, table[e.0], e.1) else e.1];
    forall k ensures (k in more <==> Select(entries + [e], k) != [])
                     && (k in more ==> more[k] == Total(gauges && IsHostLevel(k), Select(entries + [e], k)))
    {
      SelectMore(entries, e, k);
      if k == e.0 { TotalMore(top, Select(entries, k), e.1); }
    }
  }

  lemma TotalMore(takeMax: bool, xs: seq<real>, x: real)
    ensures Total(takeMax, xs + [x]) == if xs == [] then x else Accumulate(takeMax, Total(takeMax, xs), x)
  {
    var more := xs + [x];
    assert more[..|xs|] == xs && more[|xs|] == x;
    assert Sum([]) == 0.0;
  }

  /** The `counters` dictionary (`gauges` false) or the `gauges` one. */
  method MergeValues(snapshots: seq<seq<(Key, real)>>, gauges: bool) returns (table: map<Key, real>)
    ensures IsValueTable(table, Flatten(snapshots), gauges)
  {
    table := map[];
    for i := 0 to |snapshots|
      invariant IsValueTable(table, Flatten(snapshots[..i]), gauges)
    {
      FlattenOne(snapshots, i);
      table := AddSnapshot(table, snapshots[i], gauges, Flatten(snapshots[..i]));
    }
    assert snapshots[..|snapshots|] == snapshots;
  }

  lemma Extended<T>(xs: seq<T>, ys: seq<T>, j: nat)
    requires j < |ys|
    ensures xs + ys[..j] + [ys[j]] == xs + ys[..j + 1]
  {
  }

  method AddValue(before: map<Key, real>, key: Key, value: real, gauges: bool) returns (table: map<Key, real>)
    ensures var top := gauges && IsHostLevel(key);
            table == before[key := if key in before then Accumulate(top, before[key], value) else value]
  {
    if key !in before {
      return before[key := value];
    } else if gauges && key.name in HOST_LEVEL_GAUGES {
      return before[key := if value > before[key] then value else before[key]];
    }
    return before[key := before[key] + value];
  }

  method AddSnapshot(before: map<Key, real>, snapshot: seq<(Key, real)>, gauges: bool, ghost seen: seq<(Key, real)>)
    returns (table: map<Key, real>)
    requires IsValueTable(before, seen, gauges)
    ensures IsValueTable(table, seen + snapshot, gauges)
  {
    table := before;
    ghost var done := seen;
    for j := 0 to |snapshot|
      invariant done == seen + snapshot[..j] && IsValueTable(table, done, gauges)
    {
      var (key, value) := snapshot[j];
      OneMoreValue(table, done, snapshot[j], gauges);
      Extended(seen, snapshot, j);
      done := done + [snapshot[j]];
      table := AddValue(table, key, value, gauges);
    }
    assert snapshot[..|snapshot|] == snapshot;
  }
}
