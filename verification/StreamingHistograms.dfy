/** `StreamingHistogram`: one bucket histogram and several quantile estimators, fed the
    same stream. */
module StreamingHistograms {
  import opened Wrappers
  import H = Histograms
  import P2 = P2Estimator

  datatype QuantileError = NotTracked | NoSamples

  /** For every non-empty stream, the estimate lies between the minimum and the maximum the
      paired histogram reports. */
  lemma EstimateWithinHistogram(bounds: seq<real>, quantile: real, samples: seq<real>)
    requires 0.0 < quantile < 1.0 && samples != []
    ensures var h, e := H.Fed(bounds, samples), P2.Value(P2.Fed(quantile, samples));
            && h.minimum.Some? && h.maximum.Some? && e.Some?
            && h.minimum.value <= e.value <= h.maximum.value
  {
    H.FedIsExact(bounds, samples);
    P2.EstimateInRange(quantile, samples);
  }

  /** The estimator has been fed exactly `samples`. */
  ghost predicate Tracks(e: P2.StreamingPercentileEstimator, samples: seq<real>)
    reads e
  {
    0.0 < e.quantile < 1.0 && e.Model() == P2.Fed(e.quantile, samples)
  }

  method Feed(e: P2.StreamingPercentileEstimator, value: real, ghost samples: seq<real>)
    requires Tracks(e, samples)
    modifies e
    ensures Tracks(e, samples + [value])
  {
    P2.FedOne(e.quantile, samples, value);
    e.Observe(value);
  }

  /** The first `i` estimators have seen `value` as well. */
  ghost predicate Halfway(es: seq<P2.StreamingPercentileEstimator>, i: nat, samples: seq<real>, value: real)
    reads es
  {
    && (forall j, k | 0 <= j < k < |es| :: es[j] != es[k])
    && (forall j | 0 <= j < |es| :: Tracks(es[j], if j < i then samples + [value] else samples))
  }

  method FeedNext(es: seq<P2.StreamingPercentileEstimator>, i: nat, value: real, ghost samples: seq<real>)
    requires i < |es| && Halfway(es, i, samples, value)
    modifies es[i]
    ensures Halfway(es, i + 1, samples, value)
  {
    Feed(es[i], value, samples);
  }

  method FeedHistogram(h: H.Histogram, value: real, ghost samples: seq<real>)
    requires h.Model() == H.Fed(h.bounds, samples)
    modifies h
    ensures h.Model() == H.Fed(h.bounds, samples + [value])
  {
    assert (samples + [value])[..|samples|] == samples;
    h.Observe(value);
  }

  class StreamingHistogram {
    const histogram: H.Histogram
    const estimators: seq<P2.StreamingPercentileEstimator>

    /** Everything has been fed exactly `samples`. */
    ghost predicate Follows(samples: seq<real>)
      reads histogram, estimators
    {
      && histogram.Model() == H.Fed(histogram.bounds, samples)
      && (forall i, j | 0 <= i < j < |estimators| :: estimators[i] != estimators[j])
      && (forall i | 0 <= i < |estimators| :: Tracks(estimators[i], samples))
    }

    constructor (bounds: seq<real>, quantiles: seq<real>)
      requires H.AscendingBounds(bounds)
      requires forall i | 0 <= i < |quantiles| :: 0.0 < quantiles[i] < 1.0
      ensures Follows([])
      ensures |estimators| == |quantiles| && forall i | 0 <= i < |quantiles| :: estimators[i].quantile == quantiles[i]
    {
      var h := new H.Histogram(bounds);
      var es: seq<P2.StreamingPercentileEstimator> := [];
      for i := 0 to |quantiles|
        invariant |es| == i && fresh(es) && h !in (set e | e in es :: e as object)
        invariant forall j, k | 0 <= j < k < i :: es[j] != es[k]
        invariant forall j | 0 <= j < i :: es[j].quantile == quantiles[j] && Tracks(es[j], [])
        invariant h.Model() == H.Fed(bounds, []) && h.bounds == bounds
      {
        var e := new P2.StreamingPercentileEstimator(quantiles[i]);
        es := es + [e];
      }
      histogram := h;
      estimators := es;
    }

    method Observe(value: real, ghost samples: seq<real>)
      requires Follows(samples)
      modifies histogram, estimators
      ensures Follows(samples + [value])
    {
      FeedHistogram(histogram, value, samples);
      for i := 0 to |estimators|
        invariant histogram.Model() == H.Fed(histogram.bounds, samples + [value])
        invariant Halfway(estimators, i, samples, value)
      {
        FeedNext(estimators, i, value, samples);
      }
    }

    /** `quantile`. */
    method Quantile(q: real, ghost samples: seq<real>) returns (r: Result<real, QuantileError>)
      requires Follows(samples)
      ensures r == if exists i :: 0 <= i < |estimators| && estimators[i].quantile == q then
                     if samples == [] then Err(NoSamples) else Ok(P2.Value(P2.Fed(q, samples)).value)
                   else Err(NotTracked)
    {
      for i := 0 to |estimators|
        invariant forall j | 0 <= j < i :: estimators[j].quantile != q
      {
        if estimators[i].quantile == q {
          assert Tracks(estimators[i], samples);
          P2.NoEstimateBeforeSamples(q, samples);
          var v := P2.Value(estimators[i].Model());
          return if v.Some? then Ok(v.value) else Err(NoSamples);
        }
      }
      return Err(NotTracked);
    }
  }
}
