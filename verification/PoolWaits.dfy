/** The pools' wait histogram. It is fed waits in milliseconds, and `Histogram` takes what it
    is fed for nanoseconds. */
module PoolWaits {
  import opened Histograms
  import opened Sorting

  /** The bucket a wait belongs to, by the bounds in milliseconds. */
  function RightBucket(bounds: seq<real>, waitMs: real): nat {
    BisectLeft(bounds, waitMs)
  }

  /** A wait is counted in the bucket it belongs to exactly when no bound lies between it and a
      millionth of it. */
  lemma WaitInRightBucketExactlyWhen(bounds: seq<real>, waitMs: real)
    requires AscendingBounds(bounds) && waitMs >= 0.0
    ensures Bucket(bounds, waitMs) == RightBucket(bounds, waitMs)
            <==> forall i | 0 <= i < |bounds| :: !(waitMs / NANOSECONDS_PER_MILLISECOND <= bounds[i] < waitMs)
  {
    var small := waitMs / NANOSECONDS_PER_MILLISECOND;
    assert small <= waitMs;
    var k, right := BisectLeft(bounds, small), BisectLeft(bounds, waitMs);
    if k < right {
      assert small <= bounds[k] < waitMs;
    }
  }

  /** If no bound is a million times another: exactly when it is within the first bound, or a
      millionth of it is beyond the last. */
  lemma RightOnlyBeyondTheBounds(bounds: seq<real>, waitMs: real)
    requires AscendingBounds(bounds) && bounds != [] && waitMs >= 0.0
    requires bounds[|bounds| - 1] < bounds[0] * NANOSECONDS_PER_MILLISECOND
    ensures Bucket(bounds, waitMs) == RightBucket(bounds, waitMs)
            <==> waitMs <= bounds[0] || waitMs > bounds[|bounds| - 1] * NANOSECONDS_PER_MILLISECOND
  {
    WaitInRightBucketExactlyWhen(bounds, waitMs);
    var last := |bounds| - 1;
    if bounds[0] < waitMs <= bounds[last] * NANOSECONDS_PER_MILLISECOND {
      var i := if waitMs / NANOSECONDS_PER_MILLISECOND <= bounds[0] then 0 else last;
      assert waitMs / NANOSECONDS_PER_MILLISECOND <= bounds[i] < waitMs;
    }
  }

  /** The bounds the pools use, in milliseconds. */
  const DEFAULT_BOUNDS: seq<real> :=
    [0.5, 1.0, 2.0, 5.0, 10.0, 25.0, 50.0, 100.0, 250.0, 500.0, 1000.0, 2500.0, 5000.0, 10000.0]

  lemma DefaultBoundsAscend()
    ensures AscendingBounds(DEFAULT_BOUNDS) && |DEFAULT_BOUNDS| == 14
    ensures DEFAULT_BOUNDS[0] == 0.5 && DEFAULT_BOUNDS[9] == 500.0 && DEFAULT_BOUNDS[10] == 1000.0
    ensures DEFAULT_BOUNDS[13] == 10000.0
  {
  }

  /** With the pools' bounds a wait is counted where it belongs exactly when it took at most
      half a millisecond, or more than ten million seconds. */
  lemma DefaultBoundsRightExactlyWhen(bounds: seq<real>, waitMs: real)
    requires bounds == DEFAULT_BOUNDS && waitMs >= 0.0
    ensures Bucket(bounds, waitMs) == RightBucket(bounds, waitMs) <==> waitMs <= 0.5 || waitMs > 10000000000.0
  {
    DefaultBoundsAscend();
    RightOnlyBeyondTheBounds(bounds, waitMs);
  }

  /** A wait of a second is counted as at most half a millisecond. */
  lemma WaitInWrongBucket(bounds: seq<real>)
    requires bounds == DEFAULT_BOUNDS
    ensures Bucket(bounds, 1000.0) == 0 && RightBucket(bounds, 1000.0) == 10
  {
    DefaultBoundsAscend();
    LandsAt(bounds, 1000.0 / NANOSECONDS_PER_MILLISECOND, 0);
    LandsAt(bounds, 1000.0, 10);
  }

  lemma LandsAt(bounds: seq<real>, v: real, k: nat)
    requires AscendingBounds(bounds) && k < |bounds| && v <= bounds[k] && (k > 0 ==> bounds[k - 1] < v)
    ensures BisectLeft(bounds, v) == k
  {
  }
}
