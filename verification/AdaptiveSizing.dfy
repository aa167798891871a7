/** `AdaptiveSizer`: the pool's target size, moved by contention. */
module AdaptiveSizing {
  /** Consecutive quiet observations needed before giving a slot back. */
  const COOLDOWN_CHECKS: nat := 5

  /** A recent average wait above this many milliseconds is pressure. */
  const WAIT_PRESSURE_THRESHOLD_MS: real := 5.0

  /** The fields of the sizer. */
  datatype Sizer = Sizer(lo: nat, hi: nat, current: nat, idleStreak: nat)

  function NewSizer(lo: nat, hi: nat): Sizer {
    Sizer(lo, hi, lo, 0)
  }

  /** `adjust`: `pressure` is "somebody waits, or recent acquires waited too long". */
  function Adjust(z: Sizer, pressure: bool): Sizer {
    if pressure then
      z.(idleStreak := 0, current := if z.current < z.hi then z.current + 1 else z.current)
    else if z.idleStreak + 1 >= COOLDOWN_CHECKS && z.current > z.lo then
      z.(idleStreak := 0, current := z.current - 1)
    else
      z.(idleStreak := z.idleStreak + 1)
  }

  /** Warm-up: `current = max(current, min(target, max))`, the streak untouched. */
  function Raise(z: Sizer, target: nat): Sizer {
    var t := if target < z.hi then target else z.hi;
    if t > z.current then z.(current := t) else z
  }

  /** What moves the size: an observation, or a warm-up. */
  datatype Move = Observing(pressure: bool) | Raising(target: nat)

  /** The sizer after the first `n` moves. */
  function SizerAt(z: Sizer, ms: seq<Move>, n: nat): Sizer
    requires n <= |ms|
  {
    if n == 0 then z
    else
      match ms[n - 1]
      case Observing(pressure) => Adjust(SizerAt(z, ms, n - 1), pressure)
      case Raising(target) => Raise(SizerAt(z, ms, n - 1), target)
  }

  function SizeAt(z: Sizer, ms: seq<Move>, n: nat): nat
    requires n <= |ms|
  {
    SizerAt(z, ms, n).current
  }

  /** How many of the moves from `k` up to `n` are observations. */
  function Observations(ms: seq<Move>, k: nat, n: nat): nat
    requires n <= |ms|
  {
    if n <= k then 0 else Observations(ms, k, n - 1) + if ms[n - 1].Observing? then 1 else 0
  }

  /** Move `j` leaves the size alone. */
  predicate Steady(z: Sizer, ms: seq<Move>, j: nat)
    requires j < |ms|
  {
    SizeAt(z, ms, j + 1) == SizeAt(z, ms, j)
  }

  /** Move `j` is a warm-up, or an observation without pressure that leaves the size alone. */
  predicate Settled(z: Sizer, ms: seq<Move>, j: nat)
    requires j < |ms|
  {
    ms[j].Observing? ==> !ms[j].pressure && Steady(z, ms, j)
  }

  /** The moves from `i` up to `n` are settled, and the one before them is not. */
  ghost predicate QuietSince(z: Sizer, ms: seq<Move>, n: nat, i: int) {
    && 0 <= i <= n <= |ms| && (i > 0 ==> !Settled(z, ms, i - 1))
    && forall j | i <= j < n :: Settled(z, ms, j)
  }

  /** At any time the streak is the number of quiet observations since an observation last met
      pressure or moved the size, whatever warm-ups came between. */
  lemma {:induction false} StreakIsQuiet(z: Sizer, ms: seq<Move>, n: nat) returns (i: nat)
    requires z.idleStreak == 0 && n <= |ms|
    ensures QuietSince(z, ms, n, i) && SizerAt(z, ms, n).idleStreak == Observations(ms, i, n)
  {
    if n == 0 {
      i := 0;
    } else {
      i := StreakIsQuiet(z, ms, n - 1);
      if !Settled(z, ms, n - 1) {
        i := n;
      }
    }
  }

  lemma {:induction false} SameBounds(z: Sizer, ms: seq<Move>, n: nat)
    requires n <= |ms|
    ensures SizerAt(z, ms, n).lo == z.lo && SizerAt(z, ms, n).hi == z.hi
  {
    if n > 0 { SameBounds(z, ms, n - 1); }
  }

  /** Hysteresis, in any run of observations and warm-ups: move `n` shrinks the pool exactly
      when it is an observation without pressure above the minimum, and the quiet observations
      in a row are five with it. It shrinks it by one. */
  lemma ShrinksExactlyWhen(z: Sizer, ms: seq<Move>, n: nat)
    requires z.idleStreak == 0 && n < |ms|
    ensures SizeAt(z, ms, n + 1) < SizeAt(z, ms, n)
            <==> && ms[n] == Observing(false) && SizeAt(z, ms, n) > z.lo
                 && exists i :: QuietSince(z, ms, n, i) && Observations(ms, i, n) + 1 >= COOLDOWN_CHECKS
    ensures SizeAt(z, ms, n + 1) + 1 >= SizeAt(z, ms, n)
  {
    SameBounds(z, ms, n);
    var i := StreakIsQuiet(z, ms, n);
    forall j | QuietSince(z, ms, n, j) ensures j == i { OneStart(z, ms, n, i, j); }
  }

  /** It grows exactly under pressure, by one while there is room, or by a warm-up to a larger
      target, as far as the maximum. */
  lemma GrowsExactlyWhen(z: Sizer, ms: seq<Move>, n: nat)
    requires z.current <= z.hi && n < |ms|
    ensures var now, then' := SizeAt(z, ms, n), SizeAt(z, ms, n + 1);
            && now <= z.hi
            && (then' > now <==>
                  now < z.hi && match ms[n]
                                case Observing(pressure) => pressure
                                case Raising(target) => target > now)
            && (then' > now ==>
                  match ms[n]
                  case Observing(_) => then' == now + 1
                  case Raising(target) => then' == target || (then' == z.hi && z.hi < target))
  {
    SameBounds(z, ms, n);
    StaysBelow(z, ms, n);
  }

  lemma {:induction false} StaysBelow(z: Sizer, ms: seq<Move>, n: nat)
    requires z.current <= z.hi && n <= |ms|
    ensures SizeAt(z, ms, n) <= z.hi
  {
    if n > 0 {
      SameBounds(z, ms, n - 1);
      StaysBelow(z, ms, n - 1);
    }
  }

  lemma OneStart(z: Sizer, ms: seq<Move>, n: nat, i: int, j: int)
    requires QuietSince(z, ms, n, i) && QuietSince(z, ms, n, j)
    ensures i == j
  {
  }

  /** The size stays the same from `k` moves on to `n` moves on. */
  ghost predicate SameSize(z: Sizer, ms: seq<Move>, k: nat, n: nat)
    requires n <= |ms|
  {
    forall j | k <= j <= n :: SizeAt(z, ms, j) == SizeAt(z, ms, n)
  }

  /** No warm-up from move `k` up to `n` raises the size. */
  ghost predicate NoneRaises(z: Sizer, ms: seq<Move>, k: nat, n: nat)
    requires n <= |ms|
  {
    forall j | k <= j < n && ms[j].Raising? :: Steady(z, ms, j)
  }

  /** Move `n` shrinks the pool only if at least five observations have been made by then and
      the last five were without pressure. They were all made at the size it shrinks from
      exactly when no warm-up among them raised it. */
  lemma ShrinksOnlyAfterQuiet(z: Sizer, ms: seq<Move>, n: nat, k: nat)
    requires z.idleStreak == 0 && n < |ms| && SizeAt(z, ms, n + 1) < SizeAt(z, ms, n)
    requires k <= n && Observations(ms, k, n) < COOLDOWN_CHECKS
    ensures Observations(ms, 0, n + 1) >= COOLDOWN_CHECKS
    ensures forall j | k <= j <= n && ms[j].Observing? :: !ms[j].pressure
    ensures SameSize(z, ms, k, n) <==> NoneRaises(z, ms, k, n)
  {
    ShrinksExactlyWhen(z, ms, n);
    var i :| QuietSince(z, ms, n, i) && Observations(ms, i, n) + 1 >= COOLDOWN_CHECKS;
    MoreObservations(ms, 0, i, n);
    assert Observations(ms, 0, n + 1) == Observations(ms, 0, n) + 1;
    if k < i { MoreObservations(ms, k, i, n); }
    forall j | k <= j <= n && ms[j].Observing? ensures !ms[j].pressure {
      assert j < n ==> Settled(z, ms, j);
    }
    SteadySize(z, ms, k, n);
  }

  lemma {:induction false} MoreObservations(ms: seq<Move>, k: nat, i: nat, n: nat)
    requires k <= i <= n <= |ms|
    ensures Observations(ms, k, n) == Observations(ms, k, i) + Observations(ms, i, n)
  {
    if i < n { MoreObservations(ms, k, i, n - 1); }
  }

  lemma {:induction false} SteadySize(z: Sizer, ms: seq<Move>, k: nat, n: nat)
    requires k <= n <= |ms| && forall j | k <= j < n :: Settled(z, ms, j)
    ensures SameSize(z, ms, k, n) <==> NoneRaises(z, ms, k, n)
    decreases n - k
  {
    if k < n {
      SteadySize(z, ms, k + 1, n);
      assert Settled(z, ms, k);
      assert SameSize(z, ms, k, n) <==> SameSize(z, ms, k + 1, n) && Steady(z, ms, k);
      assert NoneRaises(z, ms, k, n) <==> NoneRaises(z, ms, k + 1, n) && Steady(z, ms, k);
    }
  }

  /** The first move can be made before the others. */
  lemma {:induction false} FirstMove(z: Sizer, m: Move, ms: seq<Move>, n: nat)
    requires n <= |ms|
    ensures SizerAt(z, [m] + ms, n + 1)
            == SizerAt(if m.Observing? then Adjust(z, m.pressure) else Raise(z, m.target), ms, n)
  {
    if n > 0 { FirstMove(z, m, ms, n - 1); }
  }

  /** A warm-up leaves the streak alone: after four quiet observations at two connections, one
      at the ten it raised the size to shrinks the pool. */
  lemma WarmUpKeepsStreak()
    ensures var quiet := Observing(false);
            var ms := [Observing(true), quiet, quiet, quiet, quiet, Raising(10), quiet];
            var z := NewSizer(1, 10);
            SizeAt(z, ms, 5) == 2 && SizeAt(z, ms, 6) == 10 && SizeAt(z, ms, 7) == 9
  {
    var quiet := Observing(false);
    var ms := [Observing(true), quiet, quiet, quiet, quiet, Raising(10), quiet];
    var z := NewSizer(1, 10);
    assert SizerAt(z, ms, 1) == Sizer(1, 10, 2, 0);
    assert SizerAt(z, ms, 2) == Sizer(1, 10, 2, 1);
    assert SizerAt(z, ms, 3) == Sizer(1, 10, 2, 2);
    assert SizerAt(z, ms, 4) == Sizer(1, 10, 2, 3);
    assert SizerAt(z, ms, 5) == Sizer(1, 10, 2, 4);
    assert SizerAt(z, ms, 6) == Sizer(1, 10, 10, 4);
  }

  /** The sizer object, updated in place by `adjust` and by the warm-up. */
  class AdaptiveSizer {
    const lo: nat
    const hi: nat
    var current: nat
    var idleStreak: nat

    function Model(): Sizer
      reads this
    {
      Sizer(lo, hi, current, idleStreak)
    }

    constructor (lo: nat, hi: nat)
      ensures Model() == NewSizer(lo, hi)
    {
      this.lo, this.hi, current, idleStreak := lo, hi, lo, 0;
    }

    method AdjustSize(currentWaiters: nat, recentWaitMs: real) returns (size: nat)
      modifies this
      ensures Model() == Adjust(old(Model()), currentWaiters > 0 || recentWaitMs > WAIT_PRESSURE_THRESHOLD_MS)
      ensures size == current
    {
      var underPressure := currentWaiters > 0 || recentWaitMs > WAIT_PRESSURE_THRESHOLD_MS;
      if underPressure {
        idleStreak := 0;
        if current < hi {
          current := current + 1;
        }
      } else {
        idleStreak := idleStreak + 1;
        if idleStreak >= COOLDOWN_CHECKS && current > lo {
          current := current - 1;
          idleStreak := 0;
        }
      }
      size := current;
    }

    method RaiseTo(target: nat)
      modifies this
      ensures Model() == Raise(old(Model()), target)
    {
      var t := if target < hi then target else hi;
      if t > current {
        current := t;
      }
    }
  }
}
