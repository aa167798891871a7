/** `PersistentAuthState.check_and_record_attempt`: a fixed-window rate limit kept in one
    table row per key, updated by one atomic upsert. */
module RateLimiting {
  import opened Wrappers

  /** A row of the rate-limit table. */
  datatype Window = Window(start: real, count: nat)

  /** The upsert: a missing or expired window is restarted at `now`, a live one counts up. */
  function Upserted(row: Option<Window>, now: real, window: real): Window {
    if row.None? || row.value.start <= now - window then Window(now, 1)
    else Window(row.value.start, row.value.count + 1)
  }

  /** One key's row after a sequence of attempts with no reset between them. */
  function After(times: seq<real>, window: real): Option<Window> {
    if times == [] then None
    else Some(Upserted(After(times[..|times| - 1], window), times[|times| - 1], window))
  }

  /** Whether attempt `i` is allowed. */
  predicate Allowed(times: seq<real>, window: real, max: nat, i: nat)
    requires i < |times|
  {
    After(times[..i + 1], window).value.count <= max
  }

  predicate NonDecreasing(times: seq<real>) {
    forall i, j | 0 <= i < j < |times| :: times[i] <= times[j]
  }

  /** How many of the attempts made in the half-open interval [a, a + window) are allowed. */
  function AllowedIn(times: seq<real>, window: real, max: nat, a: real): nat {
    if times == [] then 0
    else
      var n := |times| - 1;
      AllowedIn(times[..n], window, max, a)
      + if a <= times[n] < a + window && After(times, window).value.count <= max then 1 else 0
  }

  /** How many attempts, of any outcome, were made after `from`. */
  function RecordedSince(times: seq<real>, from: real): nat {
    if times == [] then 0
    else RecordedSince(times[..|times| - 1], from) + if times[|times| - 1] > from then 1 else 0
  }

  function Min(a: int, b: int): int {
    if a < b then a else b
  }

  /** What the allowed attempts in the interval can amount to so far: those of the window
      under way when the interval began, less its first attempt, which lies before the
      interval; and those of the one window that began inside. */
  function Budget(w: Window, max: nat, a: real): int {
    if w.start < a then Min(w.count, max) - 1 else max - 1 + Min(w.count, max)
  }

  /** A live window started at one of the attempts. */
  lemma {:induction false} WindowIsRecent(times: seq<real>, window: real)
    requires NonDecreasing(times) && times != []
    ensures var w := After(times, window).value; w.start <= times[|times| - 1] && w.count >= 1
  {
    var n := |times| - 1;
    if n > 0 {
      WindowIsRecent(times[..n], window);
    }
  }

  lemma {:induction false} WithinBudget(times: seq<real>, window: real, max: nat, a: real)
    requires NonDecreasing(times) && max >= 1 && times != [] && times[|times| - 1] < a + window
    ensures AllowedIn(times, window, max, a) <= Budget(After(times, window).value, max, a)
  {
    var n := |times| - 1;
    if n > 0 {
      WithinBudget(times[..n], window, max, a);
      WindowIsRecent(times[..n], window);
    } else {
      assert AllowedIn(times[..0], window, max, a) == 0;
    }
    if times[n] < a {
      NoneBefore(times, window, max, a);
      WindowIsRecent(times, window);
    }
  }

  lemma {:induction false} NoneBefore(times: seq<real>, window: real, max: nat, a: real)
    requires NonDecreasing(times) && (times == [] || times[|times| - 1] < a)
    ensures AllowedIn(times, window, max, a) == 0
  {
    if times != [] {
      NoneBefore(times[..|times| - 1], window, max, a);
    }
  }

  /** The rate-limit bound: whatever the attempts, any half-open interval as long as the
      window contains at most 2 * max - 1 allowed ones, and none if max is 0. */
  lemma {:induction false} AtMostTwiceLessOne(times: seq<real>, window: real, max: nat, a: real)
    requires NonDecreasing(times)
    ensures AllowedIn(times, window, max, a) <= if max == 0 then 0 else 2 * max - 1
  {
    if times != [] {
      var n := |times| - 1;
      if max == 0 {
        AtMostTwiceLessOne(times[..n], window, max, a);
        WindowIsRecent(times, window);
      } else if times[n] < a + window {
        WithinBudget(times, window, max, a);
      } else {
        AtMostTwiceLessOne(times[..n], window, max, a);
      }
    }
  }

  /** An attempt is refused only if at least `max` attempts before it were recorded in the
      window's length before it. */
  lemma RefusedOnlyAtTheLimit(times: seq<real>, window: real, max: nat)
    requires NonDecreasing(times) && times != [] && window > 0.0
    requires !Allowed(times, window, max, |times| - 1)
    ensures RecordedSince(times[..|times| - 1], times[|times| - 1] - window) >= max
  {
    var n := |times| - 1;
    assert times[..n + 1] == times;
    CountIsRecorded(times, window, times[n] - window);
  }

  /** The counter of a live window counts attempts made since it started. */
  lemma {:induction false} CountIsRecorded(times: seq<real>, window: real, from: real)
    requires NonDecreasing(times) && times != [] && window > 0.0 && from < times[|times| - 1]
    requires After(times, window).value.start > from
    ensures RecordedSince(times, from) >= After(times, window).value.count
  {
    var n := |times| - 1;
    var before := After(times[..n], window);
    if before.Some? && before.value.start > times[n] - window {
      WindowIsRecent(times[..n], window);
      CountIsRecorded(times[..n], window, from);
    }
  }

  // ---------------------------------------------------------------- the bound is tight

  /** `k` attempts at one moment. */
  function Burst(t: real, k: nat): seq<real> {
    seq(k, i => t)
  }

  /** One attempt, a burst just before its window ends, and a burst as it ends. */
  function Straddle(window: real, max: nat): seq<real>
    requires max >= 1
  {
    [0.0] + Burst(window / 2.0, max - 1) + Burst(window, max)
  }

  lemma {:induction false} BurstCounts(times: seq<real>, window: real, max: nat, a: real, t: real, k: nat)
    requires window > 0.0 && times != [] && a <= t < a + window
    requires After(times, window).value.start > t - window
    ensures var more := times + Burst(t, k);
            && After(more, window)
               == Some(Window(After(times, window).value.start, After(times, window).value.count + k))
            && (After(times, window).value.count + k <= max ==>
                  AllowedIn(more, window, max, a) == AllowedIn(times, window, max, a) + k)
  {
    if k == 0 {
      assert times + Burst(t, 0) == times;
    } else {
      BurstCounts(times, window, max, a, t, k - 1);
      assert (times + Burst(t, k))[..|times| + k - 1] == times + Burst(t, k - 1);
    }
  }

  lemma Straddled(window: real, max: nat)
    requires max >= 1
    ensures [0.0] + Burst(window / 2.0, max - 1) + [window] + Burst(window, max - 1) == Straddle(window, max)
  {
  }

  /** For every limit there are attempts that reach the bound. */
  lemma BoundIsReached(window: real, max: nat)
    requires window > 0.0 && max >= 1
    ensures NonDecreasing(Straddle(window, max))
    ensures AllowedIn(Straddle(window, max), window, max, window / 2.0) == 2 * max - 1
  {
    var a := window / 2.0;
    var half := [0.0] + Burst(a, max - 1);
    var next := half + [window];
    assert After(next, window) == Some(Window(window, 1)) && AllowedIn(next, window, max, a) == max by {
      FirstHalf(window, max, a);
      assert next[..|half|] == half;
    }
    BurstCounts(next, window, max, a, window, max - 1);
    Straddled(window, max);
  }

  /** No interval of the window's length ever holds more than `max` allowed attempts. */
  ghost predicate PromiseKept(window: real, max: nat) {
    forall times, a | NonDecreasing(times) :: AllowedIn(times, window, max, a) <= max
  }

  /** Exactly when the limit is what its name says, for all attempts. */
  lemma PromiseKeptExactlyWhen(window: real, max: nat)
    requires window > 0.0
    ensures PromiseKept(window, max) <==> max <= 1
  {
    if max <= 1 {
      forall times, a | NonDecreasing(times) ensures AllowedIn(times, window, max, a) <= max {
        AtMostTwiceLessOne(times, window, max, a);
      }
    } else {
      BoundIsReached(window, max);
    }
  }

  lemma FirstHalf(window: real, max: nat, a: real)
    requires 0.0 < a < window && max >= 1
    ensures var half := [0.0] + Burst(a, max - 1);
            After(half, window) == Some(Window(0.0, max)) && AllowedIn(half, window, max, a) == max - 1
  {
    var first := [0.0];
    assert first[..0] == [];
    assert After(first, window) == Some(Window(0.0, 1)) && AllowedIn(first, window, max, a) == 0;
    BurstCounts(first, window, max, a, a, max - 1);
  }

  // ---------------------------------------------------------------- the table

  /** An attempt on a key. */
  datatype Attempt = Attempt(key: string, at: real)

  function RowOf(table: map<string, Window>, key: string): Option<Window> {
    if key in table then Some(table[key]) else None
  }

  /** One upsert in the table. */
  function Recorded(table: map<string, Window>, a: Attempt, window: real): map<string, Window> {
    table[a.key := Upserted(RowOf(table, a.key), a.at, window)]
  }

  /** The table after attempts on any keys, from any processes, in the order the database
      takes them. */
  function TableAfter(attempts: seq<Attempt>, window: real): map<string, Window> {
    if attempts == [] then map[]
    else Recorded(TableAfter(attempts[..|attempts| - 1], window), attempts[|attempts| - 1], window)
  }

  function TimesOf(attempts: seq<Attempt>, key: string): seq<real> {
    if attempts == [] then []
    else
      var last := attempts[|attempts| - 1];
      TimesOf(attempts[..|attempts| - 1], key) + if last.key == key then [last.at] else []
  }

  /** Keys do not interfere: every row is the history of its own key alone. */
  lemma {:induction false} RowIsOwnHistory(attempts: seq<Attempt>, window: real, key: string)
    ensures RowOf(TableAfter(attempts, window), key) == After(TimesOf(attempts, key), window)
  {
    if attempts != [] {
      var n := |attempts| - 1;
      RowIsOwnHistory(attempts[..n], window, key);
      var times, last := TimesOf(attempts[..n], key), attempts[n];
      assert (times + [last.at])[..|times|] == times;
      assert TableAfter(attempts, window) == Recorded(TableAfter(attempts[..n], window), last, window);
      if last.key == key {
        assert TimesOf(attempts, key) == times + [last.at];
      } else {
        assert TimesOf(attempts, key) == times;
      }
    }
  }

  class PersistentAuthState {
    var rateLimits: map<string, Window>

    constructor ()
      ensures rateLimits == map[]
    {
      rateLimits := map[];
    }

    method CheckAndRecordAttempt(key: string, maxAttempts: nat, windowSeconds: real, now: real)
      returns (allowed: bool)
      modifies this
      ensures rateLimits == Recorded(old(rateLimits), Attempt(key, now), windowSeconds)
      ensures allowed == (rateLimits[key].count <= maxAttempts)
    {
      var cutoff := now - windowSeconds;
      var row;
      if key !in rateLimits {
        row := Window(now, 1);
      } else {
        var old' := rateLimits[key];
        row := Window(if old'.start <= cutoff then now else old'.start,
                      if old'.start <= cutoff then 1 else old'.count + 1);
      }
      rateLimits := rateLimits[key := row];
      allowed := row.count <= maxAttempts;
    }

    method ResetAttempts(key: string)
      modifies this
      ensures rateLimits == old(rateLimits) - {key}
    {
      rateLimits := rateLimits - {key};
    }
  }
}
