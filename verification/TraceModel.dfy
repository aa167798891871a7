/** Request traces as values: the nodes in the order they were started, each with the
    position of its parent, and the position of the active node. */
module TraceModel {
  import opened Wrappers

  /** A node. The parent of the root is -1, and so is the active node of a trace with none. */
  datatype Rec = Rec(started: int, duration: Option<int>, parent: int)

  datatype Flat = Flat(recs: seq<Rec>, current: int)

  datatype TraceError = AlreadyFinished | NoActiveNode | FinishBeforeStart

  datatype Op = Start(now: int) | Finish(now: int)

  predicate WellFormed(f: Flat) {
    && -1 <= f.current < |f.recs|
    && (forall j | 0 <= j < |f.recs| :: -1 <= f.recs[j].parent < j)
    && (forall j | 0 < j < |f.recs| :: f.recs[j].parent >= 0)
  }

  /** `Trace.start` at clock reading `now`. */
  function Started(f: Flat, now: int): Result<Flat, TraceError> {
    if f.recs != [] && f.current == -1 then Err(AlreadyFinished)
    else Ok(Flat(f.recs + [Rec(now, None, f.current)], |f.recs|))
  }

  /** `Trace.finish` at clock reading `now`. Finishing a finished node changes nothing in it. */
  function Finished(f: Flat, now: int): Result<Flat, TraceError>
    requires WellFormed(f)
  {
    if f.current == -1 then Err(NoActiveNode)
    else
      var r := f.recs[f.current];
      if r.duration.Some? then Ok(f.(current := r.parent))
      else if now < r.started then Err(FinishBeforeStart)
      else Ok(Flat(f.recs[f.current := r.(duration := Some(now - r.started))], r.parent))
  }

  function Apply(f: Flat, op: Op): Result<Flat, TraceError>
    requires WellFormed(f)
  {
    match op
    case Start(now) => Started(f, now)
    case Finish(now) => Finished(f, now)
  }

  /** A call that raises leaves the trace as it was. */
  function Step(f: Flat, op: Op): (r: Flat)
    requires WellFormed(f)
    ensures WellFormed(r)
  {
    match Apply(f, op)
    case Ok(g) => g
    case Err(_) => f
  }

  function Run(f: Flat, ops: seq<Op>): (r: Flat)
    requires WellFormed(f)
    ensures WellFormed(r)
  {
    if ops == [] then f else Step(Run(f, ops[..|ops| - 1]), ops[|ops| - 1])
  }

  const EMPTY: Flat := Flat([], -1)

  /** The nodes from the root down to node `i`. */
  function Path(recs: seq<Rec>, i: int): seq<int>
    requires forall j | 0 <= j < |recs| :: -1 <= recs[j].parent < j
    requires -1 <= i < |recs|
    decreases i + 1
  {
    if i == -1 then [] else Path(recs, recs[i].parent) + [i]
  }

  function End(r: Rec): int
    requires r.duration.Some?
  {
    r.started + r.duration.value
  }

  /** The unfinished nodes are exactly the path from the root to the active one. */
  ghost predicate PathOpen(f: Flat)
    requires WellFormed(f)
  {
    forall j | 0 <= j < |f.recs| :: f.recs[j].duration.None? <==> j in Path(f.recs, f.current)
  }

  /** Nothing lies after the last clock reading. */
  ghost predicate Timed(recs: seq<Rec>, clock: int) {
    forall j | 0 <= j < |recs| ::
      recs[j].started <= clock && (recs[j].duration.Some? ==> recs[j].duration.value >= 0 && End(recs[j]) <= clock)
  }

  /** A child starts after its parent and ends before it does. */
  predicate Nested(recs: seq<Rec>, j: int)
    requires 0 <= j < |recs| && 0 <= recs[j].parent < |recs|
  {
    var parent, child := recs[recs[j].parent], recs[j];
    && parent.started <= child.started
    && (parent.duration.Some? ==> child.duration.Some? && End(child) <= End(parent))
  }

  ghost predicate AllNested(recs: seq<Rec>) {
    forall j | 0 <= j < |recs| && 0 <= recs[j].parent < |recs| :: Nested(recs, j)
  }

  predicate Before(earlier: Rec, later: Rec) {
    earlier.duration.Some? && End(earlier) <= later.started
  }

  /** Siblings do not overlap. */
  ghost predicate SiblingsApart(recs: seq<Rec>) {
    forall i, j | 0 <= i < j < |recs| && recs[i].parent == recs[j].parent :: Before(recs[i], recs[j])
  }

  /** What every sequence of calls under a non-decreasing clock keeps. */
  ghost predicate Inv(f: Flat, clock: int) {
    WellFormed(f) && PathOpen(f) && Timed(f.recs, clock) && AllNested(f.recs) && SiblingsApart(f.recs)
  }

  // ---------------------------------------------------------------- paths

  /** A path only depends on the parents, and climbs in start order. */
  lemma {:induction false} PathSame(recs: seq<Rec>, others: seq<Rec>, i: int)
    requires forall j | 0 <= j < |recs| :: -1 <= recs[j].parent < j
    requires forall j | 0 <= j < |others| :: -1 <= others[j].parent < j
    requires -1 <= i < |recs| && i < |others|
    requires forall j | 0 <= j <= i :: recs[j].parent == others[j].parent
    ensures Path(recs, i) == Path(others, i)
    decreases i + 1
  {
    if i >= 0 {
      PathSame(recs, others, recs[i].parent);
    }
  }

  lemma {:induction false} PathBelow(recs: seq<Rec>, i: int)
    requires forall j | 0 <= j < |recs| :: -1 <= recs[j].parent < j
    requires -1 <= i < |recs|
    ensures forall j | j in Path(recs, i) :: 0 <= j <= i
    decreases i + 1
  {
    if i >= 0 {
      PathBelow(recs, recs[i].parent);
    }
  }

  // ---------------------------------------------------------------- each call keeps it

  lemma StartKeepsPath(f: Flat, now: int)
    requires WellFormed(f) && PathOpen(f) && (f.recs == [] || f.current != -1)
    ensures PathOpen(Step(f, Start(now)))
  {
    var n, g := |f.recs|, Step(f, Start(now));
    PathBelow(f.recs, f.current);
    PathSame(f.recs, g.recs, f.current);
    assert Path(g.recs, n) == Path(f.recs, f.current) + [n];
  }

  lemma StartKeepsSpans(f: Flat, clock: int, now: int)
    requires Inv(f, clock) && clock <= now && (f.recs == [] || f.current != -1)
    ensures var recs := Step(f, Start(now)).recs; AllNested(recs) && SiblingsApart(recs)
  {
    var n, recs := |f.recs|, Step(f, Start(now)).recs;
    assert recs == f.recs + [Rec(now, None, f.current)];
    ActiveIsOpen(f);
    forall j | 0 <= j < |recs| && 0 <= recs[j].parent < |recs| ensures Nested(recs, j) {
      if j < n { assert Nested(f.recs, j); }
    }
    PathBelow(f.recs, f.current);
    forall i, j | 0 <= i < j < |recs| && recs[i].parent == recs[j].parent ensures Before(recs[i], recs[j]) {
      if j < n {
        assert Before(f.recs[i], f.recs[j]);
      } else {
        assert i !in Path(f.recs, f.current);
      }
    }
  }

  lemma ActiveIsOpen(f: Flat)
    requires WellFormed(f) && PathOpen(f)
    ensures f.current != -1 ==> f.recs[f.current].duration.None?
    ensures f.current == -1 ==> forall j | 0 <= j < |f.recs| :: f.recs[j].duration.Some?
  {
  }

  lemma StartKeeps(f: Flat, clock: int, now: int)
    requires Inv(f, clock) && clock <= now
    ensures Inv(Step(f, Start(now)), now)
  {
    if f.recs == [] || f.current != -1 {
      StartKeepsPath(f, now);
      StartKeepsSpans(f, clock, now);
    }
  }

  lemma FinishKeepsPath(f: Flat, now: int)
    requires WellFormed(f) && PathOpen(f) && f.current != -1 && f.recs[f.current].started <= now
    ensures PathOpen(Step(f, Finish(now)))
  {
    ActiveIsOpen(f);
    var c := f.current;
    var parent := f.recs[c].parent;
    var g := Step(f, Finish(now));
    assert Path(f.recs, c) == Path(f.recs, parent) + [c];
    PathBelow(f.recs, parent);
    PathSame(f.recs, g.recs, parent);
  }

  lemma FinishKeepsSpans(f: Flat, clock: int, now: int)
    requires Inv(f, clock) && clock <= now && f.current != -1
    ensures var recs := Step(f, Finish(now)).recs; AllNested(recs) && SiblingsApart(recs)
  {
    ActiveIsOpen(f);
    var c, recs := f.current, Step(f, Finish(now)).recs;
    PathBelow(f.recs, c);
    forall j | 0 <= j < |recs| && 0 <= recs[j].parent < |recs| ensures Nested(recs, j) {
      assert Nested(f.recs, j);
      if recs[j].parent == c {
        assert j !in Path(f.recs, c);
      }
    }
    forall i, j | 0 <= i < j < |recs| && recs[i].parent == recs[j].parent ensures Before(recs[i], recs[j]) {
      assert Before(f.recs[i], f.recs[j]);
    }
  }

  lemma FinishKeeps(f: Flat, clock: int, now: int)
    requires Inv(f, clock) && clock <= now
    ensures Inv(Step(f, Finish(now)), now)
  {
    if f.current != -1 {
      ActiveIsOpen(f);
      FinishKeepsPath(f, now);
      FinishKeepsSpans(f, clock, now);
    }
  }

  /** The clock readings of a run never decrease. */
  ghost predicate Timely(ops: seq<Op>, from: int) {
    && (forall i | 0 <= i < |ops| :: from <= ops[i].now)
    && (forall i, j | 0 <= i < j < |ops| :: ops[i].now <= ops[j].now)
  }

  lemma {:induction false} EveryRunKeeps(ops: seq<Op>, from: int)
    requires Timely(ops, from)
    ensures Inv(Run(EMPTY, ops), if ops == [] then from else ops[|ops| - 1].now)
  {
    if ops != [] {
      var n := |ops| - 1;
      var before := Run(EMPTY, ops[..n]);
      assert Run(EMPTY, ops) == Step(before, ops[n]);
      EveryRunKeeps(ops[..n], from);
      StepKeeps(before, if n == 0 then from else ops[n - 1].now, ops[n]);
    }
  }

  lemma StepKeeps(f: Flat, clock: int, op: Op)
    requires Inv(f, clock) && clock <= op.now
    ensures Inv(Step(f, op), op.now)
  {
    match op
    case Start(now) => StartKeeps(f, clock, now);
    case Finish(now) => FinishKeeps(f, clock, now);
  }

  /** Under a non-decreasing clock nothing finishes before it started: a call fails only
      because the trace is over or has not begun. */
  lemma OnlyStateErrors(ops: seq<Op>, from: int, op: Op)
    requires Timely(ops + [op], from)
    ensures var f := Run(EMPTY, ops);
            match op
            case Start(_) => Apply(f, op).Err? <==> f.recs != [] && f.current == -1
            case Finish(_) => Apply(f, op).Err? <==> f.current == -1
  {
    var all := ops + [op];
    assert forall i | 0 <= i < |ops| :: all[i] == ops[i];
    assert all[|ops|] == op;
    EveryRunKeeps(ops, from);
    ActiveIsOpen(Run(EMPTY, ops));
  }

  // ---------------------------------------------------------------- time is conserved

  function Spent(r: Rec): int {
    if r.duration.Some? then r.duration.value else 0
  }

  /** The time the first `n` nodes spent as children of node `i`. */
  function ChildSum(recs: seq<Rec>, i: int, n: nat): int
    requires n <= |recs|
  {
    if n == 0 then 0 else ChildSum(recs, i, n - 1) + if recs[n - 1].parent == i then Spent(recs[n - 1]) else 0
  }

  /** `exclusive_duration_ns`, without and with the clamp. */
  function Unclamped(recs: seq<Rec>, i: nat): int
    requires i < |recs| && recs[i].duration.Some?
  {
    recs[i].duration.value - ChildSum(recs, i, |recs|)
  }

  function Exclusive(recs: seq<Rec>, i: nat): Option<int>
    requires i < |recs|
  {
    if recs[i].duration.None? then None
    else Some(if Unclamped(recs, i) > 0 then Unclamped(recs, i) else 0)
  }

  /** Disjoint children inside a span cannot spend more than the span. */
  lemma {:induction false} ChildrenFit(recs: seq<Rec>, i: nat, n: nat, end: int)
    requires AllNested(recs) && SiblingsApart(recs) && i < |recs| && n <= |recs| && recs[i].started <= end
    requires forall j | 0 <= j < n && recs[j].parent == i :: recs[j].duration.Some? && End(recs[j]) <= end
    ensures ChildSum(recs, i, n) <= end - recs[i].started
  {
    if n > 0 {
      var child := recs[n - 1];
      if child.parent == i {
        assert Nested(recs, n - 1);
        assert forall j | 0 <= j < n - 1 && recs[j].parent == i :: Before(recs[j], child);
        ChildrenFit(recs, i, n - 1, child.started);
      } else {
        ChildrenFit(recs, i, n - 1, end);
      }
    }
  }

  /** The clamp in `exclusive_duration_ns` never changes anything. */
  lemma ClampNeverBites(recs: seq<Rec>, i: nat)
    requires AllNested(recs) && SiblingsApart(recs) && i < |recs| && recs[i].duration.Some?
    requires recs[i].duration.value >= 0
    ensures Unclamped(recs, i) >= 0
    ensures Exclusive(recs, i) == Some(Unclamped(recs, i))
  {
    forall j | 0 <= j < |recs| && recs[j].parent == i
      ensures recs[j].duration.Some? && End(recs[j]) <= End(recs[i])
    {
      assert Nested(recs, j);
    }
    ChildrenFit(recs, i, |recs|, End(recs[i]));
  }

  /** The time spent by the first `n` nodes, and by them as children of the first `m`. */
  function AllSpent(recs: seq<Rec>, n: nat): int
    requires n <= |recs|
  {
    if n == 0 then 0 else AllSpent(recs, n - 1) + Spent(recs[n - 1])
  }

  function AllChildren(recs: seq<Rec>, m: nat, n: nat): int
    requires n <= |recs|
  {
    if m == 0 then 0 else AllChildren(recs, m - 1, n) + ChildSum(recs, m - 1, n)
  }

  function AllExclusive(recs: seq<Rec>, m: nat): int
    requires m <= |recs| && forall i | 0 <= i < m :: recs[i].duration.Some?
  {
    if m == 0 then 0 else AllExclusive(recs, m - 1) + Exclusive(recs, m - 1).value
  }

  lemma {:induction false} OneMoreChild(recs: seq<Rec>, m: nat, n: nat)
    requires n < |recs|
    ensures AllChildren(recs, m, n + 1)
            == AllChildren(recs, m, n) + if 0 <= recs[n].parent < m then Spent(recs[n]) else 0
  {
    if m > 0 {
      OneMoreChild(recs, m - 1, n);
    }
  }

  lemma {:induction false} NoChildren(recs: seq<Rec>, m: nat)
    ensures AllChildren(recs, m, 0) == 0
  {
    if m > 0 {
      NoChildren(recs, m - 1);
    }
  }

  /** Every node but the root is the child of exactly one node. */
  lemma {:induction false} EachNodeOnce(f: Flat, n: nat)
    requires WellFormed(f) && 0 < n <= |f.recs|
    ensures AllChildren(f.recs, |f.recs|, n) == AllSpent(f.recs, n) - Spent(f.recs[0])
  {
    OneMoreChild(f.recs, |f.recs|, n - 1);
    if n == 1 {
      NoChildren(f.recs, |f.recs|);
    } else {
      EachNodeOnce(f, n - 1);
    }
  }

  ghost predicate AllClosed(recs: seq<Rec>) {
    forall i | 0 <= i < |recs| :: recs[i].duration.Some? && recs[i].duration.value >= 0
  }

  lemma {:induction false} ExclusiveTotal(recs: seq<Rec>, m: nat)
    requires AllNested(recs) && SiblingsApart(recs) && m <= |recs| && AllClosed(recs)
    ensures AllExclusive(recs, m) == AllSpent(recs, m) - AllChildren(recs, m, |recs|)
  {
    if m > 0 {
      ExclusiveTotal(recs, m - 1);
      ClampNeverBites(recs, m - 1);
    }
  }

  /** Conservation of time: after any calls under a non-decreasing clock, once no node is
      active every node is finished and the exclusive durations of the whole tree add up to
      the duration of the root. */
  lemma TimeIsConserved(ops: seq<Op>, from: int)
    requires Timely(ops, from)
    requires var f := Run(EMPTY, ops); f.recs != [] && f.current == -1
    ensures var f := Run(EMPTY, ops);
            && (forall i | 0 <= i < |f.recs| :: f.recs[i].duration.Some?)
            && Some(AllExclusive(f.recs, |f.recs|)) == f.recs[0].duration
  {
    EveryRunKeeps(ops, from);
    ConservedWhenOver(Run(EMPTY, ops), if ops == [] then from else ops[|ops| - 1].now);
  }

  lemma ConservedWhenOver(f: Flat, clock: int)
    requires Inv(f, clock) && f.recs != [] && f.current == -1
    ensures (forall i | 0 <= i < |f.recs| :: f.recs[i].duration.Some?)
    ensures Some(AllExclusive(f.recs, |f.recs|)) == f.recs[0].duration
  {
    ActiveIsOpen(f);
    ClosedAddUp(f);
  }

  lemma ClosedAddUp(f: Flat)
    requires WellFormed(f) && AllNested(f.recs) && SiblingsApart(f.recs) && f.recs != [] && AllClosed(f.recs)
    ensures Some(AllExclusive(f.recs, |f.recs|)) == f.recs[0].duration
  {
    ExclusiveTotal(f.recs, |f.recs|);
    EachNodeOnce(f, |f.recs|);
    RootIsLeft(f.recs, |f.recs|);
  }

  lemma RootIsLeft(recs: seq<Rec>, n: nat)
    requires n == |recs| && recs != [] && AllClosed(recs)
    requires AllExclusive(recs, n) == AllSpent(recs, n) - AllChildren(recs, n, n)
    requires AllChildren(recs, n, n) == AllSpent(recs, n) - Spent(recs[0])
    ensures Some(AllExclusive(recs, n)) == recs[0].duration
  {
  }
}
