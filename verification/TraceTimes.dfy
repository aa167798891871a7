/** When each node of a trace starts and ends, and how long it is the active one, told from the
    calls and their clock readings alone. */
module TraceTimes {
  import opened TraceModel
  import opened Wrappers

  // ---------------------------------------------------------------- brackets

  /** There is a start among the first `n` calls. */
  predicate Begun(ops: seq<Op>, n: nat)
    requires n <= |ops|
  {
    n > 0 && (ops[n - 1].Start? || Begun(ops, n - 1))
  }

  /** The calls whose nodes are open after the first `n` calls, outermost first: a start opens a
      bracket unless the outermost one has been closed before, a finish closes the innermost. */
  function Open(ops: seq<Op>, n: nat): (r: seq<nat>)
    requires n <= |ops|
    ensures forall i | 0 <= i < |r| :: r[i] < n && ops[r[i]].Start?
  {
    if n == 0 then []
    else
      var before := Open(ops, n - 1);
      match ops[n - 1]
      case Start(_) => if before == [] && Begun(ops, n - 1) then [] else before + [n - 1]
      case Finish(_) => if before == [] then [] else before[..|before| - 1]
  }

  /** Call `a` opens a bracket, that is, makes a node. */
  predicate Opens(ops: seq<Op>, a: nat) {
    a < |ops| && ops[a].Start? && (Open(ops, a) != [] || !Begun(ops, a))
  }

  /** After `n` calls the innermost open bracket is that of call `a`. */
  predicate Innermost(ops: seq<Op>, n: nat, a: nat)
    requires n <= |ops|
  {
    Open(ops, n) != [] && Open(ops, n)[|Open(ops, n)| - 1] == a
  }

  /** How many nodes the first `n` calls make. */
  function NodesMade(ops: seq<Op>, n: nat): nat
    requires n <= |ops|
  {
    if n == 0 then 0 else NodesMade(ops, n - 1) + if Opens(ops, n - 1) then 1 else 0
  }

  /** The reading of the finish, among the first `n` calls, that closed the bracket of call `a`. */
  function EndOf(ops: seq<Op>, n: nat, a: nat): Option<int>
    requires n <= |ops|
  {
    if n == 0 then None
    else if ops[n - 1].Finish? && Innermost(ops, n - 1, a) then Some(ops[n - 1].now)
    else EndOf(ops, n - 1, a)
  }

  /** How long the bracket of call `a` was the innermost one, up to the `n`-th call. */
  function ActiveTime(ops: seq<Op>, n: nat, a: nat): int
    requires n <= |ops|
  {
    if n <= 1 then 0
    else ActiveTime(ops, n - 1, a) + if Innermost(ops, n - 1, a) then ops[n - 1].now - ops[n - 2].now else 0
  }

  lemma {:induction false} OpenOpens(ops: seq<Op>, n: nat)
    requires n <= |ops|
    ensures forall i | 0 <= i < |Open(ops, n)| :: Opens(ops, Open(ops, n)[i])
  {
    if n > 0 {
      OpenOpens(ops, n - 1);
    }
  }

  /** Later calls make later nodes. */
  lemma {:induction false} NodesGrow(ops: seq<Op>, a: nat, n: nat)
    requires a < n <= |ops|
    ensures NodesMade(ops, a) <= NodesMade(ops, n)
    ensures Opens(ops, a) ==> NodesMade(ops, a) < NodesMade(ops, n)
  {
    if a < n - 1 {
      NodesGrow(ops, a, n - 1);
    }
  }

  lemma OtherNodes(ops: seq<Op>, a: nat, b: nat)
    requires Opens(ops, a) && Opens(ops, b) && a != b
    ensures NodesMade(ops, a) != NodesMade(ops, b)
  {
    if a < b { NodesGrow(ops, a, b); } else { NodesGrow(ops, b, a); }
  }

  // ---------------------------------------------------------------- starts and ends

  /** The nodes of the given calls. */
  function Nodes(ops: seq<Op>, calls: seq<nat>): (r: seq<int>)
    requires forall i | 0 <= i < |calls| :: calls[i] <= |ops|
    ensures |r| == |calls| && forall i | 0 <= i < |r| :: r[i] == NodesMade(ops, calls[i])
  {
    seq(|calls|, i requires 0 <= i < |calls| => NodesMade(ops, calls[i]))
  }

  /** The node made by call `a` started at its reading, and ended when its bracket closed. */
  predicate Spans(ops: seq<Op>, n: nat, recs: seq<Rec>, a: nat)
    requires a < n <= |ops|
  {
    var i, end := NodesMade(ops, a), EndOf(ops, n, a);
    && i < |recs| && recs[i].started == ops[a].now
    && recs[i].duration == if end.Some? then Some(end.value - ops[a].now) else None
  }

  /** The nodes on the path to the active one are those of the open brackets. */
  ghost predicate Bracketed(ops: seq<Op>, n: nat, f: Flat)
    requires n <= |ops|
  {
    && WellFormed(f) && |f.recs| == NodesMade(ops, n) && (f.recs != [] <==> Begun(ops, n))
    && Path(f.recs, f.current) == Nodes(ops, Open(ops, n))
  }

  ghost predicate AllSpan(ops: seq<Op>, n: nat, recs: seq<Rec>)
    requires n <= |ops|
  {
    forall a | 0 <= a < n && Opens(ops, a) :: Spans(ops, n, recs, a)
  }

  /** The trace after the first `n` calls. */
  function After(ops: seq<Op>, n: nat): (f: Flat)
    requires n <= |ops|
    ensures WellFormed(f)
  {
    if n == 0 then EMPTY else Step(After(ops, n - 1), ops[n - 1])
  }

  lemma {:induction false} AfterIsRun(ops: seq<Op>, n: nat)
    requires n <= |ops|
    ensures After(ops, n) == Run(EMPTY, ops[..n])
  {
    if n > 0 {
      AfterIsRun(ops, n - 1);
      assert ops[..n][..n - 1] == ops[..n - 1];
    }
  }

  function Clock(ops: seq<Op>, from: int, n: nat): int
    requires n <= |ops|
  {
    if n == 0 then from else ops[n - 1].now
  }

  /** What a finish does that does not fail for the clock: it ends the active node, if there
      is one. */
  predicate Ends(f: Flat, now: int, g: Flat) {
    && WellFormed(f) && WellFormed(g)
    && if f.current == -1 then g == f
       else
         var r := f.recs[f.current];
         r.duration == None && g == Flat(f.recs[f.current := r.(duration := Some(now - r.started))], r.parent)
  }

  lemma PathEnd(f: Flat)
    requires WellFormed(f)
    ensures var path := Path(f.recs, f.current);
            (path == [] <==> f.current == -1) && (path != [] ==> path[|path| - 1] == f.current)
  {
  }

  lemma StartBrackets(ops: seq<Op>, n: nat, f: Flat)
    requires n < |ops| && ops[n].Start? && Bracketed(ops, n, f)
    ensures Bracketed(ops, n + 1, Step(f, ops[n]))
  {
    PathEnd(f);
    assert Begun(ops, n + 1) by { assert ops[n].Start?; }
    if Opens(ops, n) { OneMoreBracket(ops, n, f, Step(f, ops[n])); }
  }

  lemma OneMoreBracket(ops: seq<Op>, n: nat, f: Flat, g: Flat)
    requires n < |ops| && Opens(ops, n) && Bracketed(ops, n, f) && Begun(ops, n + 1)
    requires WellFormed(g) && g == Flat(f.recs + [Rec(ops[n].now, None, f.current)], |f.recs|)
    ensures Bracketed(ops, n + 1, g)
  {
    PathSame(f.recs, g.recs, f.current);
    assert Path(g.recs, |f.recs|) == Path(f.recs, f.current) + [|f.recs|];
    assert Open(ops, n + 1) == Open(ops, n) + [n];
    assert Nodes(ops, Open(ops, n + 1)) == Nodes(ops, Open(ops, n)) + [NodesMade(ops, n)];
  }

  lemma StartOpens(ops: seq<Op>, n: nat, f: Flat)
    requires n < |ops| && ops[n].Start? && Bracketed(ops, n, f)
    ensures Step(f, ops[n]) == if Opens(ops, n) then Flat(f.recs + [Rec(ops[n].now, None, f.current)], |f.recs|) else f
  {
    PathEnd(f);
  }

  lemma StartSpans(ops: seq<Op>, n: nat, recs: seq<Rec>, parent: int)
    requires n < |ops| && ops[n].Start? && |recs| == NodesMade(ops, n) && AllSpan(ops, n, recs)
    ensures AllSpan(ops, n + 1, if Opens(ops, n) then recs + [Rec(ops[n].now, None, parent)] else recs)
  {
    var more := if Opens(ops, n) then recs + [Rec(ops[n].now, None, parent)] else recs;
    forall a | 0 <= a < n + 1 && Opens(ops, a) ensures Spans(ops, n + 1, more, a) {
      if a < n {
        assert Spans(ops, n, recs, a);
        SpansOn(ops, n, recs, more, a);
      } else {
        NewSpans(ops, n, more);
      }
    }
  }

  lemma NewSpans(ops: seq<Op>, n: nat, recs: seq<Rec>)
    requires n < |ops| && ops[n].Start? && NodesMade(ops, n) < |recs|
    requires recs[NodesMade(ops, n)].started == ops[n].now && recs[NodesMade(ops, n)].duration == None
    ensures Spans(ops, n + 1, recs, n)
  {
    NotYetEnded(ops, n, n);
  }

  lemma {:induction false} NotYetEnded(ops: seq<Op>, n: nat, a: nat)
    requires n <= a && n <= |ops|
    ensures EndOf(ops, n, a) == None && ActiveTime(ops, n, a) == 0
  {
    if n > 0 {
      NotYetEnded(ops, n - 1, a);
    }
  }

  lemma FinishBrackets(ops: seq<Op>, n: nat, f: Flat, g: Flat)
    requires n < |ops| && ops[n].Finish? && Bracketed(ops, n, f) && Ends(f, ops[n].now, g)
    ensures Bracketed(ops, n + 1, g)
  {
    var open := Open(ops, n);
    PathEnd(f);
    SameStarts(ops, n);
    if f.current != -1 {
      var path, parent := Path(f.recs, f.current), f.recs[f.current].parent;
      assert path == Path(f.recs, parent) + [f.current];
      PathSame(f.recs, g.recs, parent);
      assert Path(g.recs, parent) == path[..|path| - 1];
      assert Nodes(ops, open[..|open| - 1]) == Nodes(ops, open)[..|open| - 1];
    }
  }

  lemma SameStarts(ops: seq<Op>, n: nat)
    requires n < |ops| && ops[n].Finish?
    ensures Begun(ops, n + 1) == Begun(ops, n) && NodesMade(ops, n + 1) == NodesMade(ops, n)
  {
  }

  /** A call that does not close its bracket leaves a node alone. */
  lemma SpansOn(ops: seq<Op>, n: nat, recs: seq<Rec>, others: seq<Rec>, a: nat)
    requires a < n < |ops| && Spans(ops, n, recs, a) && !(ops[n].Finish? && Innermost(ops, n, a))
    requires |recs| <= |others| && recs[NodesMade(ops, a)] == others[NodesMade(ops, a)]
    ensures Spans(ops, n + 1, others, a)
  {
  }

  lemma SpansEnd(ops: seq<Op>, n: nat, recs: seq<Rec>, others: seq<Rec>, a: nat)
    requires a < n < |ops| && Spans(ops, n, recs, a) && ops[n].Finish? && Innermost(ops, n, a)
    requires |recs| == |others|
    requires var r := recs[NodesMade(ops, a)];
             others[NodesMade(ops, a)] == r.(duration := Some(ops[n].now - r.started))
    ensures Spans(ops, n + 1, others, a)
  {
  }

  lemma FinishEnds(f: Flat, clock: int, now: int)
    requires Inv(f, clock) && clock <= now
    ensures Ends(f, now, Step(f, Finish(now)))
  {
    ActiveIsOpen(f);
  }

  lemma FinishSpans(ops: seq<Op>, n: nat, f: Flat, g: Flat)
    requires n < |ops| && ops[n].Finish? && Bracketed(ops, n, f) && AllSpan(ops, n, f.recs)
    requires Ends(f, ops[n].now, g)
    ensures AllSpan(ops, n + 1, g.recs)
  {
    if f.current == -1 {
      PathEnd(f);
      forall b | 0 <= b < n + 1 && Opens(ops, b) ensures Spans(ops, n + 1, f.recs, b) {
        assert Spans(ops, n, f.recs, b);
        SpansOn(ops, n, f.recs, f.recs, b);
      }
    } else {
      InnermostIsActive(ops, n, f);
      FinishOne(ops, n, f, g.recs, Open(ops, n)[|Open(ops, n)| - 1]);
    }
  }

  lemma InnermostIsActive(ops: seq<Op>, n: nat, f: Flat)
    requires n <= |ops| && Bracketed(ops, n, f) && f.current != -1
    ensures Open(ops, n) != []
    ensures var a := Open(ops, n)[|Open(ops, n)| - 1]; Opens(ops, a) && NodesMade(ops, a) == f.current
  {
    PathEnd(f);
    OpenOpens(ops, n);
  }

  lemma FinishOne(ops: seq<Op>, n: nat, f: Flat, recs: seq<Rec>, a: nat)
    requires n < |ops| && ops[n].Finish? && AllSpan(ops, n, f.recs) && 0 <= f.current < |f.recs|
    requires Innermost(ops, n, a) && Opens(ops, a) && a < n && NodesMade(ops, a) == f.current
    requires var r := f.recs[f.current]; recs == f.recs[f.current := r.(duration := Some(ops[n].now - r.started))]
    ensures AllSpan(ops, n + 1, recs)
  {
    forall b | 0 <= b < n + 1 && Opens(ops, b) ensures Spans(ops, n + 1, recs, b) {
      assert Spans(ops, n, f.recs, b);
      if b == a {
        SpansEnd(ops, n, f.recs, recs, a);
      } else {
        OtherNodes(ops, a, b);
        SpansOn(ops, n, f.recs, recs, b);
      }
    }
  }

  ghost predicate Accounted(ops: seq<Op>, n: nat, f: Flat)
    requires n <= |ops|
  {
    Bracketed(ops, n, f) && AllSpan(ops, n, f.recs)
  }

  lemma NoneAccounted(ops: seq<Op>)
    ensures Accounted(ops, 0, EMPTY)
  {
  }

  lemma StepAccounted(ops: seq<Op>, n: nat, f: Flat, clock: int)
    requires n < |ops| && Accounted(ops, n, f) && Inv(f, clock) && clock <= ops[n].now
    ensures Accounted(ops, n + 1, Step(f, ops[n]))
  {
    match ops[n]
    case Start(_) => StartAccounted(ops, n, f);
    case Finish(_) =>
      FinishEnds(f, clock, ops[n].now);
      FinishAccounted(ops, n, f, Step(f, ops[n]));
  }

  lemma StartAccounted(ops: seq<Op>, n: nat, f: Flat)
    requires n < |ops| && ops[n].Start? && Accounted(ops, n, f)
    ensures Accounted(ops, n + 1, Step(f, ops[n]))
  {
    assert Bracketed(ops, n + 1, Step(f, ops[n])) by { StartBrackets(ops, n, f); }
    assert AllSpan(ops, n + 1, Step(f, ops[n]).recs) by {
      StartOpens(ops, n, f);
      StartSpans(ops, n, f.recs, f.current);
    }
  }

  lemma FinishAccounted(ops: seq<Op>, n: nat, f: Flat, g: Flat)
    requires n < |ops| && ops[n].Finish? && Accounted(ops, n, f) && Ends(f, ops[n].now, g)
    ensures Accounted(ops, n + 1, g)
  {
    FinishBrackets(ops, n, f, g);
    FinishSpans(ops, n, f, g);
  }

  // ---------------------------------------------------------------- exclusive time

  /** How long a node has lasted at clock reading `clock`. */
  function Elapsed(r: Rec, clock: int): int {
    if r.duration.Some? then r.duration.value else clock - r.started
  }

  /** How long the children of node `i` among the first `n` nodes have lasted. */
  function ChildrenElapsed(recs: seq<Rec>, i: int, n: nat, clock: int): int
    requires n <= |recs|
  {
    if n == 0 then 0
    else ChildrenElapsed(recs, i, n - 1, clock) + if recs[n - 1].parent == i then Elapsed(recs[n - 1], clock) else 0
  }

  /** The time node `i` has lasted without its children. */
  function Own(recs: seq<Rec>, i: nat, clock: int): int
    requires i < |recs|
  {
    Elapsed(recs[i], clock) - ChildrenElapsed(recs, i, |recs|, clock)
  }

  predicate OpenChild(recs: seq<Rec>, i: int, j: int)
    requires 0 <= j < |recs|
  {
    recs[j].parent == i && recs[j].duration.None?
  }

  /** As the clock goes on, the children's time grows with the one that is open, if any. */
  lemma {:induction false} NoOpenChild(recs: seq<Rec>, i: int, n: nat, before: int, now: int)
    requires n <= |recs| && forall j | 0 <= j < n :: !OpenChild(recs, i, j)
    ensures ChildrenElapsed(recs, i, n, now) == ChildrenElapsed(recs, i, n, before)
  {
    if n > 0 {
      assert !OpenChild(recs, i, n - 1);
      NoOpenChild(recs, i, n - 1, before, now);
    }
  }

  lemma {:induction false} OneOpenChild(recs: seq<Rec>, i: int, n: nat, before: int, now: int, child: nat)
    requires child < n <= |recs| && OpenChild(recs, i, child)
    requires forall j | 0 <= j < n && j != child :: !OpenChild(recs, i, j)
    ensures ChildrenElapsed(recs, i, n, now) == ChildrenElapsed(recs, i, n, before) + now - before
  {
    if child == n - 1 {
      NoOpenChild(recs, i, n - 1, before, now);
    } else {
      assert !OpenChild(recs, i, n - 1);
      OneOpenChild(recs, i, n - 1, before, now, child);
    }
  }

  /** Below the active node, the path goes on through a child. */
  lemma {:induction false} NextOnPath(recs: seq<Rec>, c: int, i: int) returns (child: nat)
    requires forall j | 0 <= j < |recs| :: -1 <= recs[j].parent < j
    requires -1 <= c < |recs| && i in Path(recs, c) && i != c
    ensures child < |recs| && child in Path(recs, c) && recs[child].parent == i
    decreases c + 1
  {
    if recs[c].parent == i {
      child := c;
    } else {
      child := NextOnPath(recs, recs[c].parent, i);
    }
  }

  /** Only the active node's own time goes on with the clock. */
  lemma ClockGoesOn(f: Flat, clock: int, i: nat, now: int)
    requires Inv(f, clock) && i < |f.recs|
    ensures Own(f.recs, i, now) == Own(f.recs, i, clock) + if i == f.current then now - clock else 0
  {
    var recs := f.recs;
    if recs[i].duration.Some? {
      forall j | 0 <= j < |recs| ensures !OpenChild(recs, i, j) {
        if recs[j].parent == i { assert Nested(recs, j); }
      }
      NoOpenChild(recs, i, |recs|, clock, now);
    } else if i == f.current {
      PathBelow(recs, f.current);
      forall j | 0 <= j < |recs| ensures !OpenChild(recs, i, j) {
        if recs[j].parent == i { assert recs[j].duration.None? <==> j in Path(recs, f.current); }
      }
      NoOpenChild(recs, i, |recs|, clock, now);
    } else {
      assert i in Path(recs, f.current);
      var child := NextOnPath(recs, f.current, i);
      forall j | 0 <= j < |recs| && j != child ensures !OpenChild(recs, i, j) {
        if recs[j].parent == i && j < child { assert Before(recs[j], recs[child]); }
      }
      OneOpenChild(recs, i, |recs|, clock, now, child);
    }
  }

  lemma {:induction false} SameChildren(recs: seq<Rec>, others: seq<Rec>, i: int, n: nat, clock: int)
    requires n <= |recs| && n <= |others|
    requires forall j | 0 <= j < n ::
               recs[j].parent == others[j].parent && Elapsed(recs[j], clock) == Elapsed(others[j], clock)
    ensures ChildrenElapsed(recs, i, n, clock) == ChildrenElapsed(others, i, n, clock)
  {
    if n > 0 {
      SameChildren(recs, others, i, n - 1, clock);
    }
  }

  lemma {:induction false} NoChildrenYet(recs: seq<Rec>, i: int, n: nat, clock: int)
    requires n <= |recs| && forall j | 0 <= j < n :: recs[j].parent < i
    ensures ChildrenElapsed(recs, i, n, clock) == 0
  {
    if n > 0 {
      NoChildrenYet(recs, i, n - 1, clock);
    }
  }

  /** At the moment of a call it changes nobody's own time, and a new node has none yet. */
  lemma CallChangesNone(f: Flat, clock: int, op: Op, i: nat)
    requires Inv(f, clock) && clock <= op.now && i < |f.recs|
    ensures |f.recs| <= |Step(f, op).recs|
    ensures Own(Step(f, op).recs, i, op.now) == Own(f.recs, i, op.now)
  {
    match op
    case Finish(now) =>
      FinishEnds(f, clock, now);
      SameChildren(f.recs, Step(f, op).recs, i, |f.recs|, now);
    case Start(now) => StartChangesNone(f, now, i);
  }

  lemma StartChangesNone(f: Flat, now: int, i: nat)
    requires WellFormed(f) && i < |f.recs|
    ensures |f.recs| <= |Step(f, Start(now)).recs|
    ensures Own(Step(f, Start(now)).recs, i, now) == Own(f.recs, i, now)
  {
    SameChildren(f.recs, Step(f, Start(now)).recs, i, |f.recs|, now);
  }

  lemma NoneOfItsOwn(f: Flat, now: int)
    requires WellFormed(f) && |f.recs| < |Step(f, Start(now)).recs|
    ensures Own(Step(f, Start(now)).recs, |f.recs|, now) == 0
  {
    var recs := Step(f, Start(now)).recs;
    NoChildrenYet(recs, |f.recs|, |recs|, now);
  }

  /** So far, each node's own time is the time its bracket was the innermost one. */
  ghost predicate AllActive(ops: seq<Op>, n: nat, recs: seq<Rec>, clock: int)
    requires n <= |ops|
  {
    forall a | 0 <= a < n && Opens(ops, a) ::
      NodesMade(ops, a) < |recs| && Own(recs, NodesMade(ops, a), clock) == ActiveTime(ops, n, a)
  }

  lemma OldActive(ops: seq<Op>, n: nat, f: Flat, clock: int, a: nat)
    requires a < n < |ops| && Opens(ops, a) && clock == ops[n - 1].now <= ops[n].now
    requires Inv(f, clock) && Bracketed(ops, n, f) && NodesMade(ops, a) < |f.recs|
    requires Own(f.recs, NodesMade(ops, a), clock) == ActiveTime(ops, n, a)
    ensures Own(Step(f, ops[n]).recs, NodesMade(ops, a), ops[n].now) == ActiveTime(ops, n + 1, a)
  {
    var i := NodesMade(ops, a);
    CallChangesNone(f, clock, ops[n], i);
    ClockGoesOn(f, clock, i, ops[n].now);
    ActiveIsInnermost(ops, n, f, a);
  }

  lemma NewActive(ops: seq<Op>, n: nat, f: Flat, clock: int)
    requires n < |ops| && Opens(ops, n) && clock <= ops[n].now
    requires Inv(f, clock) && NodesMade(ops, n) == |f.recs| < |Step(f, ops[n]).recs|
    ensures Own(Step(f, ops[n]).recs, NodesMade(ops, n), ops[n].now) == ActiveTime(ops, n + 1, n)
  {
    NoneOfItsOwn(f, ops[n].now);
    NotYetEnded(ops, n, n);
    NeverInnermostBefore(ops, n, n);
  }

  lemma ActiveIsInnermost(ops: seq<Op>, n: nat, f: Flat, a: nat)
    requires a < n <= |ops| && Opens(ops, a) && Bracketed(ops, n, f)
    ensures f.current == NodesMade(ops, a) <==> Innermost(ops, n, a)
  {
    PathEnd(f);
    if f.current != -1 {
      InnermostIsActive(ops, n, f);
      var b := Open(ops, n)[|Open(ops, n)| - 1];
      if a != b { OtherNodes(ops, a, b); }
    }
  }

  lemma NeverInnermostBefore(ops: seq<Op>, n: nat, a: nat)
    requires n <= a && n <= |ops|
    ensures !Innermost(ops, n, a)
  {
  }

  lemma StepActive(ops: seq<Op>, n: nat, f: Flat, clock: int)
    requires n < |ops| && clock <= ops[n].now && (n > 0 ==> clock == ops[n - 1].now)
    requires Inv(f, clock) && Bracketed(ops, n, f) && AllActive(ops, n, f.recs, clock)
    requires |Step(f, ops[n]).recs| == NodesMade(ops, n + 1)
    ensures AllActive(ops, n + 1, Step(f, ops[n]).recs, ops[n].now)
  {
    var recs := Step(f, ops[n]).recs;
    forall a | 0 <= a < n + 1 && Opens(ops, a)
      ensures NodesMade(ops, a) < |recs| && Own(recs, NodesMade(ops, a), ops[n].now) == ActiveTime(ops, n + 1, a)
    {
      NodesGrow(ops, a, n + 1);
      if a < n {
        OldActive(ops, n, f, clock, a);
      } else {
        NewActive(ops, n, f, clock);
      }
    }
  }

  /** All of this, after `n` calls. */
  ghost predicate Holds(ops: seq<Op>, n: nat, f: Flat, clock: int) {
    && n <= |ops| && (n > 0 ==> clock == ops[n - 1].now)
    && Inv(f, clock) && Accounted(ops, n, f) && AllActive(ops, n, f.recs, clock)
  }

  lemma StepHolds(ops: seq<Op>, n: nat, f: Flat, clock: int)
    requires n < |ops| && clock <= ops[n].now && Holds(ops, n, f, clock)
    ensures Holds(ops, n + 1, Step(f, ops[n]), ops[n].now)
  {
    StepKeeps(f, clock, ops[n]);
    StepAccounted(ops, n, f, clock);
    StepActive(ops, n, f, clock);
  }

  lemma NoneHolds(ops: seq<Op>, from: int)
    ensures Holds(ops, 0, EMPTY, from)
  {
    NoneAccounted(ops);
  }

  lemma ClockRuns(ops: seq<Op>, from: int, n: nat)
    requires Timely(ops, from) && n < |ops|
    ensures Clock(ops, from, n) <= ops[n].now
  {
  }

  lemma {:induction false} AlwaysHolds(ops: seq<Op>, from: int, n: nat)
    requires Timely(ops, from) && n <= |ops|
    ensures Holds(ops, n, After(ops, n), Clock(ops, from, n))
  {
    if n == 0 {
      NoneHolds(ops, from);
    } else {
      AlwaysHolds(ops, from, n - 1);
      ClockRuns(ops, from, n - 1);
      StepHolds(ops, n - 1, After(ops, n - 1), Clock(ops, from, n - 1));
    }
  }

  lemma {:induction false} AllChildrenClosed(recs: seq<Rec>, i: int, n: nat, clock: int)
    requires n <= |recs| && forall j | 0 <= j < n :: !OpenChild(recs, i, j)
    ensures ChildrenElapsed(recs, i, n, clock) == ChildSum(recs, i, n)
  {
    if n > 0 {
      assert !OpenChild(recs, i, n - 1);
      AllChildrenClosed(recs, i, n - 1, clock);
    }
  }

  lemma ClosedInside(recs: seq<Rec>, i: nat)
    requires AllNested(recs) && i < |recs| && recs[i].duration.Some?
    ensures forall j | 0 <= j < |recs| :: !OpenChild(recs, i, j)
  {
    forall j | 0 <= j < |recs| ensures !OpenChild(recs, i, j) {
      if recs[j].parent == i { assert Nested(recs, j); }
    }
  }

  lemma OwnIsExclusive(recs: seq<Rec>, clock: int, i: nat)
    requires AllNested(recs) && SiblingsApart(recs) && i < |recs|
    requires recs[i].duration.Some? && recs[i].duration.value >= 0
    ensures Exclusive(recs, i) == Some(Own(recs, i, clock))
  {
    ClampNeverBites(recs, i);
    ClosedInside(recs, i);
    AllChildrenClosed(recs, i, |recs|, clock);
  }

  /** After any calls under a non-decreasing clock there is one node for each bracket opened, in
      that order. It started at the reading of the call that opened it; it lasted from there to
      the reading of the finish that closed it, if one did. */
  lemma NodeTimes(ops: seq<Op>, from: int, a: nat)
    requires Timely(ops, from) && Opens(ops, a)
    ensures |Run(EMPTY, ops).recs| == NodesMade(ops, |ops|)
    ensures Spans(ops, |ops|, Run(EMPTY, ops).recs, a)
  {
    AlwaysHolds(ops, from, |ops|);
    AfterIsRun(ops, |ops|);
    assert ops[..|ops|] == ops;
  }

  /** After any calls under a non-decreasing clock, the exclusive duration of a node that has
      ended is the time between calls during which its bracket was the innermost one. */
  lemma ExclusiveIsActiveTime(ops: seq<Op>, from: int, a: nat)
    requires Timely(ops, from) && Opens(ops, a) && EndOf(ops, |ops|, a).Some?
    ensures var recs, i := Run(EMPTY, ops).recs, NodesMade(ops, a);
            i < |recs| && Exclusive(recs, i) == Some(ActiveTime(ops, |ops|, a))
  {
    var n := |ops|;
    AlwaysHolds(ops, from, n);
    AfterIsRun(ops, n);
    assert ops[..n] == ops;
    EndedActive(ops, After(ops, n), Clock(ops, from, n), a);
  }

  lemma EndedActive(ops: seq<Op>, f: Flat, clock: int, a: nat)
    requires Holds(ops, |ops|, f, clock) && Opens(ops, a) && EndOf(ops, |ops|, a).Some?
    ensures NodesMade(ops, a) < |f.recs|
    ensures Exclusive(f.recs, NodesMade(ops, a)) == Some(ActiveTime(ops, |ops|, a))
  {
    assert Spans(ops, |ops|, f.recs, a);
    OwnIsExclusive(f.recs, clock, NodesMade(ops, a));
  }
}
