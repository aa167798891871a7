/** `TraceNode` and `Trace`: the mutable tree with parent pointers and a cursor, proved to
    make exactly the steps of the model. */
module Traces {
  import opened TraceModel
  import opened Wrappers

  /** A node object. Its position among all nodes of its trace tells it from the others. */
  class TraceNode {
    const started: int
    ghost const position: nat
    var finished: Option<int>
    var duration: Option<int>
    var parent: TraceNode?
    var children: seq<TraceNode>

    constructor (started: int, ghost position: nat)
      ensures this.started == started && this.position == position && finished == None && duration == None
      ensures parent == null && children == []
    {
      this.started, this.position := started, position;
      finished, duration, parent, children := None, None, null, [];
    }

    /** `TraceNode.finish`: idempotent, and refuses to end before it started. */
    method Finish(now: int) returns (r: Result<int, TraceError>)
      modifies `finished, `duration
      ensures old(duration).Some? ==>
                r == Ok(old(duration).value) && duration == old(duration) && finished == old(finished)
      ensures old(duration).None? && now < started ==>
                r == Err(FinishBeforeStart) && duration == None && finished == old(finished)
      ensures old(duration).None? && now >= started ==>
                r == Ok(now - started) && duration == Some(now - started) && finished == Some(now)
    {
      if duration.Some? {
        return Ok(duration.value);
      }
      if now < started {
        return Err(FinishBeforeStart);
      }
      finished := Some(now);
      duration := Some(now - started);
      return Ok(now - started);
    }

    /** `TraceNode.add_child`: a node has one parent for ever. */
    method AddChild(child: TraceNode) returns (ok: bool)
      modifies this`children, child`parent
      ensures ok == (old(child.parent) == null)
      ensures ok ==> children == old(children) + [child] && child.parent == this
      ensures !ok ==> children == old(children) && child.parent == old(child.parent)
    {
      if child.parent != null {
        return false;
      }
      children := children + [child];
      child.parent := this;
      return true;
    }
  }

  /** The positions of the children of node `i`, in the order they were started. */
  function ChildrenOf(recs: seq<Rec>, i: int): (r: seq<int>)
    ensures forall k | 0 <= k < |r| :: 0 <= r[k] < |recs| && recs[r[k]].parent == i
  {
    if recs == [] then []
    else
      var n := |recs| - 1;
      ChildrenOf(recs[..n], i) + if recs[n].parent == i then [n] else []
  }

  function Pick<T>(nodes: seq<T>, at: seq<int>): (r: seq<T>)
    requires forall k | 0 <= k < |at| :: 0 <= at[k] < |nodes|
    ensures |r| == |at| && forall k | 0 <= k < |r| :: r[k] == nodes[at[k]]
  {
    seq(|at|, k requires 0 <= k < |at| => nodes[at[k]])
  }

  /** Node object `i` is node `i` of the model: times, parent pointer and child list agree. */
  ghost predicate Represents(nodes: seq<TraceNode>, recs: seq<Rec>, i: int)
    reads nodes
  {
    && 0 <= i < |recs| == |nodes| && -1 <= recs[i].parent < |recs|
    && nodes[i].position == i && nodes[i].started == recs[i].started && nodes[i].duration == recs[i].duration
    && nodes[i].finished == (if recs[i].duration.Some? then Some(End(recs[i])) else None)
    && nodes[i].parent == (if recs[i].parent == -1 then null else nodes[recs[i].parent])
    && nodes[i].children == Pick(nodes, ChildrenOf(recs, i))
  }

  ghost predicate AllRepresented(nodes: seq<TraceNode>, recs: seq<Rec>)
    reads nodes
  {
    |nodes| == |recs| && forall i | 0 <= i < |nodes| :: Represents(nodes, recs, i)
  }

  class Trace {
    var root: TraceNode?
    var current: TraceNode?
    ghost var nodes: seq<TraceNode>
    ghost var model: Flat

    ghost predicate Valid()
      reads this, nodes
    {
      && WellFormed(model) && |model.recs| == |nodes|
      && root == (if nodes == [] then null else nodes[0])
      && current == (if model.current == -1 then null else nodes[model.current])
      && AllRepresented(nodes, model.recs)
    }

    constructor ()
      ensures Valid() && model == EMPTY
    {
      root, current, nodes, model := null, null, [], EMPTY;
    }

    /** `Trace.start`. */
    method Start(now: int) returns (r: Result<TraceNode, TraceError>)
      requires Valid()
      modifies this, nodes
      ensures Valid() && model == Step(old(model), TraceModel.Start(now))
      ensures match r
              case Ok(node) =>
                && Started(old(model), now).Ok? && current == node && nodes == old(nodes) + [node]
                && node.started == now && node.parent == old(current) && node.duration == None
              case Err(e) => Started(old(model), now) == Err(e) && nodes == old(nodes)
    {
      if root != null && current == null {
        return Err(AlreadyFinished);
      }
      var node := new TraceNode(now, |nodes|);
      Enter(node);
      return Ok(node);
    }

    /** Takes a new node into the trace. */
    method Enter(node: TraceNode)
      requires Valid() && (root == null <==> current == null) && node !in nodes
      requires node.position == |nodes| && node.finished == None && node.duration == None
      requires node.parent == null && node.children == []
      modifies this, nodes, node
      ensures Valid() && nodes == old(nodes) + [node] && current == node && node.parent == old(current)
      ensures node.duration == None
      ensures model == Flat(old(model.recs) + [Rec(node.started, None, old(model.current))], |old(nodes)|)
    {
      ghost var n, c, recs, olds := |nodes|, model.current, model.recs, nodes;
      ghost var rec := Rec(node.started, None, c);
      if root != null {
        Distinct(c);
        assert Represents(nodes, recs, c);
      }
      Attach(node);
      assert forall i | 0 <= i < n && i != c :: unchanged(olds[i]);
      forall i | 0 <= i < n ensures Linked(olds, node, recs, rec, i) {
        assert old(Represents(olds, recs, i));
      }
      Extends(olds, node, recs, rec);
      nodes := olds + [node];
      model := Flat(recs + [rec], n);
    }

    /** The node becomes the root, or a child of the active node; and the active node. */
    method Attach(node: TraceNode)
      requires (root == null <==> current == null) && node.parent == null && node != current
      modifies `root, `current, (if current == null then {} else {current})`children, node`parent
      ensures root == (if old(root) == null then node else old(root)) && current == node
      ensures node.parent == old(current)
      ensures old(current) != null ==> old(current).children == old(current.children) + [node]
    {
      if root == null {
        root := node;
      } else {
        var added := current.AddChild(node);
      }
      current := node;
    }

    /** Other nodes than the one at `c` are other objects. */
    lemma Distinct(c: int)
      requires Valid() && 0 <= c < |nodes|
      ensures forall i | 0 <= i < |nodes| && i != c :: nodes[i] != nodes[c]
    {
      assert Represents(nodes, model.recs, c);
      assert forall i | 0 <= i < |nodes| :: Represents(nodes, model.recs, i) && nodes[i].position == i;
    }

    /** `Trace.finish`: ends the active node and makes its parent active again. */
    method Finish(now: int) returns (r: Result<int, TraceError>)
      requires Valid()
      modifies this, nodes
      ensures Valid() && nodes == old(nodes) && model == Step(old(model), TraceModel.Finish(now))
      ensures match r
              case Ok(d) =>
                && Finished(old(model), now).Ok? && old(current) != null
                && current == old(current.parent) && old(current).duration == Some(d)
                && (old(current.duration).None? ==>
                      d == now - old(current).started && old(current).finished == Some(now))
              case Err(e) =>
                && current == old(current)
                && (e == NoActiveNode <==> old(current) == null)
                && (old(current) != null ==> now < old(current).started && old(current.duration).None?)
                && Finished(old(model), now) == Err(e)
    {
      if current == null {
        return Err(NoActiveNode);
      }
      ghost var c := model.current;
      var node := current;
      Distinct(c);
      assert Represents(nodes, model.recs, c);
      r := node.Finish(now);
      if r.Ok? {
        current := node.parent;
        ghost var rec := model.recs[c];
        ghost var recs := model.recs[c := rec.(duration := Some(r.value))];
        model := Flat(recs, rec.parent);
        assert forall i | 0 <= i < |nodes| && i != c :: unchanged(nodes[i]);
        forall i | 0 <= i < |nodes| ensures Represents(nodes, recs, i) {
          assert old(Represents(nodes, model.recs, i));
          SameTree(nodes, old(model).recs, recs, i);
        }
        assert model == Step(old(model), TraceModel.Finish(now));
      }
    }

    /** `Trace.finish_all`, given the clock readings it will make: finishes the active node
        and its ancestors one after the other, and stops at the first that fails. It
        terminates because the cursor climbs. */
    method FinishAll(readings: seq<int>) returns (r: Result<nat, TraceError>)
      requires Valid() && |readings| > model.current
      modifies this, nodes
      ensures Valid() && nodes == old(nodes)
      ensures match r
              case Ok(k) => k <= |readings| && model == Run(old(model), Finishes(readings[..k])) && current == null
              case Err(e) => exists k :: 0 <= k < |readings| && model == Run(old(model), Finishes(readings[..k]))
                                         && Finished(model, readings[k]) == Err(e)
    {
      var k := 0;
      while current != null
        invariant Valid() && nodes == old(nodes)
        invariant 0 <= k <= |readings| && k + model.current <= old(model).current
        invariant model == Run(old(model), Finishes(readings[..k]))
        decreases model.current
      {
        var d := Finish(readings[k]);
        if d.Err? {
          return Err(d.error);
        }
        MoreFinishes(readings, k);
        k := k + 1;
      }
      return Ok(k);
    }

    /** `exclusive_duration_ns` of node `i`. */
    method ExclusiveDuration(ghost i: nat, node: TraceNode) returns (d: Option<int>)
      requires Valid() && i < |nodes| && node == nodes[i]
      ensures d == Exclusive(model.recs, i)
    {
      assert Represents(nodes, model.recs, i);
      if node.duration.None? {
        return None;
      }
      ghost var at := ChildrenOf(model.recs, i);
      forall k | 0 <= k < |at| ensures node.children[k].duration == model.recs[at[k]].duration {
        assert Represents(nodes, model.recs, at[k]);
      }
      var childDuration := SumDurations(node.children, model.recs, at);
      SpentByAll(model.recs, i);
      return Some(if node.duration.value - childDuration > 0 then node.duration.value - childDuration else 0);
    }
  }

  /** `sum((child.duration_ns or 0) for child in children)`. */
  method SumDurations(children: seq<TraceNode>, ghost recs: seq<Rec>, ghost at: seq<int>) returns (sum: int)
    requires |children| == |at| && forall k | 0 <= k < |at| :: 0 <= at[k] < |recs|
    requires forall k | 0 <= k < |at| :: children[k].duration == recs[at[k]].duration
    ensures sum == SpentAt(recs, at, |at|)
  {
    sum := 0;
    for c := 0 to |children|
      invariant sum == SpentAt(recs, at, c)
    {
      sum := sum + if children[c].duration.Some? then children[c].duration.value else 0;
    }
  }

  /** With the new node linked to its parent, if it has one, old node `i` has the times, the
      parent and the children the model gives it. */
  ghost predicate Linked(nodes: seq<TraceNode>, node: TraceNode, recs: seq<Rec>, rec: Rec, i: int)
    requires 0 <= i < |recs| == |nodes|
    reads nodes
  {
    && -1 <= recs[i].parent < |recs|
    && nodes[i].position == i && nodes[i].started == recs[i].started && nodes[i].duration == recs[i].duration
    && nodes[i].finished == (if recs[i].duration.Some? then Some(End(recs[i])) else None)
    && nodes[i].parent == (if recs[i].parent == -1 then null else nodes[recs[i].parent])
    && nodes[i].children == Pick(nodes, ChildrenOf(recs, i)) + if rec.parent == i then [node] else []
  }

  /** The new node extends the represented tree. */
  lemma Extends(nodes: seq<TraceNode>, node: TraceNode, recs: seq<Rec>, rec: Rec)
    requires |nodes| == |recs| && -1 <= rec.parent < |recs| && rec.duration == None
    requires forall j | 0 <= j < |recs| :: recs[j].parent < j
    requires forall i | 0 <= i < |nodes| :: Linked(nodes, node, recs, rec, i)
    requires node.position == |nodes| && node.started == rec.started
    requires node.finished == None && node.duration == None && node.children == []
    requires node.parent == if rec.parent == -1 then null else nodes[rec.parent]
    ensures AllRepresented(nodes + [node], recs + [rec])
  {
    forall i | 0 <= i < |nodes| ensures Represents(nodes + [node], recs + [rec], i) {
      StillRepresents(nodes, node, recs, rec, i);
    }
    NoneYet(recs, rec);
  }

  lemma StillRepresents(nodes: seq<TraceNode>, node: TraceNode, recs: seq<Rec>, rec: Rec, i: int)
    requires 0 <= i < |recs| == |nodes| && Linked(nodes, node, recs, rec, i)
    ensures Represents(nodes + [node], recs + [rec], i)
  {
    Grown(nodes, node, recs, rec, i);
  }

  /** Times may change as long as node and model change alike; the tree stays. */
  lemma SameTree(nodes: seq<TraceNode>, recs: seq<Rec>, others: seq<Rec>, i: int)
    requires |recs| == |others| == |nodes| && 0 <= i < |nodes| && -1 <= recs[i].parent < |recs|
    requires forall j | 0 <= j < |recs| :: recs[j].parent == others[j].parent
    requires nodes[i].position == i && nodes[i].started == others[i].started
    requires nodes[i].duration == others[i].duration
    requires nodes[i].finished == if others[i].duration.Some? then Some(End(others[i])) else None
    requires nodes[i].parent == if recs[i].parent == -1 then null else nodes[recs[i].parent]
    requires nodes[i].children == Pick(nodes, ChildrenOf(recs, i))
    ensures Represents(nodes, others, i)
  {
    ChildrenSame(recs, others, i);
  }

  /** What one more node does to the child list of node `i`. */
  lemma Grown<T>(nodes: seq<T>, node: T, recs: seq<Rec>, rec: Rec, i: int)
    requires |nodes| == |recs| && 0 <= i < |recs|
    ensures Pick(nodes + [node], ChildrenOf(recs + [rec], i))
            == Pick(nodes, ChildrenOf(recs, i)) + if rec.parent == i then [node] else []
  {
  }

  /** A new node has no children. */
  lemma NoneYet(recs: seq<Rec>, rec: Rec)
    requires forall j | 0 <= j < |recs| :: recs[j].parent < j
    requires rec.parent < |recs|
    ensures ChildrenOf(recs + [rec], |recs|) == []
  {
    assert (recs + [rec])[..|recs|] == recs;
    Childless(recs, |recs|);
  }

  lemma {:induction false} Childless(recs: seq<Rec>, i: int)
    requires forall j | 0 <= j < |recs| :: recs[j].parent < i
    ensures ChildrenOf(recs, i) == []
  {
    if recs != [] {
      Childless(recs[..|recs| - 1], i);
    }
  }

  lemma {:induction false} ChildrenSame(recs: seq<Rec>, others: seq<Rec>, i: int)
    requires |recs| == |others| && forall j | 0 <= j < |recs| :: recs[j].parent == others[j].parent
    ensures ChildrenOf(recs, i) == ChildrenOf(others, i)
  {
    if recs != [] {
      ChildrenSame(recs[..|recs| - 1], others[..|recs| - 1], i);
    }
  }

  function Finishes(readings: seq<int>): (r: seq<Op>)
    ensures |r| == |readings|
  {
    seq(|readings|, i requires 0 <= i < |readings| => TraceModel.Finish(readings[i]))
  }

  lemma MoreFinishes(readings: seq<int>, k: nat)
    requires k < |readings|
    ensures var ops := Finishes(readings[..k + 1]);
            ops[|ops| - 1] == TraceModel.Finish(readings[k]) && ops[..|ops| - 1] == Finishes(readings[..k])
  {
  }

  /** The time spent by the first `n` of the listed nodes. */
  function SpentAt(recs: seq<Rec>, at: seq<int>, n: nat): int
    requires n <= |at| && forall k | 0 <= k < |at| :: 0 <= at[k] < |recs|
  {
    if n == 0 then 0 else SpentAt(recs, at, n - 1) + Spent(recs[at[n - 1]])
  }

  lemma {:induction false} SpentSame(recs: seq<Rec>, at: seq<int>, more: seq<int>, n: nat)
    requires n <= |at| && at <= more && forall k | 0 <= k < |more| :: 0 <= more[k] < |recs|
    ensures SpentAt(recs, at, n) == SpentAt(recs, more, n)
  {
    if n > 0 {
      SpentSame(recs, at, more, n - 1);
    }
  }

  /** The child list adds up to the children's time. */
  lemma {:induction false} SpentByChildren(recs: seq<Rec>, n: nat, i: int)
    requires n <= |recs|
    ensures var at := ChildrenOf(recs[..n], i);
            SpentAt(recs, at, |at|) == ChildSum(recs, i, n)
  {
    if n > 0 {
      SpentByChildren(recs, n - 1, i);
      var before, after := ChildrenOf(recs[..n - 1], i), ChildrenOf(recs[..n], i);
      assert after == before + if recs[n - 1].parent == i then [n - 1] else [] by {
        assert recs[..n][..n - 1] == recs[..n - 1];
      }
      SpentSame(recs, before, after, |before|);
    }
  }

  lemma SpentByAll(recs: seq<Rec>, i: int)
    ensures var at := ChildrenOf(recs, i); SpentAt(recs, at, |at|) == ChildSum(recs, i, |recs|)
  {
    SpentByChildren(recs, |recs|, i);
    assert recs[..|recs|] == recs;
  }
}
