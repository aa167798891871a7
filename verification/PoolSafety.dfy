/** Capacity, exclusivity, queue discipline and bookkeeping of the pool, in every interleaving. */
module PoolSafety {
  import opened PoolModel
  import Sizing = AdaptiveSizing

  /** min <= current <= max, and idle connections, checked-out connections and reservations
      together never exceed max. */
  ghost predicate Capacity(s: State) {
    && s.pool.sizer.lo <= s.pool.sizer.current <= s.pool.sizer.hi
    && |s.pool.available| + |s.pool.inUse| <= s.pool.sizer.hi
  }

  ghost predicate HeapOrder(available: seq<Idle>) {
    forall i, j | 0 <= i < j < |available| :: Before(available[i], available[j])
  }

  ghost predicate DistinctConns(available: seq<Idle>) {
    forall i, j | 0 <= i < j < |available| :: available[i].conn != available[j].conn
  }

  ghost predicate DistinctCallers(ws: seq<Waiter>) {
    forall i, j | 0 <= i < j < |ws| :: ws[i].caller != ws[j].caller
  }

  /** Earlier in the queue means made earlier. */
  ghost predicate Fifo(ws: seq<Waiter>) {
    forall i, j | 0 <= i < j < |ws| :: ws[i].ticket < ws[j].ticket
  }

  ghost predicate Waits(ws: seq<Waiter>, c: Caller) {
    exists w :: w in ws && w.caller == c
  }

  /** The queue holds exactly the queued calls, once each; the reservations are exactly those
      of calls in the factory or past it, and of leaked calls; and nobody is held up by a
      free lock. */
  ghost predicate Calls(s: State) {
    var p, phase := s.pool, s.frames.phase;
    && DistinctCallers(p.waiters)
    && (forall c :: Waits(p.waiters, c) <==> InPhase(s, c, Queued))
    && (forall c :: Slot(c) in p.inUse <==> c in Reserving(phase))
    && (p.lock == Unlocked ==> forall c | c in phase :: !HoldsUp(s, c))
  }

  /** Idle connections are distinct and not checked out; a connection is checked out exactly
      when somebody holds it, and nobody shares it. */
  ghost predicate Exclusive(s: State) {
    var p, holds := s.pool, s.frames.holds;
    && DistinctConns(p.available)
    && (forall i | i in p.available :: Checked(i.conn) !in p.inUse)
    && (forall c, conn | (c, conn) in holds :: Checked(conn) in p.inUse)
    && (forall conn | Checked(conn) in p.inUse :: exists c :: (c, conn) in holds)
    && (forall c, d, conn | (c, conn) in holds && (d, conn) in holds :: c == d)
    && (forall conn | Checked(conn) in p.inUse :: p.inUse[Checked(conn)].InUse?)
  }

  /** The heap pops by check-out time then counter, no two entries tie, events queue in the
      order they were made, and the window holds the newest waits. */
  ghost predicate Ordered(s: State) {
    var p := s.pool;
    && HeapOrder(p.available)
    && (forall i | i in p.available :: i.ticket < p.counter)
    && Fifo(p.waiters)
    && (forall w | w in p.waiters :: w.ticket < p.totalWaiters)
    && p.stats.recent == Newest(p.stats.waits)
  }

  /** Every acquisition, connection and request is accounted for. */
  ghost predicate Ledger(s: State) {
    var p, f := s.pool, s.frames;
    && p.stats.successes == p.stats.hits + p.stats.misses
    && p.stats.misses == p.stats.creations
    && p.stats.creations == |p.available| + |f.holds| + p.stats.broken
    && p.stats.requests == p.stats.successes + p.stats.timeouts + f.left + |Inside(f.phase)|
    && |p.stats.waits| == p.stats.successes
  }

  /** Every entry of `_in_use` belongs to a holder, to a creation under way or to a leak. */
  ghost predicate Slots(s: State) {
    |s.pool.inUse| == |s.frames.holds| + |Reserving(s.frames.phase)|
  }

  ghost predicate Inv(s: State) {
    Capacity(s) && Calls(s) && Exclusive(s) && Ordered(s) && Ledger(s) && Slots(s)
  }

  // ---------------------------------------------------------------- each step keeps it

  lemma Pushed(available: seq<Idle>, e: Idle)
    ensures forall x :: x in Push(available, e) <==> x == e || x in available
  {
  }

  lemma {:induction false} PushKeepsOrder(available: seq<Idle>, e: Idle)
    requires HeapOrder(available) && forall i | i in available :: i.ticket < e.ticket
    ensures HeapOrder(Push(available, e))
  {
    if available != [] && !Before(e, available[0]) {
      var rest := Push(available[1..], e);
      PushKeepsOrder(available[1..], e);
      Pushed(available[1..], e);
      assert forall i | 0 <= i < |rest| :: rest[i] in rest;
      assert Push(available, e) == [available[0]] + rest;
    }
  }

  lemma {:induction false} PushedConns(available: seq<Idle>, e: Idle)
    requires DistinctConns(available) && forall i | i in available :: i.conn != e.conn
    ensures DistinctConns(Push(available, e))
  {
    if available != [] && !Before(e, available[0]) {
      var rest := Push(available[1..], e);
      PushedConns(available[1..], e);
      Pushed(available[1..], e);
      assert forall i | 0 <= i < |rest| :: rest[i] in rest;
      assert Push(available, e) == [available[0]] + rest;
    }
  }

  lemma CheckedCapacity(s: State, c: Caller, start: real, now: real)
    requires Capacity(s)
    ensures Capacity(CheckStep(s, c, start, now))
  {
    var p := s.pool;
    if p.available != [] {
      MapPlus(p.inUse, Checked(p.available[0].conn), InUse(now));
    } else {
      MapPlus(p.inUse, Slot(c), Reserved);
    }
  }

  lemma GaveBackCapacity(s: State, c: Caller)
    requires Capacity(s)
    ensures Capacity(GiveBackStep(s, c)) && Capacity(AbandonStep(s, c))
  {
    if Slot(c) in s.pool.inUse {
      MapMinus(s.pool.inUse, Slot(c));
    } else {
      assert s.pool.inUse - {Slot(c)} == s.pool.inUse;
    }
  }

  lemma CancelledCapacity(s: State, c: Caller)
    requires Capacity(s) && c in s.frames.phase
    ensures Capacity(CancelStep(s, c))
  {
    GaveBackCapacity(s, c);
  }

  lemma ReturnedCapacity(s: State, c: Caller, conn: Conn, asBroken: bool)
    requires Capacity(s) && Checked(conn) in s.pool.inUse
    ensures Capacity(ReturnStep(s, c, conn, asBroken))
  {
    MapMinus(s.pool.inUse, Checked(conn));
  }

  lemma CapacityKept(s: State, e: Event)
    requires Capacity(s) && Calls(s) && Enabled(s, e)
    ensures Capacity(Step(s, e))
  {
    match e
    case Check(c, start, now) => CheckedCapacity(s, c, start, now);
    case Cancel(c) => CancelledCapacity(s, c);
    case CreateFail(c) => GaveBackCapacity(s, c);
    case CreateDone(c, conn, _, _, now) =>
      MapMinus(s.pool.inUse, Slot(c));
      MapPlus(s.pool.inUse - {Slot(c)}, Checked(conn), InUse(now));
    case GiveBack(c) => GaveBackCapacity(s, c);
    case Release(c, conn) =>
      if Checked(conn) in s.pool.inUse { ReturnedCapacity(s, c, conn, false); }
    case Evict(c, conn) => ReturnedCapacity(s, c, conn, true);
    case _ =>
  }

  lemma RemovedCalls(ws: seq<Waiter>, c: Caller)
    requires DistinctCallers(ws)
    ensures DistinctCallers(RemoveWaiter(ws, c))
    ensures forall d :: Waits(RemoveWaiter(ws, c), d) <==> Waits(ws, d) && d != c
  {
    var r := RemoveWaiter(ws, c);
    RemovedMembers(ws, c);
    forall d ensures Waits(r, d) <==> Waits(ws, d) && d != c {
      if Waits(ws, d) && d != c {
        var w :| w in ws && w.caller == d;
        assert w in r;
      }
    }
  }

  lemma {:induction false} RemovedMembers(ws: seq<Waiter>, c: Caller)
    requires DistinctCallers(ws)
    ensures DistinctCallers(RemoveWaiter(ws, c))
    ensures forall w :: w in RemoveWaiter(ws, c) <==> w in ws && w.caller != c
  {
    if ws != [] {
      var rest := RemoveWaiter(ws[1..], c);
      assert ws == [ws[0]] + ws[1..];
      assert forall i | 0 <= i < |ws[1..]| :: ws[1..][i].caller != ws[0].caller;
      if ws[0].caller != c {
        RemovedMembers(ws[1..], c);
        assert forall i | 0 <= i < |rest| :: rest[i] in rest;
      }
    }
  }

  lemma GaveUpCalls(s: State, c: Caller, timedOut: bool, waited: real)
    requires Calls(s) && (InPhase(s, c, Queued) || InPhase(s, c, Woken) || InPhase(s, c, Trying))
    ensures Calls(GiveUpStep(s, c, timedOut, waited))
  {
    RemovedCalls(s.pool.waiters, c);
    var t := GiveUpStep(s, c, timedOut, waited);
    assert forall d, ph :: InPhase(t, d, ph) <==> InPhase(s, d, ph) && d != c;
  }

  lemma WokenCalls(s: State)
    requires Calls(s)
    ensures Calls(WakeStep(s))
  {
    var ws, t := s.pool.waiters, WakeStep(s);
    if ws != [] {
      var c := ws[0].caller;
      HeadWaits(s);
      forall d ensures Waits(ws[1..], d) <==> Waits(ws, d) && d != c {
        if Waits(ws, d) && d != c {
          var w :| w in ws && w.caller == d;
          assert w in ws[1..];
        }
      }
      assert forall d, ph :: ph != Woken ==> (InPhase(t, d, ph) <==> InPhase(s, d, ph) && d != c);
    }
  }

  lemma QueuedCalls(s: State, c: Caller)
    requires Calls(s) && (InPhase(s, c, Trying) || InPhase(s, c, Woken))
    ensures var p := s.pool;
            Calls(Moved(s, c, Queued).(pool := p.(waiters := p.waiters + [Waiter(c, p.totalWaiters)],
                                                  totalWaiters := p.totalWaiters + 1)))
  {
    var p, t := s.pool, Moved(s, c, Queued);
    var ws := p.waiters + [Waiter(c, p.totalWaiters)];
    assert forall w :: w in ws <==> w in p.waiters || w == Waiter(c, p.totalWaiters);
    forall d ensures Waits(ws, d) <==> Waits(p.waiters, d) || d == c {
      if Waits(p.waiters, d) {
        var w :| w in p.waiters && w.caller == d;
        assert w in ws;
      }
      assert Waiter(c, p.totalWaiters) in ws;
    }
    assert forall i | 0 <= i < |p.waiters| :: p.waiters[i] in p.waiters && Waits(p.waiters, p.waiters[i].caller);
    assert forall d, ph :: d != c ==> (InPhase(t, d, ph) <==> InPhase(s, d, ph));
  }

  lemma CheckedCalls(s: State, c: Caller, start: real, now: real)
    requires Calls(s) && (InPhase(s, c, Trying) || InPhase(s, c, Woken))
    ensures Calls(CheckStep(s, c, start, now))
  {
    var p, t := s.pool, CheckStep(s, c, start, now);
    assert !Waits(p.waiters, c) && Slot(c) !in p.inUse;
    if p.available != [] {
      assert forall d, ph :: InPhase(t, d, ph) <==> InPhase(s, d, ph) && d != c;
    } else if |p.inUse| < p.sizer.current {
      assert forall d, ph :: d != c ==> (InPhase(t, d, ph) <==> InPhase(s, d, ph));
    } else {
      QueuedCalls(s, c);
    }
  }

  lemma MovedCalls(s: State, c: Caller, to: Phase)
    requires Calls(s) && c in Reserving(s.frames.phase) && to in {Opened, Failing, Leaked}
    requires to == Leaked || s.pool.lock != Unlocked
    ensures Calls(Moved(s, c, to))
  {
    var t := Moved(s, c, to);
    assert forall d, ph :: d != c ==> (InPhase(t, d, ph) <==> InPhase(s, d, ph));
  }

  lemma LeakedCalls(s: State, c: Caller)
    requires Calls(s) && c in Reserving(s.frames.phase)
    ensures Calls(LeakStep(s, c))
  {
    MovedCalls(s, c, Leaked);
    assert forall d, ph :: InPhase(LeakStep(s, c), d, ph) <==> InPhase(Moved(s, c, Leaked), d, ph);
  }

  lemma GaveBackCalls(s: State, c: Caller)
    requires Calls(s) && c in Reserving(s.frames.phase)
    ensures Calls(GiveBackStep(s, c))
  {
    assert forall d, ph :: InPhase(GiveBackStep(s, c), d, ph) <==> InPhase(s, d, ph) && d != c;
  }

  lemma CancelledCalls(s: State, c: Caller)
    requires Calls(s) && Enabled(s, Cancel(c))
    ensures Calls(CancelStep(s, c))
  {
    match s.frames.phase[c]
    case Opening =>
      if s.pool.lock == Unlocked { GaveBackCalls(s, c); } else { MovedCalls(s, c, Failing); }
    case Opened => LeakedCalls(s, c);
    case Failing => LeakedCalls(s, c);
    case _ => GaveUpCalls(s, c, false, 0.0);
  }

  lemma ReturnedCalls(s: State, c: Caller, conn: Conn, asBroken: bool)
    requires Calls(s) && Checked(conn) in s.pool.inUse
    ensures Calls(ReturnStep(s, c, conn, asBroken))
  {
    assert forall d, ph :: InPhase(ReturnStep(s, c, conn, asBroken), d, ph) <==> InPhase(s, d, ph);
  }

  lemma SamePhases(s: State, t: State)
    requires Calls(s) && t.frames.phase == s.frames.phase && t.pool.waiters == s.pool.waiters
    requires t.pool.inUse == s.pool.inUse && (t.pool.lock == s.pool.lock || t.pool.lock != Unlocked)
    ensures Calls(t)
  {
    assert forall d, ph :: InPhase(t, d, ph) <==> InPhase(s, d, ph);
  }

  lemma CallsKept(s: State, e: Event)
    requires Calls(s) && Enabled(s, e)
    ensures Calls(Step(s, e))
  {
    var t := Step(s, e);
    match e
    case Arrive(c) => assert forall d, ph :: d != c ==> (InPhase(t, d, ph) <==> InPhase(s, d, ph));
    case Check(c, start, now) => CheckedCalls(s, c, start, now);
    case TimeOut(c, start, now) => GaveUpCalls(s, c, true, now - start);
    case Cancel(c) => CancelledCalls(s, c);
    case CreateFail(c) =>
      if s.pool.lock == Unlocked { GaveBackCalls(s, c); } else { MovedCalls(s, c, Failing); }
    case OpenedLate(c) => MovedCalls(s, c, Opened);
    case CreateDone(c, _, _, _, _) => assert forall d, ph :: InPhase(t, d, ph) <==> InPhase(s, d, ph) && d != c;
    case GiveBack(c) => GaveBackCalls(s, c);
    case Release(c, conn) =>
      if Checked(conn) in s.pool.inUse {
        ReturnedCalls(s, c, conn, false);
        WokenCalls(ReturnStep(s, c, conn, false));
      }
    case Evict(c, conn) => ReturnedCalls(s, c, conn, true);
    case Closed => WokenCalls(s); SamePhases(WakeStep(s), t);
    case CloseCancelled => SamePhases(s, t);
    case Drained => assert forall d, ph :: InPhase(t, d, ph) <==> InPhase(s, d, ph);
    case Metrics => SamePhases(s, t);
    case WarmUp(_) => SamePhases(s, t);
  }

  lemma ReturnedExclusive(s: State, c: Caller, conn: Conn, asBroken: bool)
    requires Exclusive(s) && (c, conn) in s.frames.holds
    ensures Exclusive(ReturnStep(s, c, conn, asBroken))
  {
    var p, t := s.pool, ReturnStep(s, c, conn, asBroken);
    if !asBroken {
      var e := Idle(p.inUse[Checked(conn)].createdAt, p.counter, conn);
      PushedConns(p.available, e);
      Pushed(p.available, e);
    }
    forall x | Checked(x) in t.pool.inUse ensures exists d :: (d, x) in t.frames.holds {
      var d :| (d, x) in s.frames.holds;
      assert (d, x) in t.frames.holds;
    }
  }

  lemma HandedOut(s: State, t: State, c: Caller, conn: Conn, now: real)
    requires Exclusive(s) && Fresh(t, conn)
    requires t.pool.available == s.pool.available
             || (s.pool.available != [] && t.pool.available == s.pool.available[1..])
    requires forall x :: Checked(x) in t.pool.inUse <==> Checked(x) in s.pool.inUse
    requires forall x | Checked(x) in t.pool.inUse :: t.pool.inUse[Checked(x)] == s.pool.inUse[Checked(x)]
    requires t.frames.holds == s.frames.holds
    ensures Exclusive(State(t.pool.(inUse := t.pool.inUse[Checked(conn) := InUse(now)]),
                            t.frames.(holds := t.frames.holds + {(c, conn)})))
  {
  }

  lemma CheckedExclusive(s: State, c: Caller, start: real, now: real)
    requires Exclusive(s)
    ensures Exclusive(CheckStep(s, c, start, now))
  {
    var p := s.pool;
    if p.available != [] {
      var popped := RecordStep(p, start, now, true).(available := p.available[1..]);
      HandedOut(s, s.(pool := popped), c, p.available[0].conn, now);
    }
  }

  lemma CreatedExclusive(s: State, c: Caller, conn: Conn, spent: real, start: real, now: real)
    requires Exclusive(s) && Enabled(s, CreateDone(c, conn, spent, start, now))
    ensures Exclusive(Step(s, CreateDone(c, conn, spent, start, now)))
  {
    var p := s.pool;
    var made := p.(inUse := p.inUse - {Slot(c)}, stats := Created(Recorded(p.stats, start, now, false), spent));
    HandedOut(s, s.(pool := made), c, conn, now);
  }

  lemma ExclusiveKept(s: State, e: Event)
    requires Calls(s) && Exclusive(s) && Enabled(s, e)
    ensures Exclusive(Step(s, e))
  {
    match e
    case Check(c, start, now) => CheckedExclusive(s, c, start, now);
    case CreateDone(c, conn, spent, start, now) => CreatedExclusive(s, c, conn, spent, start, now);
    case Release(c, conn) =>
      if Checked(conn) in s.pool.inUse { ReturnedExclusive(s, c, conn, false); }
    case Evict(c, conn) => ReturnedExclusive(s, c, conn, true);
    case _ =>
  }

  lemma ReturnedOrdered(s: State, c: Caller, conn: Conn, asBroken: bool)
    requires Ordered(s) && Checked(conn) in s.pool.inUse
    ensures Ordered(ReturnStep(s, c, conn, asBroken))
  {
    if !asBroken {
      var p := s.pool;
      var entry := p.inUse[Checked(conn)];
      var i := Idle(if entry.InUse? then entry.createdAt else 0.0, p.counter, conn);
      PushKeepsOrder(p.available, i);
      Pushed(p.available, i);
    }
  }

  lemma GaveUpOrdered(s: State, c: Caller, timedOut: bool, waited: real)
    requires Ordered(s) && c in s.frames.phase
    ensures Ordered(GiveUpStep(s, c, timedOut, waited))
  {
    RemovedOrdered(s.pool.waiters, c);
  }

  lemma OrderedKept(s: State, e: Event)
    requires Ordered(s) && Enabled(s, e)
    ensures Ordered(Step(s, e))
  {
    match e
    case Check(c, start, now) => CheckedOrdered(s, c, start, now);
    case TimeOut(c, start, now) => GaveUpOrdered(s, c, true, now - start);
    case Cancel(c) => GaveUpOrdered(s, c, false, 0.0);
    case Release(c, conn) =>
      if Checked(conn) in s.pool.inUse { ReturnedOrdered(s, c, conn, false); }
    case Evict(c, conn) => ReturnedOrdered(s, c, conn, true);
    case CreateDone(c, conn, spent, start, now) => CreatedOrdered(s, c, conn, spent, start, now);
    case _ =>
  }

  lemma RecordedOrdered(s: State, start: real, now: real, hit: bool)
    requires Ordered(s)
    ensures Ordered(s.(pool := RecordStep(s.pool, start, now, hit)))
  {
    WindowIsNewest(s.pool.stats.waits, (now - start) * 1000.0);
  }

  lemma CreatedOrdered(s: State, c: Caller, conn: Conn, spent: real, start: real, now: real)
    requires Ordered(s) && Enabled(s, CreateDone(c, conn, spent, start, now))
    ensures Ordered(Step(s, CreateDone(c, conn, spent, start, now)))
  {
    RecordedOrdered(s, start, now, false);
  }

  lemma QueuedOrdered(s: State, c: Caller)
    requires Ordered(s)
    ensures var p := s.pool;
            Ordered(s.(pool := p.(waiters := p.waiters + [Waiter(c, p.totalWaiters)],
                                  totalWaiters := p.totalWaiters + 1)))
  {
  }

  lemma CheckedOrdered(s: State, c: Caller, start: real, now: real)
    requires Ordered(s)
    ensures Ordered(CheckStep(s, c, start, now))
  {
    if s.pool.available != [] {
      RecordedOrdered(s, start, now, true);
    } else if |s.pool.inUse| >= s.pool.sizer.current {
      QueuedOrdered(s, c);
    }
  }

  lemma RemovedOrdered(ws: seq<Waiter>, c: Caller)
    requires Fifo(ws)
    ensures Fifo(RemoveWaiter(ws, c))
    ensures forall w :: w in RemoveWaiter(ws, c) ==> w in ws
  {
    var k := RemovedAt(ws, c);
  }

  /** Nobody holds the connection this event is about to hand out, and the pool does not
      count it as checked out. */
  ghost predicate Unheld(s: State, e: Event) {
    && (e.Check? && s.pool.available != [] ==>
          Checked(s.pool.available[0].conn) !in s.pool.inUse && (e.c, s.pool.available[0].conn) !in s.frames.holds)
    && (e.CreateDone? ==> (e.c, e.conn) !in s.frames.holds)
    && ((e.Release? || e.Evict?) && Checked(e.conn) in s.pool.inUse ==> (e.c, e.conn) in s.frames.holds)
  }

  lemma ExclusiveUnheld(s: State, e: Event)
    requires Exclusive(s) && Enabled(s, e)
    ensures Unheld(s, e)
  {
  }

  lemma HeadWaits(s: State)
    requires Calls(s) && s.pool.waiters != []
    ensures InPhase(s, s.pool.waiters[0].caller, Queued)
  {
  }

  lemma InsideMoved(phase: map<Caller, Phase>, c: Caller, q: Phase)
    requires c in phase && phase[c] != Leaked
    ensures |Inside(phase - {c})| == |Inside(phase)| - 1
    ensures |Inside(phase[c := q])| == if q == Leaked then |Inside(phase)| - 1 else |Inside(phase)|
  {
    assert Inside(phase - {c}) == Inside(phase) - {c};
    assert Inside(phase[c := q]) == if q == Leaked then Inside(phase) - {c} else Inside(phase);
  }

  lemma CheckedLedger(s: State, c: Caller, start: real, now: real)
    requires Unheld(s, Check(c, start, now)) && Ledger(s) && c in s.frames.phase && s.frames.phase[c] != Leaked
    ensures Ledger(CheckStep(s, c, start, now))
  {
    InsideMoved(s.frames.phase, c, Opening);
    InsideMoved(s.frames.phase, c, Queued);
  }

  lemma GaveUpLedger(s: State, c: Caller, timedOut: bool, waited: real)
    requires Ledger(s) && c in s.frames.phase && s.frames.phase[c] != Leaked
    ensures Ledger(GiveUpStep(s, c, timedOut, waited))
  {
    InsideMoved(s.frames.phase, c, Trying);
  }

  lemma GaveBackLedger(s: State, c: Caller)
    requires Ledger(s) && c in s.frames.phase && s.frames.phase[c] != Leaked
    ensures Ledger(GiveBackStep(s, c))
  {
    InsideMoved(s.frames.phase, c, Trying);
  }

  lemma MovedLedger(s: State, c: Caller, to: Phase)
    requires Ledger(s) && c in s.frames.phase && s.frames.phase[c] != Leaked
    ensures to != Leaked ==> Ledger(Moved(s, c, to))
    ensures to == Leaked ==> Ledger(LeakStep(s, c))
  {
    InsideMoved(s.frames.phase, c, to);
  }

  lemma CancelledLedger(s: State, c: Caller)
    requires Ledger(s) && c in s.frames.phase && s.frames.phase[c] != Leaked
    ensures Ledger(CancelStep(s, c)) && Ledger(AbandonStep(s, c))
  {
    GaveBackLedger(s, c);
    MovedLedger(s, c, Failing);
    MovedLedger(s, c, Leaked);
    GaveUpLedger(s, c, false, 0.0);
  }

  lemma ReturnedLedger(s: State, c: Caller, conn: Conn, asBroken: bool)
    requires Ledger(s) && Checked(conn) in s.pool.inUse && (c, conn) in s.frames.holds
    ensures Ledger(ReturnStep(s, c, conn, asBroken))
  {
  }

  lemma WokenLedger(s: State)
    requires Calls(s) && Ledger(s)
    ensures Ledger(WakeStep(s))
  {
    if s.pool.waiters != [] {
      HeadWaits(s);
      MovedLedger(s, s.pool.waiters[0].caller, Woken);
    }
  }

  lemma LedgerKept(s: State, e: Event)
    requires Calls(s) && Unheld(s, e) && Ledger(s) && Enabled(s, e)
    ensures Ledger(Step(s, e))
  {
    match e
    case Arrive(c) => assert Inside(s.frames.phase[c := Trying]) == Inside(s.frames.phase) + {c};
    case Check(c, start, now) => CheckedLedger(s, c, start, now);
    case TimeOut(c, start, now) => GaveUpLedger(s, c, true, now - start);
    case Cancel(c) => CancelledLedger(s, c);
    case CreateFail(c) => CancelledLedger(s, c);
    case OpenedLate(c) => MovedLedger(s, c, Opened);
    case CreateDone(c, _, _, _, _) => InsideMoved(s.frames.phase, c, Trying);
    case GiveBack(c) => GaveBackLedger(s, c);
    case Release(c, conn) =>
      if Checked(conn) in s.pool.inUse {
        ReturnedCalls(s, c, conn, false);
        ReturnedLedger(s, c, conn, false);
        WokenLedger(ReturnStep(s, c, conn, false));
      }
    case Evict(c, conn) => ReturnedLedger(s, c, conn, true);
    case Closed => WokenLedger(s);
    case _ =>
  }

  lemma ReservingMoved(phase: map<Caller, Phase>, c: Caller, q: Phase)
    ensures Reserving(phase[c := q])
            == if q in {Opening, Opened, Failing, Leaked} then Reserving(phase) + {c} else Reserving(phase) - {c}
    ensures Reserving(phase - {c}) == Reserving(phase) - {c}
  {
  }

  lemma CheckedSlots(s: State, c: Caller, start: real, now: real)
    requires Calls(s) && Unheld(s, Check(c, start, now)) && Slots(s) && Enabled(s, Check(c, start, now))
    ensures Slots(CheckStep(s, c, start, now))
  {
    var p, phase := s.pool, s.frames.phase;
    assert Slot(c) !in p.inUse;
    if p.available != [] {
      ReservingMoved(phase, c, Queued);
      MapPlus(p.inUse, Checked(p.available[0].conn), InUse(now));
    } else if |p.inUse| < p.sizer.current {
      ReservingMoved(phase, c, Opening);
      MapPlus(p.inUse, Slot(c), Reserved);
    } else {
      ReservingMoved(phase, c, Queued);
    }
  }

  lemma GaveBackSlots(s: State, c: Caller)
    requires Calls(s) && Slots(s) && c in Reserving(s.frames.phase)
    ensures Slots(GiveBackStep(s, c))
  {
    ReservingMoved(s.frames.phase, c, Trying);
    MapMinus(s.pool.inUse, Slot(c));
  }

  lemma ReleasedSlots(s: State, c: Caller, conn: Conn, asBroken: bool)
    requires Calls(s) && Slots(s) && (c, conn) in s.frames.holds && Checked(conn) in s.pool.inUse
    ensures Slots(ReturnStep(s, c, conn, asBroken))
  {
    MapMinus(s.pool.inUse, Checked(conn));
  }

  lemma WokenSlots(s: State)
    requires Calls(s) && Slots(s)
    ensures Slots(WakeStep(s))
  {
    if s.pool.waiters != [] {
      HeadWaits(s);
      ReservingMoved(s.frames.phase, s.pool.waiters[0].caller, Woken);
    }
  }

  lemma CreatedSlots(s: State, c: Caller, conn: Conn, now: real)
    requires Calls(s) && Slots(s) && c in Reserving(s.frames.phase)
    requires Checked(conn) !in s.pool.inUse && (c, conn) !in s.frames.holds
    ensures |(s.pool.inUse - {Slot(c)})[Checked(conn) := InUse(now)]|
            == |s.frames.holds + {(c, conn)}| + |Reserving(s.frames.phase - {c})|
  {
    ReservingMoved(s.frames.phase, c, Trying);
    MapMinus(s.pool.inUse, Slot(c));
    MapPlus(s.pool.inUse - {Slot(c)}, Checked(conn), InUse(now));
  }

  lemma SlotsKept(s: State, e: Event)
    requires Calls(s) && Unheld(s, e) && Slots(s) && Enabled(s, e)
    ensures Slots(Step(s, e))
  {
    var p, phase := s.pool, s.frames.phase;
    match e
    case Arrive(c) => ReservingMoved(phase, c, Trying);
    case Check(c, start, now) => CheckedSlots(s, c, start, now);
    case TimeOut(c, start, now) => GaveUpSlots(s, c, true, now - start);
    case Cancel(c) => CancelledSlots(s, c);
    case CreateFail(c) => AbandonedSlots(s, c);
    case OpenedLate(c) => MovedSlots(s, c, Opened);
    case CreateDone(c, conn, _, _, now) => CreatedSlots(s, c, conn, now);
    case GiveBack(c) => GaveBackSlots(s, c);
    case Release(c, conn) =>
      if Checked(conn) in p.inUse {
        ReturnedCalls(s, c, conn, false);
        ReleasedSlots(s, c, conn, false);
        WokenSlots(ReturnStep(s, c, conn, false));
      }
    case Evict(c, conn) => ReleasedSlots(s, c, conn, true);
    case Closed => WokenSlots(s);
    case _ =>
  }

  lemma MovedSlots(s: State, c: Caller, to: Phase)
    requires Slots(s) && c in Reserving(s.frames.phase) && to in {Opened, Failing, Leaked}
    ensures Slots(Moved(s, c, to))
  {
    ReservingMoved(s.frames.phase, c, to);
    assert Reserving(s.frames.phase) + {c} == Reserving(s.frames.phase);
  }

  lemma GaveUpSlots(s: State, c: Caller, timedOut: bool, waited: real)
    requires Slots(s) && c in s.frames.phase && c !in Reserving(s.frames.phase)
    ensures Slots(GiveUpStep(s, c, timedOut, waited))
  {
    ReservingMoved(s.frames.phase, c, Trying);
    assert Reserving(s.frames.phase) - {c} == Reserving(s.frames.phase);
  }

  lemma AbandonedSlots(s: State, c: Caller)
    requires Calls(s) && Slots(s) && InPhase(s, c, Opening)
    ensures Slots(AbandonStep(s, c))
  {
    GaveBackSlots(s, c);
    MovedSlots(s, c, Failing);
  }

  lemma CancelledSlots(s: State, c: Caller)
    requires Calls(s) && Slots(s) && Enabled(s, Cancel(c))
    ensures Slots(CancelStep(s, c))
  {
    match s.frames.phase[c]
    case Opening => AbandonedSlots(s, c);
    case Opened => MovedSlots(s, c, Leaked);
    case Failing => MovedSlots(s, c, Leaked);
    case _ => GaveUpSlots(s, c, false, 0.0);
  }

  /** The connection handed out is the idle one checked out longest ago. */
  lemma HandsOutOldest(s: State, c: Caller, start: real, now: real)
    requires Ordered(s) && Enabled(s, Check(c, start, now)) && s.pool.available != []
    ensures var t := Step(s, Check(c, start, now));
            exists i :: && i in s.pool.available && (c, i.conn) in t.frames.holds
                        && forall j | j in s.pool.available && j != i :: Before(i, j) && j in t.pool.available
  {
    var i := s.pool.available[0];
    assert i in s.pool.available;
  }

  lemma InvKept(s: State, e: Event)
    requires Inv(s) && Enabled(s, e)
    ensures Inv(Step(s, e))
  {
    CapacityKept(s, e);
    CallsKept(s, e);
    ExclusiveKept(s, e);
    OrderedKept(s, e);
    ExclusiveUnheld(s, e);
    LedgerKept(s, e);
    SlotsKept(s, e);
  }

  /** The pool is safe at the end of every interleaving, from every starting size. */
  lemma {:induction false} SafeInEveryRun(s: State, es: seq<Event>)
    requires Inv(s) && ValidRun(s, es)
    ensures Inv(After(s, es))
    decreases |es|
  {
    if es != [] {
      InvKept(s, es[0]);
      SafeInEveryRun(Step(s, es[0]), es[1..]);
    }
  }

  lemma SafeFromStart(lo: nat, hi: nat, es: seq<Event>)
    requires lo <= hi && ValidRun(Init(lo, hi), es)
    ensures Inv(After(Init(lo, hi), es))
  {
    SafeInEveryRun(Init(lo, hi), es);
  }

  /** What a run does to the sizer: the metrics observe, warm-ups raise. */
  ghost function SizerMoves(s: State, es: seq<Event>): seq<Sizing.Move>
    requires ValidRun(s, es)
    decreases |es|
  {
    if es == [] then []
    else
      (match es[0]
       case Metrics => [Sizing.Observing(Pressed(s.pool))]
       case WarmUp(target) => [Sizing.Raising(target)]
       case _ => [])
      + SizerMoves(Step(s, es[0]), es[1..])
  }

  lemma {:induction false} SizerFollowsMoves(s: State, es: seq<Event>)
    requires ValidRun(s, es)
    ensures var ms := SizerMoves(s, es);
            After(s, es).pool.sizer == Sizing.SizerAt(s.pool.sizer, ms, |ms|)
    decreases |es|
  {
    if es != [] {
      var t := Step(s, es[0]);
      var rest := SizerMoves(t, es[1..]);
      SizerFollowsMoves(t, es[1..]);
      match es[0]
      case Metrics => Sizing.FirstMove(s.pool.sizer, Sizing.Observing(Pressed(s.pool)), rest, |rest|);
      case WarmUp(target) => Sizing.FirstMove(s.pool.sizer, Sizing.Raising(target), rest, |rest|);
      case _ =>
        assert t.pool.sizer == s.pool.sizer;
        assert SizerMoves(s, es) == rest;
    }
  }
}
