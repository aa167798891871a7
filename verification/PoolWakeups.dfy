/** When the pool can leave a call asleep beside capacity it could use, refuse a call beside
    such capacity, or lose a slot. */
module PoolWakeups {
  import opened AdaptiveSizing
  import opened PoolModel
  import opened PoolSafety

  /** Capacity no call has taken or reserved. */
  function Free(s: State): int {
    s.pool.sizer.current - |s.pool.inUse|
  }

  /** What the queue could use right now: an idle connection, or a slot to open one in. */
  function Spare(s: State): int {
    if |s.pool.available| > Free(s) then |s.pool.available| else Free(s)
  }

  /** Nothing idle and no slot below the current size. */
  predicate Full(s: State) {
    s.pool.available == [] && |s.pool.inUse| >= s.pool.sizer.current
  }

  /** Calls that were signalled and have yet to look at the pool again. */
  function Signalled(s: State): nat {
    |At(s.frames.phase, Woken)|
  }

  /** Those, and the wake-up that an eviction owes until it gives the lock back. */
  function Coming(s: State): nat {
    Signalled(s) + if s.pool.lock == Closing then 1 else 0
  }

  /** Somebody sleeps in the queue although there is more spare capacity than calls on
      their way to take it. */
  ghost predicate Stranded(s: State) {
    s.pool.waiters != [] && Spare(s) > Coming(s)
  }

  /** Spare capacity beside a queue is covered by calls on their way, up to the wake-ups lost
      since a call last queued. */
  ghost predicate Covered(s: State) {
    s.pool.waiters != [] ==> Spare(s) <= Coming(s) + s.frames.lost
  }

  /** How many slots the sizer is about to gain. */
  function Growth(s: State, e: Event): nat {
    var z := s.pool.sizer;
    match e
    case Metrics => if Pressed(s.pool) && z.current < z.hi then 1 else 0
    case WarmUp(target) =>
      var capped := if target < z.hi then target else z.hi;
      if capped > z.current then capped - z.current else 0
    case _ => 0
  }

  /** A reservation is given back: a creation ends badly while the lock is free, or a call
      that had to wait for the lock gets it. */
  predicate FreesSlot(s: State, e: Event) {
    match e
    case CreateFail(_) => s.pool.lock == Unlocked
    case Cancel(c) => InPhase(s, c, Opening) && s.pool.lock == Unlocked
    case GiveBack(_) => true
    case _ => false
  }

  /** A wake-up is used up for nothing: a signalled call times out or is cancelled, or an
      eviction is cancelled while it closes the connection. */
  predicate WastesWakeup(s: State, e: Event) {
    match e
    case TimeOut(c, _, _) => InPhase(s, c, Woken)
    case Cancel(c) => InPhase(s, c, Woken)
    case CloseCancelled => true
    case _ => false
  }

  /** The events that free capacity, or use up a wake-up, without waking anyone. */
  predicate Lossy(s: State, e: Event) {
    FreesSlot(s, e) || WastesWakeup(s, e) || Growth(s, e) > 0
  }

  /** The condition, on the state before the event, under which a lossy event strands a call. */
  predicate NoSlack(s: State, e: Event) {
    if FreesSlot(s, e) then Free(s) + 1 > Coming(s)
    else if WastesWakeup(s, e) then Spare(s) > Coming(s) - 1
    else Free(s) + Growth(s, e) > Coming(s)
  }

  // ---------------------------------------------------------------- effect of each event

  lemma WokenMoved(s: State, c: Caller, q: Phase)
    requires c in s.frames.phase && q != Woken
    ensures |At(s.frames.phase[c := q], Woken)| == Signalled(s) - (if InPhase(s, c, Woken) then 1 else 0)
    ensures |At(s.frames.phase - {c}, Woken)| == Signalled(s) - (if InPhase(s, c, Woken) then 1 else 0)
  {
    AtMoved(s.frames.phase, c, q);
    AtDropped(s.frames.phase, c);
    assert InPhase(s, c, Woken) <==> c in At(s.frames.phase, Woken);
  }

  lemma CheckEffect(s: State, c: Caller, start: real, now: real)
    requires Calls(s) && Unheld(s, Check(c, start, now)) && Enabled(s, Check(c, start, now))
    ensures var t := CheckStep(s, c, start, now);
            && Coming(t) == Coming(s) - (if InPhase(s, c, Woken) then 1 else 0)
            && (Spare(s) > 0 ==>
                  && t.pool.waiters == s.pool.waiters && t.frames.lost == s.frames.lost
                  && Free(t) == Free(s) - 1 && Spare(t) == Spare(s) - 1)
            && (Spare(s) <= 0 ==> Spare(t) == Spare(s))
  {
    var p := s.pool;
    WokenMoved(s, c, Opening);
    WokenMoved(s, c, Queued);
    if p.available != [] {
      MapPlus(p.inUse, Checked(p.available[0].conn), InUse(now));
    } else {
      MapPlus(p.inUse, Slot(c), Reserved);
    }
  }

  lemma GiveUpEffect(s: State, c: Caller, timedOut: bool, waited: real)
    requires Calls(s) && c in s.frames.phase
    ensures var t := GiveUpStep(s, c, timedOut, waited);
            && Coming(t) == Coming(s) - (if InPhase(s, c, Woken) then 1 else 0)
            && Free(t) == Free(s) && Spare(t) == Spare(s)
            && (t.pool.waiters != [] ==> s.pool.waiters != [])
            && (InPhase(s, c, Woken) ==> t.pool.waiters == s.pool.waiters)
  {
    WokenMoved(s, c, Trying);
    var k := RemovedAt(s.pool.waiters, c);
    if k < |s.pool.waiters| {
      assert s.pool.waiters[k] in s.pool.waiters && Waits(s.pool.waiters, c);
    }
  }

  lemma GiveBackEffect(s: State, c: Caller)
    requires Calls(s) && c in Reserving(s.frames.phase)
    ensures var t := GiveBackStep(s, c);
            && Coming(t) == Coming(s) && Free(t) == Free(s) + 1
            && t.pool.available == s.pool.available && t.pool.waiters == s.pool.waiters
  {
    WokenMoved(s, c, Trying);
    MapMinus(s.pool.inUse, Slot(c));
  }

  lemma MovedEffect(s: State, c: Caller, to: Phase)
    requires Calls(s) && c in Reserving(s.frames.phase) && to in {Opened, Failing, Leaked}
    ensures var t := Moved(s, c, to);
            Coming(t) == Coming(s) && Spare(t) == Spare(s) && Free(t) == Free(s) && t.pool == s.pool
  {
    WokenMoved(s, c, to);
  }

  lemma CancelEffect(s: State, c: Caller)
    requires Calls(s) && Enabled(s, Cancel(c))
    ensures var e, t := Cancel(c), CancelStep(s, c);
            && Coming(t) == Coming(s) - (if WastesWakeup(s, e) then 1 else 0)
            && Free(t) == Free(s) + (if FreesSlot(s, e) then 1 else 0)
            && t.pool.available == s.pool.available
            && (t.pool.waiters != [] ==> s.pool.waiters != [])
            && (Lossy(s, e) ==> t.pool.waiters == s.pool.waiters)
  {
    match s.frames.phase[c]
    case Opening => AbandonEffect(s, c);
    case Opened => LeakEffect(s, c);
    case Failing => LeakEffect(s, c);
    case _ => GiveUpEffect(s, c, false, 0.0);
  }

  lemma AbandonEffect(s: State, c: Caller)
    requires Calls(s) && InPhase(s, c, Opening)
    ensures var t := AbandonStep(s, c);
            && Coming(t) == Coming(s) && Free(t) == Free(s) + (if s.pool.lock == Unlocked then 1 else 0)
            && t.pool.available == s.pool.available && t.pool.waiters == s.pool.waiters
  {
    if s.pool.lock == Unlocked {
      GiveBackEffect(s, c);
    } else {
      MovedEffect(s, c, Failing);
    }
  }

  lemma LeakEffect(s: State, c: Caller)
    requires Calls(s) && c in Reserving(s.frames.phase)
    ensures var t := LeakStep(s, c); Coming(t) == Coming(s) && Free(t) == Free(s) && t.pool == s.pool
  {
    MovedEffect(s, c, Leaked);
  }

  lemma ReturnEffect(s: State, c: Caller, conn: Conn, asBroken: bool)
    requires Checked(conn) in s.pool.inUse && s.pool.lock != Closing
    ensures var t := ReturnStep(s, c, conn, asBroken);
            && Free(t) == Free(s) + 1 && Coming(t) == Coming(s) + (if asBroken then 1 else 0)
            && |t.pool.available| == (if asBroken then |s.pool.available| else |s.pool.available| + 1)
            && t.pool.waiters == s.pool.waiters && t.frames.lost == s.frames.lost
  {
    MapMinus(s.pool.inUse, Checked(conn));
  }

  lemma WakeEffect(s: State)
    requires Calls(s)
    ensures var t := WakeStep(s);
            && Free(t) == Free(s) && Spare(t) == Spare(s) && t.frames.lost == s.frames.lost
            && (if s.pool.waiters == [] then t == s else Coming(t) == Coming(s) + 1)
  {
    if s.pool.waiters != [] {
      HeadWaits(s);
      AtMoved(s.frames.phase, s.pool.waiters[0].caller, Woken);
      assert s.pool.waiters[0].caller !in At(s.frames.phase, Woken);
    }
  }

  lemma CreateDoneEffect(s: State, c: Caller, conn: Conn, spent: real, start: real, now: real)
    requires Calls(s) && Enabled(s, CreateDone(c, conn, spent, start, now))
    ensures var t := Step(s, CreateDone(c, conn, spent, start, now));
            && Coming(t) == Coming(s) && Free(t) == Free(s) && Spare(t) == Spare(s)
            && t.pool.waiters == s.pool.waiters && t.frames.lost == s.frames.lost
  {
    WokenMoved(s, c, Trying);
    MapMinus(s.pool.inUse, Slot(c));
    MapPlus(s.pool.inUse - {Slot(c)}, Checked(conn), InUse(now));
  }

  /** The claim of `Effect` for one event. */
  ghost predicate Tells(s: State, e: Event)
    requires Enabled(s, e)
  {
    var t := Step(s, e);
    && (Covered(s) ==> Covered(t))
    && (!Stranded(s) ==> (Stranded(t) <==> Lossy(s, e) && s.pool.waiters != [] && NoSlack(s, e)))
  }

  lemma ReleaseTells(s: State, c: Caller, conn: Conn)
    requires Inv(s) && Enabled(s, Release(c, conn))
    ensures Tells(s, Release(c, conn))
  {
    if Checked(conn) in s.pool.inUse {
      var t := ReturnStep(s, c, conn, false);
      ReturnEffect(s, c, conn, false);
      ReturnedCalls(s, c, conn, false);
      WakeEffect(t);
    }
  }

  lemma ClosedTells(s: State)
    requires Inv(s) && s.pool.lock == Closing
    ensures Tells(s, Closed)
  {
    WakeEffect(s);
  }

  lemma ResizeTells(s: State, e: Event)
    requires Enabled(s, e) && (e.Metrics? || e.WarmUp?)
    ensures Tells(s, e)
  {
    var t := Step(s, e);
    assert Coming(t) == Coming(s) && t.pool.available == s.pool.available && t.pool.inUse == s.pool.inUse;
    assert t.frames.lost == s.frames.lost + Growth(s, e) && Free(t) <= Free(s) + Growth(s, e);
    assert Growth(s, e) > 0 ==> Free(t) == Free(s) + Growth(s, e);
  }

  lemma CheckTells(s: State, c: Caller, start: real, now: real)
    requires Inv(s) && Enabled(s, Check(c, start, now))
    ensures Tells(s, Check(c, start, now))
  {
    ExclusiveUnheld(s, Check(c, start, now));
    CheckEffect(s, c, start, now);
  }

  lemma TimeOutTells(s: State, c: Caller, start: real, now: real)
    requires Inv(s) && Enabled(s, TimeOut(c, start, now))
    ensures Tells(s, TimeOut(c, start, now))
  {
    GiveUpEffect(s, c, true, now - start);
  }

  lemma CancelTells(s: State, c: Caller)
    requires Inv(s) && Enabled(s, Cancel(c))
    ensures Tells(s, Cancel(c))
  {
    CancelEffect(s, c);
  }

  /** The events of a creation. */
  lemma CreationTells(s: State, e: Event)
    requires Inv(s) && Enabled(s, e) && (e.CreateFail? || e.OpenedLate? || e.CreateDone? || e.GiveBack?)
    ensures Tells(s, e)
  {
    match e
    case CreateFail(c) => GiveBackEffect(s, c); MovedEffect(s, c, Failing);
    case OpenedLate(c) => MovedEffect(s, c, Opened);
    case CreateDone(c, conn, spent, start, now) => CreateDoneEffect(s, c, conn, spent, start, now);
    case GiveBack(c) => GiveBackEffect(s, c);
  }

  lemma Effect(s: State, e: Event)
    requires Inv(s) && Enabled(s, e)
    ensures Tells(s, e)
  {
    match e
    case Arrive(c) => AtMoved(s.frames.phase, c, Trying); assert c !in At(s.frames.phase, Woken);
    case Check(c, start, now) => CheckTells(s, c, start, now);
    case TimeOut(c, start, now) => TimeOutTells(s, c, start, now);
    case Cancel(c) => CancelTells(s, c);
    case Release(c, conn) => ReleaseTells(s, c, conn);
    case Evict(c, conn) => ReturnEffect(s, c, conn, true);
    case Closed => ClosedTells(s);
    case CloseCancelled =>
    case Drained =>
    case Metrics => ResizeTells(s, e);
    case WarmUp(_) => ResizeTells(s, e);
    case _ => CreationTells(s, e);
  }

  // ---------------------------------------------------------------- whole runs

  /** In every interleaving, whatever fails, spare capacity beside a queue is at most the
      calls on their way plus the wake-ups lost since a call last queued. */
  lemma {:induction false} CoveredInEveryRun(s: State, es: seq<Event>)
    requires Inv(s) && Covered(s) && ValidRun(s, es)
    ensures Inv(After(s, es)) && Covered(After(s, es))
    decreases |es|
  {
    if es != [] {
      InvKept(s, es[0]);
      Effect(s, es[0]);
      CoveredInEveryRun(Step(s, es[0]), es[1..]);
    }
  }

  ghost predicate Lossless(s: State, es: seq<Event>)
    requires ValidRun(s, es)
    decreases |es|
  {
    es == [] || (!Lossy(s, es[0]) && Lossless(Step(s, es[0]), es[1..]))
  }

  lemma LossCounted(s: State, e: Event)
    requires Enabled(s, e) && !Lossy(s, e)
    ensures Step(s, e).frames.lost <= s.frames.lost
  {
  }

  lemma {:induction false} LosslessLosesNothing(s: State, es: seq<Event>)
    requires ValidRun(s, es) && Lossless(s, es) && s.frames.lost == 0
    ensures After(s, es).frames.lost == 0
    decreases |es|
  {
    if es != [] {
      LossCounted(s, es[0]);
      LosslessLosesNothing(Step(s, es[0]), es[1..]);
    }
  }

  /** No lost wake-up. In a run without lossy events nobody is stranded; and once every
      call on its way has looked again, a waiting call means no idle connection and no free
      slot. */
  lemma NoLostWakeup(lo: nat, hi: nat, es: seq<Event>)
    requires lo <= hi && ValidRun(Init(lo, hi), es) && Lossless(Init(lo, hi), es)
    ensures var s := After(Init(lo, hi), es);
            !Stranded(s) && (s.pool.waiters != [] && Coming(s) == 0 ==> Full(s))
  {
    CoveredInEveryRun(Init(lo, hi), es);
    LosslessLosesNothing(Init(lo, hi), es);
  }

  /** Exactly when an event strands a call: it is one of the lossy ones, somebody else
      waits, and no call on its way is left over to pick the capacity up. */
  lemma StrandsExactlyWhen(s: State, e: Event)
    requires Inv(s) && Enabled(s, e) && !Stranded(s)
    ensures Stranded(Step(s, e)) <==> Lossy(s, e) && s.pool.waiters != [] && NoSlack(s, e)
  {
    Effect(s, e);
  }

  /** A wake-up goes to the call that queued first. */
  lemma OldestIsWoken(s: State, c: Caller, conn: Conn)
    requires Calls(s) && Ordered(s) && Enabled(s, Release(c, conn)) && Checked(conn) in s.pool.inUse
    requires s.pool.waiters != []
    ensures var t := Step(s, Release(c, conn));
            exists w :: && w in s.pool.waiters && w !in t.pool.waiters && InPhase(t, w.caller, Woken)
                        && (forall v :: v in t.pool.waiters <==> v in s.pool.waiters && v != w)
                        && forall v | v in t.pool.waiters :: w.ticket < v.ticket && InPhase(t, v.caller, Queued)
  {
    var t := Step(s, Release(c, conn));
    CallsKept(s, Release(c, conn));
    var ws := s.pool.waiters;
    assert ws == [ws[0]] + t.pool.waiters;
    assert ws[0] in ws;
    forall v | v in t.pool.waiters ensures ws[0].ticket < v.ticket && InPhase(t, v.caller, Queued) {
      assert Waits(t.pool.waiters, v.caller);
    }
  }

  // ---------------------------------------------------------------- timing out beside capacity

  /** In a run without lossy events, a queued call can time out beside capacity only while at
      least as many calls are on their way as there is capacity. */
  lemma QueuedTimesOutBeside(lo: nat, hi: nat, es: seq<Event>, c: Caller, start: real, now: real)
    requires lo <= hi && ValidRun(Init(lo, hi), es) && Lossless(Init(lo, hi), es)
    requires InPhase(After(Init(lo, hi), es), c, Queued) && Enabled(After(Init(lo, hi), es), TimeOut(c, start, now))
    ensures var u := Step(After(Init(lo, hi), es), TimeOut(c, start, now));
            !Full(u) ==> Coming(u) >= Spare(u) > 0
  {
    var s := After(Init(lo, hi), es);
    NoLostWakeup(lo, hi, es);
    SafeFromStart(lo, hi, es);
    QueuedWaits(s, c);
    GiveUpEffect(s, c, true, now - start);
  }

  lemma QueuedWaits(s: State, c: Caller)
    requires Inv(s) && InPhase(s, c, Queued)
    ensures s.pool.waiters != []
  {
    assert Waits(s.pool.waiters, c);
  }

  /** How many calls look at the pool in a run. */
  function Looks(es: seq<Event>): nat {
    if es == [] then 0 else (if es[0].Check? then 1 else 0) + Looks(es[1..])
  }

  /** Nothing is returned, given back or resized. */
  ghost predicate Calm(s: State, es: seq<Event>)
    requires ValidRun(s, es)
    decreases |es|
  {
    es == [] || (!Moves(s, es[0]) && Calm(Step(s, es[0]), es[1..]))
  }

  predicate Moves(s: State, e: Event)
    requires Enabled(s, e)
  {
    e.Release? || e.Evict? || FreesSlot(s, e) || Step(s, e).pool.sizer.current != s.pool.sizer.current
  }

  lemma CalmStep(s: State, e: Event)
    requires Inv(s) && Enabled(s, e) && !Moves(s, e)
    ensures Spare(Step(s, e)) == if e.Check? && Spare(s) > 0 then Spare(s) - 1 else Spare(s)
  {
    ExclusiveUnheld(s, e);
    match e
    case Check(c, start, now) => CheckEffect(s, c, start, now);
    case TimeOut(c, start, now) => GiveUpEffect(s, c, true, now - start);
    case Cancel(c) => CancelEffect(s, c);
    case CreateFail(c) => MovedEffect(s, c, Failing);
    case CreateDone(c, conn, spent, start, now) => CreateDoneEffect(s, c, conn, spent, start, now);
    case Closed => WakeEffect(s);
    case _ =>
  }

  /** Every look at spare capacity takes one of it, and nothing else does. */
  lemma {:induction false} CalmRun(s: State, es: seq<Event>)
    requires Inv(s) && ValidRun(s, es) && Calm(s, es)
    ensures Inv(After(s, es)) && (Full(After(s, es)) <==> Looks(es) >= Spare(s))
    decreases |es|
  {
    if es != [] {
      InvKept(s, es[0]);
      CalmStep(s, es[0]);
      CalmRun(Step(s, es[0]), es[1..]);
    }
  }

  /** The events that wake the head of the queue. */
  predicate Wakes(s: State, e: Event) {
    s.pool.waiters != [] && (e.Closed? || (e.Release? && Checked(e.conn) in s.pool.inUse))
  }

  lemma WokenSpare(s: State, e: Event)
    requires Inv(s) && Enabled(s, e) && Wakes(s, e)
    ensures var t := Step(s, e);
            && Inv(t) && InPhase(t, s.pool.waiters[0].caller, Woken)
            && Spare(t) == Spare(s) + if e.Release? then 1 else 0
  {
    InvKept(s, e);
    if e.Release? {
      ReturnedCalls(s, e.c, e.conn, false);
      ReturnEffect(s, e.c, e.conn, false);
      WakeEffect(ReturnStep(s, e.c, e.conn, false));
    } else {
      WakeEffect(s);
    }
  }

  /** A signalled call that has not looked yet and now times out is refused beside what it
      was woken for exactly when fewer calls have looked since than was spare after the
      wake-up. */
  lemma RefusedBesideExactlyWhen(s: State, e: Event, c: Caller, es: seq<Event>, start: real, now: real)
    requires Inv(s) && Enabled(s, e) && Wakes(s, e) && s.pool.waiters[0].caller == c
    requires var t := Step(s, e); ValidRun(t, es) && Calm(t, es)
    requires Enabled(After(Step(s, e), es), TimeOut(c, start, now))
    ensures var t := Step(s, e);
            var u := Step(After(t, es), TimeOut(c, start, now));
            && InPhase(t, c, Woken) && Spare(t) == Spare(s) + (if e.Release? then 1 else 0)
            && u.pool.stats.timeouts == After(t, es).pool.stats.timeouts + 1
            && (!Full(u) <==> Looks(es) < Spare(t))
  {
    var t := Step(s, e);
    WokenSpare(s, e);
    CalmRun(t, es);
    GiveUpEffect(After(t, es), c, true, now - start);
  }

  // ---------------------------------------------------------------- slots lost to cancellation

  lemma LeakKept(s: State, c: Caller, e: Event)
    requires Calls(s) && InPhase(s, c, Leaked) && Enabled(s, e)
    ensures InPhase(Step(s, e), c, Leaked)
  {
    match e
    case Release(_, _) => WokenIsOther(s, c, Leaked);
    case Closed => WokenIsOther(s, c, Leaked);
    case _ =>
  }

  lemma WokenIsOther(s: State, c: Caller, p: Phase)
    requires Calls(s) && InPhase(s, c, p) && p != Queued
    ensures InPhase(WakeStep(s), c, p)
    ensures s.pool.waiters != [] ==> s.pool.waiters[0].caller != c
  {
    if s.pool.waiters != [] {
      HeadWaits(s);
    }
  }

  /** A leaked slot stays reserved in every continuation. */
  lemma {:induction false} LeakedSlotNeverReturns(s: State, c: Caller, es: seq<Event>)
    requires Calls(s) && InPhase(s, c, Leaked) && ValidRun(s, es)
    ensures InPhase(After(s, es), c, Leaked) && Slot(c) in After(s, es).pool.inUse
    decreases |es|
  {
    if es == [] {
      assert c in Reserving(s.frames.phase);
    } else {
      CallsKept(s, es[0]);
      LeakKept(s, c, es[0]);
      LeakedSlotNeverReturns(Step(s, es[0]), c, es[1..]);
    }
  }

  /** Some continuation gives the slot of call `c` back. */
  ghost predicate CanReturn(s: State, c: Caller) {
    exists es :: ValidRun(s, es) && Slot(c) !in After(s, es).pool.inUse
  }

  /** A cancelled creation can still give its slot back exactly when the cancellation struck
      in the factory call. At the lock after it, whether the factory had returned a
      connection or raised, the slot is lost in every continuation. */
  lemma SlotReturnsExactlyWhen(s: State, c: Caller)
    requires Inv(s) && Enabled(s, Cancel(c)) && Slot(c) in s.pool.inUse
    ensures CanReturn(Step(s, Cancel(c)), c) <==> InPhase(s, c, Opening)
  {
    var t := Step(s, Cancel(c));
    CallsKept(s, Cancel(c));
    assert c in Reserving(s.frames.phase);
    if InPhase(s, c, Opening) {
      FailingReturns(t, c);
    } else {
      forall es | ValidRun(t, es) ensures Slot(c) in After(t, es).pool.inUse {
        LeakedSlotNeverReturns(t, c, es);
      }
    }
  }

  /** A call waiting for the lock with a slot to give back gets there. */
  lemma FailingReturns(s: State, c: Caller)
    requires Calls(s) && (InPhase(s, c, Failing) || Slot(c) !in s.pool.inUse)
    ensures CanReturn(s, c)
  {
    if Slot(c) !in s.pool.inUse {
      assert ValidRun(s, []) && After(s, []) == s;
    } else if s.pool.lock == Closing {
      WokenIsOther(s, c, Failing);
      OneMoreEvent(s, [], Closed);
      OneMoreEvent(s, [] + [Closed], GiveBack(c));
    } else {
      OneMoreEvent(s, [], GiveBack(c));
    }
  }

  /** The lock is free and nothing has leaked. */
  ghost predicate Sealed(s: State) {
    s.pool.lock == Unlocked && forall c | c in s.frames.phase :: s.frames.phase[c] != Leaked
  }

  /** Without evictions the lock is never held across a suspension, and no slot is lost. */
  lemma {:induction false} OnlyEvictionsLeak(s: State, es: seq<Event>)
    requires Calls(s) && Sealed(s) && ValidRun(s, es)
    requires forall i | 0 <= i < |es| :: !es[i].Evict?
    ensures Sealed(After(s, es))
    decreases |es|
  {
    if es != [] {
      CallsKept(s, es[0]);
      StaysSealed(s, es[0]);
      OnlyEvictionsLeak(Step(s, es[0]), es[1..]);
    }
  }

  lemma StaysSealed(s: State, e: Event)
    requires Calls(s) && Sealed(s) && Enabled(s, e) && !e.Evict?
    ensures Sealed(Step(s, e))
  {
    match e
    case Cancel(c) => assert !HoldsUp(s, c);
    case Release(c, conn) =>
    case _ =>
  }

  /** In every run the leaks are capacity gone: what is idle, held or being created fits into
      what they leave of the maximum, and they only grow. */
  lemma LeaksShrinkCapacity(s: State, es: seq<Event>)
    requires Inv(s) && ValidRun(s, es)
    ensures var t := After(s, es);
            && At(s.frames.phase, Leaked) <= At(t.frames.phase, Leaked)
            && |t.pool.available| + |t.frames.holds| + |Reserving(t.frames.phase) - At(t.frames.phase, Leaked)|
               <= t.pool.sizer.hi - |At(s.frames.phase, Leaked)|
  {
    var t := After(s, es);
    SafeInEveryRun(s, es);
    forall c | c in At(s.frames.phase, Leaked) ensures c in At(t.frames.phase, Leaked) {
      LeakedSlotNeverReturns(s, c, es);
    }
    LeaksTakeSlots(t, At(s.frames.phase, Leaked));
  }

  lemma LeaksTakeSlots(t: State, before: set<Caller>)
    requires Capacity(t) && Slots(t) && before <= At(t.frames.phase, Leaked)
    ensures |t.pool.available| + |t.frames.holds| + |Reserving(t.frames.phase) - At(t.frames.phase, Leaked)|
            <= t.pool.sizer.hi - |before|
  {
    var all, leaks := Reserving(t.frames.phase), At(t.frames.phase, Leaked);
    assert all == (all - leaks) + leaks;
    assert leaks == before + (leaks - before);
  }

  // ---------------------------------------------------------------- it happens

  ghost predicate Reaches(s: State, es: seq<Event>, t: State) {
    ValidRun(s, es) && After(s, es) == t
  }

  lemma ReachesOn(s: State, a: seq<Event>, t: State, b: seq<Event>, u: State)
    requires Reaches(s, a, t) && Reaches(t, b, u)
    ensures Reaches(s, a + b, u)
  {
    RunsJoin(s, a, b);
  }

  lemma InTwo(s: State, a: Event, b: Event)
    requires Enabled(s, a) && Enabled(Step(s, a), b)
    ensures Reaches(s, [a, b], Step(Step(s, a), b))
  {
    assert [a, b][1..] == [b] && [b][1..] == [];
    assert After(Step(s, a), [b]) == Step(Step(s, a), b);
    assert After(s, [a, b]) == After(Step(s, a), [b]);
  }

  /** Call `c` arrives, looks and finds what it finds. */
  function Enters(c: Caller): seq<Event> {
    [Arrive(c), Check(c, 0.0, 0.0)]
  }

  /** Call 1 opens connection 7 in a new pool. */
  const HOLD: seq<Event> := Enters(1) + [CreateDone(1, 7, 0.0, 0.0, 0.0)]

  /** The pool of `n` connections after that. */
  function Holding(n: nat): State {
    State(
      Pool(NewSizer(n, n), Unlocked, [], map[Checked(7) := InUse(0.0)], [], 0, 0,
           Stats(1, 0, 1, 0, 1, 1, 0, 0.0, 0.0, [0.0], [0.0])),
      Frames(map[], {(1, 7)}, 0, 0))
  }

  /** And with calls 2 and 3 queued, where there is room for one. */
  function HoldingQueued(both: bool): State {
    var s := Holding(1);
    var p, f := s.pool, s.frames;
    if both then
      State(p.(waiters := [Waiter(2, 0), Waiter(3, 1)], totalWaiters := 2, stats := p.stats.(requests := 3)),
            f.(phase := map[2 := Queued, 3 := Queued]))
    else
      State(p.(waiters := [Waiter(2, 0)], totalWaiters := 1, stats := p.stats.(requests := 2)),
            f.(phase := map[2 := Queued]))
  }

  /** A pool between 1 and `hi`, with call 1 in the factory and call 2 queued. */
  function OpeningQueued(hi: nat): State {
    State(
      Pool(NewSizer(1, hi), Unlocked, [], map[Slot(1) := Reserved], [Waiter(2, 0)], 0, 1,
           NO_STATS.(requests := 2)),
      Frames(map[1 := Opening, 2 := Queued], {}, 0, 0))
  }

  lemma OneOpening(hi: nat)
    requires hi > 0
    ensures Reaches(Init(1, hi), Enters(1) + Enters(2), OpeningQueued(hi))
  {
    var s := Init(1, hi);
    var t := State(s.pool.(stats := NO_STATS.(requests := 1), inUse := map[Slot(1) := Reserved]),
                   Frames(map[1 := Opening], {}, 0, 0));
    InTwo(s, Arrive(1), Check(1, 0.0, 0.0));
    assert Step(Step(s, Arrive(1)), Check(1, 0.0, 0.0)) == t;
    InTwo(t, Arrive(2), Check(2, 0.0, 0.0));
    assert Step(Step(t, Arrive(2)), Check(2, 0.0, 0.0)) == OpeningQueued(hi);
    ReachesOn(s, Enters(1), t, Enters(2), OpeningQueued(hi));
  }

  lemma Held(n: nat)
    requires n > 0
    ensures Reaches(Init(n, n), HOLD, Holding(n))
  {
    var s := Init(n, n);
    var t := State(s.pool.(stats := NO_STATS.(requests := 1), inUse := map[Slot(1) := Reserved]),
                   Frames(map[1 := Opening], {}, 0, 0));
    InTwo(s, Arrive(1), Check(1, 0.0, 0.0));
    assert Step(Step(s, Arrive(1)), Check(1, 0.0, 0.0)) == t;
    Opens(n, t);
    OneMoreEvent(s, Enters(1), CreateDone(1, 7, 0.0, 0.0, 0.0));
  }

  lemma Opens(n: nat, t: State)
    requires t.pool == Init(n, n).pool.(stats := NO_STATS.(requests := 1), inUse := map[Slot(1) := Reserved])
    requires t.frames == Frames(map[1 := Opening], {}, 0, 0)
    ensures Enabled(t, CreateDone(1, 7, 0.0, 0.0, 0.0)) && Step(t, CreateDone(1, 7, 0.0, 0.0, 0.0)) == Holding(n)
  {
    var u := Step(t, CreateDone(1, 7, 0.0, 0.0, 0.0));
    assert u.pool.inUse == map[Checked(7) := InUse(0.0)] && u.frames.phase == map[] && u.frames.holds == {(1, 7)};
    assert Windowed([], 0.0) == [0.0] && [] + [0.0] == [0.0];
  }

  /** A pool of two, with call 2 in the factory. */
  function HoldingOpening(): State {
    var s := Holding(2);
    State(s.pool.(stats := s.pool.stats.(requests := 2), inUse := s.pool.inUse[Slot(2) := Reserved]),
          s.frames.(phase := map[2 := Opening]))
  }

  lemma HeldOpening()
    ensures Reaches(Init(2, 2), HOLD + Enters(2), HoldingOpening())
  {
    Held(2);
    var s := Holding(2);
    InTwo(s, Arrive(2), Check(2, 0.0, 0.0));
    assert Step(Step(s, Arrive(2)), Check(2, 0.0, 0.0)) == HoldingOpening();
    ReachesOn(Init(2, 2), HOLD, s, Enters(2), HoldingOpening());
  }

  lemma HeldQueued()
    ensures Reaches(Init(1, 1), HOLD + Enters(2), HoldingQueued(false))
    ensures Reaches(Init(1, 1), HOLD + Enters(2) + Enters(3), HoldingQueued(true))
  {
    Held(1);
    InTwo(Holding(1), Arrive(2), Check(2, 0.0, 0.0));
    ReachesOn(Init(1, 1), HOLD, Holding(1), Enters(2), HoldingQueued(false));
    InTwo(HoldingQueued(false), Arrive(3), Check(3, 0.0, 0.0));
    assert Step(Step(HoldingQueued(false), Arrive(3)), Check(3, 0.0, 0.0)).frames.phase
           == map[2 := Queued, 3 := Queued];
    ReachesOn(Init(1, 1), HOLD + Enters(2), HoldingQueued(false), Enters(3), HoldingQueued(true));
  }

  /** A pool of one: a call opens a connection, a second queues, the creation fails. The
      second now sleeps beside a free slot with nothing left to wake it. */
  lemma FailedCreationStrands()
    ensures var es := Enters(1) + Enters(2) + [CreateFail(1)];
            && ValidRun(Init(1, 1), es)
            && Stranded(After(Init(1, 1), es))
            && After(Init(1, 1), es).frames.phase == map[2 := Queued]
  {
    OneOpening(1);
    OneMoreEvent(Init(1, 1), Enters(1) + Enters(2), CreateFail(1));
    SlotFreedBesideWaiter();
  }

  lemma SlotFreedBesideWaiter()
    ensures var t := Step(OpeningQueued(1), CreateFail(1)); Stranded(t) && t.frames.phase == map[2 := Queued]
  {
    var t := Step(OpeningQueued(1), CreateFail(1));
    assert t.frames.phase == map[2 := Queued] && t.pool.inUse == map[];
    assert At(t.frames.phase, Woken) == {};
  }

  /** Reading the metrics grows the pool beside a call that waits, and nobody wakes it. */
  lemma GrowthStrands()
    ensures var es := Enters(1) + Enters(2) + [Metrics];
            ValidRun(Init(1, 2), es) && Stranded(After(Init(1, 2), es))
  {
    OneOpening(2);
    OneMoreEvent(Init(1, 2), Enters(1) + Enters(2), Metrics);
    assert At(OpeningQueued(2).frames.phase, Woken) == {};
  }

  /** A broken connection is handed back, and the release is cancelled while closing it. */
  lemma CancelledEvictionStrands()
    ensures var es := HOLD + Enters(2) + [Evict(1, 7), CloseCancelled];
            ValidRun(Init(1, 1), es) && Stranded(After(Init(1, 1), es))
  {
    HeldQueued();
    var s := HoldingQueued(false);
    InTwo(s, Evict(1, 7), CloseCancelled);
    var t := Step(Step(s, Evict(1, 7)), CloseCancelled);
    assert t.pool.inUse == map[];
    ReachesOn(Init(1, 1), HOLD + Enters(2), s, [Evict(1, 7), CloseCancelled], t);
  }

  /** Call 2 is signalled for the connection that call 1 returns and times out before it
      looks: it is refused beside the idle connection, and call 3 sleeps on beside it. */
  lemma SignalledTimeoutStrands()
    ensures var es := HOLD + Enters(2) + Enters(3) + [Release(1, 7), TimeOut(2, 0.0, 5.0)];
            && ValidRun(Init(1, 1), es)
            && var s := After(Init(1, 1), es);
               s.pool.stats.timeouts == 1 && |s.pool.available| == 1 && Stranded(s)
  {
    HeldQueued();
    Signals();
    Expires();
    var s := HoldingQueued(true);
    InTwo(s, Release(1, 7), TimeOut(2, 0.0, 5.0));
    var u := Step(Step(s, Release(1, 7)), TimeOut(2, 0.0, 5.0));
    ReachesOn(Init(1, 1), HOLD + Enters(2) + Enters(3), s, [Release(1, 7), TimeOut(2, 0.0, 5.0)], u);
  }

  /** After the release: the connection idle, call 2 signalled, call 3 queued. */
  function ReturnedSignalled(): State {
    var s := HoldingQueued(true);
    State(s.pool.(available := [Idle(0.0, 0, 7)], counter := 1, inUse := map[], waiters := [Waiter(3, 1)]),
          s.frames.(phase := map[2 := Woken, 3 := Queued], holds := {}))
  }

  lemma Signals()
    ensures var s := HoldingQueued(true); Enabled(s, Release(1, 7)) && Step(s, Release(1, 7)) == ReturnedSignalled()
  {
    var t := Step(HoldingQueued(true), Release(1, 7));
    assert t.frames.phase == map[2 := Woken, 3 := Queued] && t.frames.holds == {};
    assert t.pool.waiters == [Waiter(3, 1)] && t.pool.inUse == map[];
  }

  lemma Expires()
    ensures var e := TimeOut(2, 0.0, 5.0);
            && Enabled(ReturnedSignalled(), e)
            && var u := Step(ReturnedSignalled(), e);
               u.pool.stats.timeouts == 1 && |u.pool.available| == 1 && Stranded(u)
  {
    var u := Step(ReturnedSignalled(), TimeOut(2, 0.0, 5.0));
    assert u.frames.phase == map[3 := Queued] && u.pool.waiters == [Waiter(3, 1)];
    assert At(u.frames.phase, Woken) == {};
  }

  /** Call 2 opens its connection while call 1's broken one is being closed, and is cancelled
      at the lock: of two slots one is gone. */
  lemma CancelledAtLockLeaks()
    ensures var es := HOLD + Enters(2) + [Evict(1, 7), OpenedLate(2)] + [Cancel(2)];
            && ValidRun(Init(2, 2), es)
            && InPhase(After(Init(2, 2), es), 2, Leaked) && Slot(2) in After(Init(2, 2), es).pool.inUse
  {
    HeldOpening();
    BeginsToClose();
    var t := HoldingOpening();
    InTwo(t, Evict(1, 7), OpenedLate(2));
    ReachesOn(Init(2, 2), HOLD + Enters(2), t, [Evict(1, 7), OpenedLate(2)], ClosingOpened());
    OneMoreEvent(Init(2, 2), HOLD + Enters(2) + [Evict(1, 7), OpenedLate(2)], Cancel(2));
  }

  /** Connection 7 is being closed, and call 2 waits for the lock with its connection open. */
  function ClosingOpened(): State {
    var s := HoldingOpening();
    State(s.pool.(inUse := map[Slot(2) := Reserved], lock := Closing, stats := s.pool.stats.(broken := 1)),
          s.frames.(phase := map[2 := Opened], holds := {}))
  }

  lemma BeginsToClose()
    ensures var s := HoldingOpening();
            && Enabled(s, Evict(1, 7)) && Enabled(Step(s, Evict(1, 7)), OpenedLate(2))
            && Step(Step(s, Evict(1, 7)), OpenedLate(2)) == ClosingOpened()
  {
    var u := Step(Step(HoldingOpening(), Evict(1, 7)), OpenedLate(2));
    assert u.pool.inUse == map[Slot(2) := Reserved] && u.frames.phase == map[2 := Opened] && u.frames.holds == {};
  }
}
