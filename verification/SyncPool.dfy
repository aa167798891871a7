/** `SyncConnectionPool`: the same pool for threads. A blocked call waits on the condition
    variable inside the locked block and always looks at the pool again before it gives up,
    so some steps differ from `AsyncConnectionPool`; the others are shared. */
module SyncPool {
  import opened AdaptiveSizing
  import opened PoolModel
  import opened PoolSafety
  import opened PoolWakeups

  /** `base.pool.waiters` are the threads on the condition variable. A call counts as a
      waiter from the first time it found the pool full until its `finally` block. */
  datatype SyncState = SyncState(base: State, counted: set<Caller>, currentWaiters: nat, totalWaitersEver: nat)

  /** `Shared` steps are those of the other pool. `Look` is one turn of the loop, `Expire`
      the end of a timed wait, `Observe` the resizing half of `metrics()`, and `Leave` the
      `finally` block. */
  datatype SyncEvent =
    | Shared(e: Event)
    | Look(c: Caller, start: real, now: real, expired: bool)
    | Expire(c: Caller)
    | Observe
    | Leave(c: Caller)

  function Start(lo: nat, hi: nat): SyncState {
    SyncState(Init(lo, hi), {}, 0, 0)
  }

  /** Nothing cancels a thread. */
  predicate IsShared(e: Event) {
    !e.Check? && !e.TimeOut? && !e.Cancel? && !e.CloseCancelled? && !e.Metrics?
  }

  predicate CanHappen(s: SyncState, e: SyncEvent) {
    match e
    case Shared(b) => IsShared(b) && (b.Arrive? ==> b.c !in s.counted) && Enabled(s.base, b)
    case Look(c, _, _, _) => s.base.pool.lock != Closing && (InPhase(s.base, c, Trying) || InPhase(s.base, c, Woken))
    case Expire(c) => InPhase(s.base, c, Queued)
    case Observe => s.base.pool.lock != Closing
    case Leave(c) => c in s.counted && c !in s.base.frames.phase
  }

  /** A call past its deadline that found the pool full. */
  function RefuseStep(s: State, c: Caller, waited: real): State {
    State(s.pool.(stats := TimedOut(s.pool.stats, waited)),
          s.frames.(phase := s.frames.phase - {c}))
  }

  /** Counts the call as a waiter, once. */
  function Joined(s: SyncState, c: Caller): SyncState {
    if c in s.counted then s
    else s.(counted := s.counted + {c}, currentWaiters := s.currentWaiters + 1,
            totalWaitersEver := s.totalWaitersEver + 1)
  }

  /** One turn of the loop, under the lock. */
  function LookStep(s: SyncState, c: Caller, start: real, now: real, expired: bool): SyncState {
    if !Full(s.base) then s.(base := CheckStep(s.base, c, start, now))
    else
      Joined(s, c).(base := if expired then RefuseStep(s.base, c, now - start) else CheckStep(s.base, c, start, now))
  }

  /** The thread leaves the condition's queue and is on its way back to the lock. */
  function ExpireStep(s: State, c: Caller): State {
    State(s.pool.(waiters := RemoveWaiter(s.pool.waiters, c)), s.frames.(phase := s.frames.phase[c := Woken]))
  }

  /** The pressure this pool reports: a call still counts while it opens a connection. */
  predicate Pressure(s: SyncState) {
    s.currentWaiters > 0 || Average(s.base.pool.stats.recent) > WAIT_PRESSURE_THRESHOLD_MS
  }

  function SyncStep(s: SyncState, e: SyncEvent): SyncState
    requires CanHappen(s, e)
  {
    match e
    case Shared(b) => s.(base := Step(s.base, b))
    case Look(c, start, now, expired) => LookStep(s, c, start, now, expired)
    case Expire(c) => s.(base := ExpireStep(s.base, c))
    case Observe => s.(base := ResizeStep(s.base, Adjust(s.base.pool.sizer, Pressure(s))))
    case Leave(c) =>
      s.(counted := s.counted - {c}, currentWaiters := if s.currentWaiters > 0 then s.currentWaiters - 1 else 0)
  }

  ghost predicate SyncRun(s: SyncState, es: seq<SyncEvent>)
    decreases |es|
  {
    es == [] || (CanHappen(s, es[0]) && SyncRun(SyncStep(s, es[0]), es[1..]))
  }

  ghost function SyncAfter(s: SyncState, es: seq<SyncEvent>): SyncState
    requires SyncRun(s, es)
    decreases |es|
  {
    if es == [] then s else SyncAfter(SyncStep(s, es[0]), es[1..])
  }

  // ---------------------------------------------------------------- safety

  /** The waiter count is the number of counted calls, among them every blocked one, and
      no call that has yet to look. */
  ghost predicate Counting(s: SyncState) {
    && s.currentWaiters == |s.counted| <= s.totalWaitersEver
    && (forall c | InPhase(s.base, c, Queued) :: c in s.counted)
    && (forall c | InPhase(s.base, c, Trying) :: c !in s.counted)
  }

  ghost predicate SyncInv(s: SyncState) {
    Inv(s.base) && Counting(s)
  }

  lemma RefusedCalls(s: State, c: Caller, waited: real)
    requires Calls(s) && (InPhase(s, c, Trying) || InPhase(s, c, Woken))
    ensures Calls(RefuseStep(s, c, waited))
  {
    assert forall d, ph :: InPhase(RefuseStep(s, c, waited), d, ph) <==> InPhase(s, d, ph) && d != c;
  }

  lemma RefusedKeepsInv(s: State, c: Caller, waited: real)
    requires Inv(s) && (InPhase(s, c, Trying) || InPhase(s, c, Woken))
    ensures Inv(RefuseStep(s, c, waited))
  {
    var t := RefuseStep(s, c, waited);
    RefusedCalls(s, c, waited);
    assert Ledger(t) by { InsideMoved(s.frames.phase, c, Trying); }
    assert Slots(t) by {
      ReservingMoved(s.frames.phase, c, Trying);
      assert Reserving(s.frames.phase) - {c} == Reserving(s.frames.phase);
    }
  }

  lemma ExpiredCalls(s: State, c: Caller)
    requires Calls(s) && InPhase(s, c, Queued)
    ensures Calls(ExpireStep(s, c))
  {
    var t := ExpireStep(s, c);
    RemovedCalls(s.pool.waiters, c);
    assert forall d, ph :: d != c ==> (InPhase(t, d, ph) <==> InPhase(s, d, ph));
  }

  lemma ExpiredKeepsInv(s: State, c: Caller)
    requires Inv(s) && InPhase(s, c, Queued)
    ensures Inv(ExpireStep(s, c))
  {
    var t := ExpireStep(s, c);
    ExpiredCalls(s, c);
    assert Ordered(t) by { RemovedOrdered(s.pool.waiters, c); }
    assert Ledger(t) by { InsideMoved(s.frames.phase, c, Woken); }
    assert Slots(t) by {
      ReservingMoved(s.frames.phase, c, Woken);
      assert Reserving(s.frames.phase) - {c} == Reserving(s.frames.phase);
    }
  }

  lemma ResizedKeepsInv(s: State, pressure: bool)
    requires Inv(s)
    ensures Inv(ResizeStep(s, Adjust(s.pool.sizer, pressure)))
  {
    SamePhases(s, ResizeStep(s, Adjust(s.pool.sizer, pressure)));
  }

  lemma LookKeepsInv(s: SyncState, c: Caller, start: real, now: real, expired: bool)
    requires Inv(s.base) && CanHappen(s, Look(c, start, now, expired))
    ensures Inv(LookStep(s, c, start, now, expired).base)
  {
    if Full(s.base) && expired {
      RefusedKeepsInv(s.base, c, now - start);
    } else {
      InvKept(s.base, Check(c, start, now));
    }
  }

  lemma BaseKept(s: SyncState, e: SyncEvent)
    requires SyncInv(s) && CanHappen(s, e)
    ensures Inv(SyncStep(s, e).base)
  {
    match e
    case Shared(b) => InvKept(s.base, b);
    case Look(c, start, now, expired) => LookKeepsInv(s, c, start, now, expired);
    case Expire(c) => ExpiredKeepsInv(s.base, c);
    case Observe => ResizedKeepsInv(s.base, Pressure(s));
    case Leave(c) =>
  }

  lemma CountingKept(s: SyncState, e: SyncEvent)
    requires SyncInv(s) && CanHappen(s, e)
    ensures Counting(SyncStep(s, e))
  {
    match e
    case Shared(b) => SharedCounting(s, b);
    case Look(c, start, now, expired) => LookCounting(s, c, start, now, expired);
    case Expire(c) =>
      assert forall d, ph | ph != Woken :: InPhase(SyncStep(s, e).base, d, ph) ==> InPhase(s.base, d, ph);
    case Observe => assert forall d, ph :: InPhase(SyncStep(s, e).base, d, ph) <==> InPhase(s.base, d, ph);
    case Leave(c) =>
  }

  lemma LookCounting(s: SyncState, c: Caller, start: real, now: real, expired: bool)
    requires SyncInv(s) && CanHappen(s, Look(c, start, now, expired))
    ensures Counting(LookStep(s, c, start, now, expired))
  {
    var t := LookStep(s, c, start, now, expired);
    assert !Full(s.base) ==> !InPhase(t.base, c, Queued);
    forall d, ph | InPhase(t.base, d, ph) ensures InPhase(s.base, d, ph) || (d == c && ph in {Queued, Opening}) {
    }
  }

  lemma SharedCounting(s: SyncState, b: Event)
    requires SyncInv(s) && CanHappen(s, Shared(b))
    ensures Counting(SyncStep(s, Shared(b)))
  {
    var t := Step(s.base, b);
    forall c | InPhase(t, c, Queued) ensures c in s.counted {
      NoneQueued(s.base, b, c);
    }
    forall c | InPhase(t, c, Trying) ensures c !in s.counted {
      OnlyArrivals(s.base, b, c);
    }
  }

  /** No shared step queues a call. */
  lemma NoneQueued(s: State, b: Event, c: Caller)
    requires Enabled(s, b) && IsShared(b) && InPhase(Step(s, b), c, Queued)
    ensures InPhase(s, c, Queued)
  {
  }

  /** Only an arrival makes one that has yet to look. */
  lemma OnlyArrivals(s: State, b: Event, c: Caller)
    requires Enabled(s, b) && IsShared(b) && InPhase(Step(s, b), c, Trying)
    ensures (b.Arrive? && c == b.c) || InPhase(s, c, Trying)
  {
  }

  /** Everything proved of the other pool's safety holds here too, in every interleaving. */
  lemma {:induction false} SyncSafeInEveryRun(s: SyncState, es: seq<SyncEvent>)
    requires SyncInv(s) && SyncRun(s, es)
    ensures SyncInv(SyncAfter(s, es))
    decreases |es|
  {
    if es != [] {
      BaseKept(s, es[0]);
      CountingKept(s, es[0]);
      SyncSafeInEveryRun(SyncStep(s, es[0]), es[1..]);
    }
  }

  lemma SyncSafeFromStart(lo: nat, hi: nat, es: seq<SyncEvent>)
    requires lo <= hi && SyncRun(Start(lo, hi), es)
    ensures SyncInv(SyncAfter(Start(lo, hi), es))
  {
    SyncSafeInEveryRun(Start(lo, hi), es);
  }

  // ---------------------------------------------------------------- giving up and waking up

  /** Nothing idle, and every slot below the current size held or in the making. */
  ghost predicate Saturated(s: State) {
    s.pool.available == [] && |s.frames.holds| + |Reserving(s.frames.phase)| >= s.pool.sizer.current
  }

  /** The looks of a run that, past their deadline, found the pool saturated. */
  ghost function Refusals(s: SyncState, es: seq<SyncEvent>): nat
    requires SyncRun(s, es)
    decreases |es|
  {
    if es == [] then 0
    else (if es[0].Look? && es[0].expired && Saturated(s.base) then 1 else 0) + Refusals(SyncStep(s, es[0]), es[1..])
  }

  /** In every run, the timeouts counted are exactly the calls refused, past their deadline,
      while the connections held and in the making filled the pool. */
  lemma {:induction false} RefusedOnlyWhenFull(s: SyncState, es: seq<SyncEvent>)
    requires SyncInv(s) && SyncRun(s, es)
    ensures SyncAfter(s, es).base.pool.stats.timeouts == s.base.pool.stats.timeouts + Refusals(s, es)
    decreases |es|
  {
    if es != [] {
      BaseKept(s, es[0]);
      CountingKept(s, es[0]);
      CountsTimeout(s, es[0]);
      RefusedOnlyWhenFull(SyncStep(s, es[0]), es[1..]);
    }
  }

  lemma CountsTimeout(s: SyncState, e: SyncEvent)
    requires SyncInv(s) && CanHappen(s, e)
    ensures SyncStep(s, e).base.pool.stats.timeouts
            == s.base.pool.stats.timeouts + if e.Look? && e.expired && Saturated(s.base) then 1 else 0
  {
    assert Slots(s.base);
  }

  /** How many slots the sizer is about to gain. */
  function SyncGrowth(s: SyncState, e: SyncEvent): nat {
    match e
    case Shared(b) => Growth(s.base, b)
    case Observe => if Pressure(s) && s.base.pool.sizer.current < s.base.pool.sizer.hi then 1 else 0
    case _ => 0
  }

  /** The events that free capacity without notifying anyone. */
  predicate Unnotified(s: SyncState, e: SyncEvent) {
    (e.Shared? && FreesSlot(s.base, e.e)) || SyncGrowth(s, e) > 0
  }

  /** Such an event frees more slots than the calls on their way will take. */
  predicate Overflows(s: SyncState, e: SyncEvent) {
    if e.Shared? && FreesSlot(s.base, e.e) then Free(s.base) + 1 > Coming(s.base)
    else Free(s.base) + SyncGrowth(s, e) > Coming(s.base)
  }

  lemma RefuseEffect(s: State, c: Caller, waited: real)
    requires Full(s)
    ensures !Stranded(RefuseStep(s, c, waited))
  {
  }

  lemma ExpireEffect(s: State, c: Caller)
    requires Calls(s) && InPhase(s, c, Queued)
    ensures var t := ExpireStep(s, c); Coming(t) == Coming(s) + 1 && Spare(t) == Spare(s) && s.pool.waiters != []
  {
    AtMoved(s.frames.phase, c, Woken);
    assert c !in At(s.frames.phase, Woken);
    assert Waits(s.pool.waiters, c);
  }

  lemma ObserveEffect(s: SyncState)
    requires CanHappen(s, Observe) && !Stranded(s.base)
    ensures Stranded(SyncStep(s, Observe).base)
            <==> Unnotified(s, Observe) && s.base.pool.waiters != [] && Overflows(s, Observe)
  {
    var t := SyncStep(s, Observe).base;
    assert Coming(t) == Coming(s.base) && t.pool.available == s.base.pool.available;
    assert SyncGrowth(s, Observe) > 0 ==> Free(t) == Free(s.base) + SyncGrowth(s, Observe);
    assert SyncGrowth(s, Observe) == 0 ==> Free(t) <= Free(s.base);
  }

  /** Exactly when a thread is left asleep beside capacity nobody is coming for. */
  lemma SyncStrandsExactlyWhen(s: SyncState, e: SyncEvent)
    requires SyncInv(s) && CanHappen(s, e) && !Stranded(s.base)
    ensures Stranded(SyncStep(s, e).base) <==> Unnotified(s, e) && s.base.pool.waiters != [] && Overflows(s, e)
  {
    match e
    case Shared(b) => Effect(s.base, b);
    case Look(c, start, now, expired) =>
      if Full(s.base) && expired {
        RefuseEffect(s.base, c, now - start);
      } else {
        Effect(s.base, Check(c, start, now));
      }
    case Expire(c) => ExpireEffect(s.base, c);
    case Observe => ObserveEffect(s);
    case Leave(c) =>
  }

  ghost predicate AllNotified(s: SyncState, es: seq<SyncEvent>)
    requires SyncRun(s, es)
    decreases |es|
  {
    es == [] || (!Unnotified(s, es[0]) && AllNotified(SyncStep(s, es[0]), es[1..]))
  }

  /** No lost wake-up, although threads time out whenever they like: if no creation fails
      and the size does not grow, nobody is ever stranded. */
  lemma {:induction false} SyncNoLostWakeup(s: SyncState, es: seq<SyncEvent>)
    requires SyncInv(s) && !Stranded(s.base) && SyncRun(s, es) && AllNotified(s, es)
    ensures var t := SyncAfter(s, es).base;
            !Stranded(t) && (t.pool.waiters != [] && Coming(t) == 0 ==> Full(t))
    decreases |es|
  {
    if es != [] {
      SyncStrandsExactlyWhen(s, es[0]);
      BaseKept(s, es[0]);
      CountingKept(s, es[0]);
      SyncNoLostWakeup(SyncStep(s, es[0]), es[1..]);
    }
  }

  // ---------------------------------------------------------------- the object

  /** What one turn of the loop in `acquire()` decided. */
  datatype Outcome = Got(conn: Conn) | Open | Wait | MaxConnectionsExceeded

  class SyncConnectionPool {
    const sizer: AdaptiveSizer
    var lock: Lock
    var available: seq<Idle>
    var inUse: map<Key, Entry>
    var blocked: seq<Waiter>
    var counter: nat
    var currentWaiters: nat
    var totalWaitersEver: nat
    var requests: nat
    var hits: nat
    var misses: nat
    var timeouts: nat
    var successes: nat
    var creations: nat
    var brokenEvicted: nat
    var waitTime: real
    var creationTime: real
    var recentWaitsMs: seq<real>
    // The stream the wait histogram has been fed.
    var waitsMs: seq<real>
    // Tells the locks that the condition variable queues apart.
    var tickets: nat
    // Not the pool's own: the calls' flags, where they stand, and who holds which connection.
    var counted: set<Caller>
    var frames: Frames

    function Counts(): Stats
      reads this
    {
      Stats(requests, hits, misses, timeouts, successes, creations, brokenEvicted, waitTime, creationTime,
            recentWaitsMs, waitsMs)
    }

    function Base(): State
      reads this, sizer
    {
      State(Pool(sizer.Model(), lock, available, inUse, blocked, counter, tickets, Counts()), frames)
    }

    function Model(): SyncState
      reads this, sizer
    {
      SyncState(Base(), counted, currentWaiters, totalWaitersEver)
    }

    ghost predicate Valid()
      reads this, sizer
    {
      SyncInv(Model())
    }

    constructor (lo: nat, hi: nat)
      requires lo <= hi
      ensures Model() == Start(lo, hi) && Valid() && fresh(sizer)
    {
      sizer := new AdaptiveSizer(lo, hi);
      lock, available, inUse, blocked, counter, currentWaiters, totalWaitersEver := Unlocked, [], map[], [], 0, 0, 0;
      requests, hits, misses, timeouts, successes, creations, brokenEvicted := 0, 0, 0, 0, 0, 0, 0;
      waitTime, creationTime, recentWaitsMs, waitsMs := 0.0, 0.0, [], [];
      tickets, counted, frames := 0, {}, Frames(map[], {}, 0, 0);
    }

    method RecordAcquire(start: real, now: real, hit: bool)
      modifies `successes, `hits, `waitTime, `recentWaitsMs, `waitsMs
      ensures Counts() == Recorded(old(Counts()), start, now, hit)
    {
      var wait := now - start;
      RecordWait(wait * 1000.0);
      waitTime := waitTime + wait;
      successes := successes + 1;
      if hit {
        hits := hits + 1;
      }
    }

    /** `record_wait`. */
    method RecordWait(waitMs: real)
      modifies `recentWaitsMs, `waitsMs
      ensures recentWaitsMs == Windowed(old(recentWaitsMs), waitMs) && waitsMs == old(waitsMs) + [waitMs]
    {
      waitsMs := waitsMs + [waitMs];
      recentWaitsMs := recentWaitsMs + [waitMs];
      if |recentWaitsMs| > RECENT_WINDOW {
        recentWaitsMs := recentWaitsMs[1..];
      }
    }

    method BeginAcquire(c: Caller)
      requires CanHappen(Model(), Shared(Arrive(c))) && Valid()
      modifies this
      ensures Model() == SyncStep(old(Model()), Shared(Arrive(c))) && Valid()
    {
      Keeps(Shared(Arrive(c)));
      requests := requests + 1;
      frames := frames.(phase := frames.phase[c := Trying]);
    }

    /** The invariant survives the event. */
    lemma Keeps(e: SyncEvent)
      requires CanHappen(Model(), e) && Valid()
      ensures SyncInv(SyncStep(Model(), e))
    {
      BaseKept(Model(), e);
      CountingKept(Model(), e);
    }

    /** One turn of the loop. The call remembers whether it already counts as a waiter. */
    method TryAcquire(c: Caller, start: real, now: real, remaining: real, countedWaiter: bool)
      returns (outcome: Outcome, countedNow: bool)
      requires CanHappen(Model(), Look(c, start, now, remaining <= 0.0)) && Valid()
      requires countedWaiter == (c in counted)
      modifies this
      ensures Model() == SyncStep(old(Model()), Look(c, start, now, remaining <= 0.0)) && Valid()
      ensures countedNow == (c in counted)
      ensures match outcome
              case Got(conn) => (c, conn) in frames.holds && Checked(conn) in inUse
              case Open => InPhase(Base(), c, Opening)
              case Wait => InPhase(Base(), c, Queued)
              case MaxConnectionsExceeded => timeouts == old(timeouts) + 1 && c !in frames.phase
    {
      Keeps(Look(c, start, now, remaining <= 0.0));
      countedNow := countedWaiter;
      if available != [] {
        var conn := PopIdle(c, start, now);
        outcome := Got(conn);
      } else if |inUse| < sizer.current {
        Reserve(c);
        outcome := Open;
      } else {
        outcome, countedNow := JoinOrRefuse(c, start, now, remaining, countedWaiter);
      }
    }

    method PopIdle(c: Caller, start: real, now: real) returns (conn: Conn)
      requires available != []
      modifies `available, `successes, `hits, `waitTime, `recentWaitsMs, `waitsMs, `inUse, `frames
      ensures Base() == CheckStep(old(Base()), c, start, now) && conn == old(available[0].conn)
    {
      RecordAcquire(start, now, true);
      conn := available[0].conn;
      available := available[1..];
      inUse := inUse[Checked(conn) := InUse(now)];
      frames := frames.(phase := frames.phase - {c}, holds := frames.holds + {(c, conn)});
    }

    method Reserve(c: Caller)
      requires available == [] && |inUse| < sizer.current
      modifies `inUse, `frames
      ensures Base() == CheckStep(old(Base()), c, 0.0, 0.0) && InPhase(Base(), c, Opening)
    {
      inUse := inUse[Slot(c) := Reserved];
      frames := frames.(phase := frames.phase[c := Opening]);
    }

    method CountWaiter(c: Caller, countedWaiter: bool)
      requires countedWaiter == (c in counted)
      modifies `currentWaiters, `totalWaitersEver, `counted
      ensures Model() == Joined(old(Model()), c) && c in counted
    {
      if !countedWaiter {
        currentWaiters, totalWaitersEver, counted := currentWaiters + 1, totalWaitersEver + 1, counted + {c};
      }
    }

    /** The rest of the turn when the pool is full: refuse the call or let it wait. */
    method JoinOrRefuse(c: Caller, start: real, now: real, remaining: real, countedWaiter: bool)
      returns (outcome: Outcome, countedNow: bool)
      requires Full(Base()) && countedWaiter == (c in counted)
      modifies this
      ensures Model() == LookStep(old(Model()), c, start, now, remaining <= 0.0)
      ensures countedNow && c in counted
      ensures outcome == if remaining <= 0.0 then MaxConnectionsExceeded else Wait
    {
      CountWaiter(c, countedWaiter);
      countedNow := true;
      if remaining <= 0.0 {
        Refuse(c, now - start);
        outcome := MaxConnectionsExceeded;
      } else {
        Block(c);
        outcome := Wait;
      }
    }

    method Refuse(c: Caller, waited: real)
      modifies `timeouts, `waitTime, `frames
      ensures Base() == RefuseStep(old(Base()), c, waited)
    {
      timeouts, waitTime := timeouts + 1, waitTime + waited;
      frames := frames.(phase := frames.phase - {c});
    }

    /** `_not_empty.wait()`. */
    method Block(c: Caller)
      requires Full(Base())
      modifies `blocked, `tickets, `frames
      ensures forall start, now :: Base() == CheckStep(old(Base()), c, start, now)
    {
      blocked, tickets := blocked + [Waiter(c, tickets)], tickets + 1;
      frames := frames.(phase := frames.phase[c := Queued], lost := 0);
    }

    method WaitTimedOut(c: Caller)
      requires CanHappen(Model(), Expire(c)) && Valid()
      modifies this
      ensures Model() == SyncStep(old(Model()), Expire(c)) && Valid()
    {
      Keeps(Expire(c));
      blocked := RemoveWaiter(blocked, c);
      frames := frames.(phase := frames.phase[c := Woken]);
    }

    /** The factory raised; the handler waits for the lock if it is taken. */
    method CreationFailed(c: Caller)
      requires CanHappen(Model(), Shared(CreateFail(c))) && Valid()
      modifies this
      ensures Model() == SyncStep(old(Model()), Shared(CreateFail(c))) && Valid()
    {
      Keeps(Shared(CreateFail(c)));
      if lock == Unlocked {
        FreeSlot(c);
      } else {
        frames := frames.(phase := frames.phase[c := Failing]);
      }
    }

    method FreeSlot(c: Caller)
      modifies `inUse, `frames
      ensures Base() == GiveBackStep(old(Base()), c)
    {
      inUse := inUse - {Slot(c)};
      frames := frames.(phase := frames.phase - {c}, left := frames.left + 1, lost := frames.lost + 1);
    }

    method CreationDone(c: Caller, conn: Conn, spent: real, start: real, now: real)
      requires CanHappen(Model(), Shared(CreateDone(c, conn, spent, start, now))) && Valid()
      modifies this
      ensures Model() == SyncStep(old(Model()), Shared(CreateDone(c, conn, spent, start, now))) && Valid()
    {
      Keeps(Shared(CreateDone(c, conn, spent, start, now)));
      CheckOutNew(c, conn, spent, start, now);
    }

    method CheckOutNew(c: Caller, conn: Conn, spent: real, start: real, now: real)
      requires Enabled(Base(), CreateDone(c, conn, spent, start, now))
      modifies `successes, `hits, `waitTime, `recentWaitsMs, `waitsMs
      modifies `creations, `creationTime, `misses, `inUse, `frames
      ensures Base() == Step(old(Base()), CreateDone(c, conn, spent, start, now))
    {
      RecordAcquire(start, now, false);
      creations, creationTime, misses := creations + 1, creationTime + spent, misses + 1;
      inUse := (inUse - {Slot(c)})[Checked(conn) := InUse(now)];
      frames := frames.(phase := frames.phase - {c}, holds := frames.holds + {(c, conn)});
    }

    method TakeBack(c: Caller, conn: Conn)
      requires Checked(conn) in inUse
      modifies `inUse, `available, `counter, `frames
      ensures Base() == ReturnStep(old(Base()), c, conn, false)
    {
      var pc := inUse[Checked(conn)];
      PushIdle(if pc.InUse? then pc.createdAt else 0.0, conn);
      inUse := inUse - {Checked(conn)};
      frames := frames.(holds := frames.holds - {(c, conn)});
    }

    method PushIdle(createdAt: real, conn: Conn)
      modifies `available, `counter
      ensures available == Push(old(available), Idle(createdAt, old(counter), conn)) && counter == old(counter) + 1
    {
      available := Push(available, Idle(createdAt, counter, conn));
      counter := counter + 1;
    }

    /** `_not_empty.notify()`. */
    method NotifyOne()
      modifies `blocked, `frames
      ensures Base() == WakeStep(old(Base()))
    {
      if blocked != [] {
        frames := frames.(phase := frames.phase[blocked[0].caller := Woken]);
        blocked := blocked[1..];
      }
    }

    method ReleaseConnection(c: Caller, conn: Conn)
      requires CanHappen(Model(), Shared(Release(c, conn))) && Valid()
      modifies this
      ensures Model() == SyncStep(old(Model()), Shared(Release(c, conn))) && Valid()
    {
      Keeps(Shared(Release(c, conn)));
      if Checked(conn) !in inUse {
        return;
      }
      TakeBack(c, conn);
      NotifyOne();
    }

    /** `release(broken=True)`: the lock is held while the connection is closed. */
    method BeginEviction(c: Caller, conn: Conn)
      requires CanHappen(Model(), Shared(Evict(c, conn))) && Valid()
      modifies this
      ensures Model() == SyncStep(old(Model()), Shared(Evict(c, conn))) && Valid()
    {
      Keeps(Shared(Evict(c, conn)));
      EvictBroken(c, conn);
    }

    method EvictBroken(c: Caller, conn: Conn)
      requires Checked(conn) in inUse
      modifies `inUse, `lock, `brokenEvicted, `frames
      ensures Base() == ReturnStep(old(Base()), c, conn, true)
    {
      inUse, lock, brokenEvicted := inUse - {Checked(conn)}, Closing, brokenEvicted + 1;
      frames := frames.(holds := frames.holds - {(c, conn)});
    }

    method EndEviction()
      requires CanHappen(Model(), Shared(Closed)) && Valid()
      modifies this
      ensures Model() == SyncStep(old(Model()), Shared(Closed)) && Valid()
    {
      Keeps(Shared(Closed));
      NotifyOne();
      lock := Draining;
    }

    /** The resizing half of `metrics()`. */
    method ResizeForMetrics()
      requires CanHappen(Model(), Observe) && Valid()
      modifies this, sizer
      ensures Model() == SyncStep(old(Model()), Observe) && Valid()
    {
      Keeps(Observe);
      var before := sizer.current;
      var size := sizer.AdjustSize(currentWaiters, Average(recentWaitsMs));
      if sizer.current > before {
        frames := frames.(lost := frames.lost + (sizer.current - before));
      }
    }

    /** The `finally` block of a call that counted as a waiter. */
    method FinishAcquire(c: Caller)
      requires CanHappen(Model(), Leave(c)) && Valid()
      modifies this
      ensures Model() == SyncStep(old(Model()), Leave(c)) && Valid()
    {
      Keeps(Leave(c));
      assert currentWaiters > 0;
      currentWaiters := currentWaiters - 1;
      counted := counted - {c};
    }
  }
}
