/** `AsyncConnectionPool` itself. Each method below `acquire` is one stretch of code between
    two suspensions, proved to make exactly the step of the state machine and to keep the
    pool's invariant; `Acquire` is the retry loop, with whatever other calls do while it is
    suspended as a parameter. */
module AsyncPool {
  import opened AdaptiveSizing
  import opened PoolModel
  import opened PoolSafety
  import opened Wrappers

  /** What one pass through the locked block of `acquire()` decided. */
  datatype Outcome = Got(conn: Conn) | Open | Wait

  datatype AcquireError = MaxConnectionsExceeded | FactoryRaised | Cancelled

  /** How a queued call's sleep ends. */
  datatype Awakening = Signal | Expiry(end: real) | Cancellation

  /** One turn of the loop: the clock at the look; and if the call must queue, what others do
      while it sleeps, and what ends the sleep. */
  datatype Turn = Turn(now: real, others: seq<Event>, ending: Awakening)

  /** How the factory call ends. */
  datatype Product = Opens(conn: Conn) | Raises | IsCancelled

  /** The factory call: what others do meanwhile, and what comes of it, in what time; what
      others do while the call waits for the lock, should it be taken; and whether the call
      is cancelled there. */
  datatype Factory = Factory(
    others: seq<Event>,
    product: Product,
    spent: real,
    late: seq<Event>,
    struck: bool,
    now: real)

  /** The script can be played from `s`, where call `c` is about to look. Where the script
      ends, the call is cancelled while it waits for the lock. */
  ghost predicate Playable(s: State, c: Caller, start: real, turns: seq<Turn>, factory: Factory)
    decreases |turns|
  {
    if turns == [] then InPhase(s, c, Trying) || InPhase(s, c, Woken)
    else
      && TurnPlays(s, c, start, turns[0], factory)
      && (GoesOn(s, c, start, turns[0]) ==> Playable(TurnEnd(s, c, start, turns[0]), c, start, turns[1..], factory))
  }

  ghost predicate TurnPlays(s: State, c: Caller, start: real, turn: Turn, factory: Factory) {
    && Enabled(s, Check(c, start, turn.now))
    && var t := Step(s, Check(c, start, turn.now));
       && (InPhase(t, c, Queued) ==> SleepPlays(t, c, start, turn))
       && (InPhase(t, c, Opening) ==> FactoryPlays(t, c, start, factory))
  }

  ghost predicate SleepPlays(s: State, c: Caller, start: real, turn: Turn) {
    && ValidRun(s, turn.others)
    && var t := After(s, turn.others);
       match turn.ending
       case Signal => InPhase(t, c, Woken)
       case Expiry(end) => Enabled(t, TimeOut(c, start, end))
       case Cancellation => Enabled(t, Cancel(c)) && (InPhase(t, c, Queued) || InPhase(t, c, Woken))
  }

  /** The call queues, and is signalled. */
  predicate GoesOn(s: State, c: Caller, start: real, turn: Turn)
    requires Enabled(s, Check(c, start, turn.now))
  {
    InPhase(Step(s, Check(c, start, turn.now)), c, Queued) && turn.ending.Signal?
  }

  ghost function TurnEnd(s: State, c: Caller, start: real, turn: Turn): State
    requires Enabled(s, Check(c, start, turn.now)) && GoesOn(s, c, start, turn)
    requires SleepPlays(Step(s, Check(c, start, turn.now)), c, start, turn)
  {
    After(Step(s, Check(c, start, turn.now)), turn.others)
  }

  ghost predicate FactoryPlays(s: State, c: Caller, start: real, factory: Factory) {
    && ValidRun(s, factory.others)
    && var t := After(s, factory.others);
       && InPhase(t, c, Opening)
       && if t.pool.lock == Unlocked then
            factory.product.Opens? ==> Enabled(t, Made(c, start, factory))
          else
            var u := Step(t, Comes(c, factory));
            && ValidRun(u, factory.late)
            && var v := After(u, factory.late);
               if factory.struck then HoldsUp(v, c)
               else Enabled(v, if factory.product.Opens? then Made(c, start, factory) else GiveBack(c))
  }

  /** The end of the factory call while the lock is taken. */
  function Comes(c: Caller, factory: Factory): Event {
    match factory.product
    case Opens(_) => OpenedLate(c)
    case Raises => CreateFail(c)
    case IsCancelled => Cancel(c)
  }

  function Made(c: Caller, start: real, factory: Factory): Event
    requires factory.product.Opens?
  {
    CreateDone(c, factory.product.conn, factory.spent, start, factory.now)
  }

  class AsyncConnectionPool {
    const sizer: AdaptiveSizer
    var lock: Lock
    var available: seq<Idle>
    var inUse: map<Key, Entry>
    var waiters: seq<Waiter>
    var counter: nat
    var requests: nat
    var hits: nat
    var misses: nat
    var timeouts: nat
    var successes: nat
    var totalWaiters: nat
    var creations: nat
    var brokenEvicted: nat
    var waitTime: real
    var creationTime: real
    var recentWaitsMs: seq<real>
    // The stream the wait histogram has been fed.
    var waitsMs: seq<real>
    // Not the pool's own: where the suspended calls stand, and who holds which connection.
    var frames: Frames

    function Counts(): Stats
      reads this
    {
      Stats(requests, hits, misses, timeouts, successes, creations, brokenEvicted, waitTime, creationTime,
            recentWaitsMs, waitsMs)
    }

    function Model(): State
      reads this, sizer
    {
      State(Pool(sizer.Model(), lock, available, inUse, waiters, counter, totalWaiters, Counts()), frames)
    }

    ghost predicate Valid()
      reads this, sizer
    {
      Inv(Model())
    }

    constructor (lo: nat, hi: nat)
      requires lo <= hi
      ensures Model() == Init(lo, hi) && Valid() && fresh(sizer)
    {
      sizer := new AdaptiveSizer(lo, hi);
      lock, available, inUse, waiters, counter := Unlocked, [], map[], [], 0;
      requests, hits, misses, timeouts, successes, totalWaiters, creations, brokenEvicted := 0, 0, 0, 0, 0, 0, 0, 0;
      waitTime, creationTime, recentWaitsMs, waitsMs := 0.0, 0.0, [], [];
      frames := Frames(map[], {}, 0, 0);
    }

    method RecordAcquire(start: real, now: real, hit: bool)
      modifies `successes, `hits, `waitTime, `recentWaitsMs, `waitsMs
      ensures Counts() == Recorded(old(Counts()), start, now, hit)
    {
      var wait := now - start;
      RecordWait(wait * 1000.0);
      waitTime := waitTime + wait;
      successes := successes + 1;
      if hit {
        hits := hits + 1;
      }
    }

    /** `record_wait`. */
    method RecordWait(waitMs: real)
      modifies `recentWaitsMs, `waitsMs
      ensures recentWaitsMs == Windowed(old(recentWaitsMs), waitMs) && waitsMs == old(waitsMs) + [waitMs]
    {
      waitsMs := waitsMs + [waitMs];
      recentWaitsMs := recentWaitsMs + [waitMs];
      if |recentWaitsMs| > RECENT_WINDOW {
        recentWaitsMs := recentWaitsMs[1..];
      }
    }

    method BeginAcquire(c: Caller)
      requires Enabled(Model(), Arrive(c)) && Valid()
      modifies this
      ensures Model() == Step(old(Model()), Arrive(c)) && Valid()
    {
      InvKept(Model(), Arrive(c));
      requests := requests + 1;
      frames := frames.(phase := frames.phase[c := Trying]);
    }

    method TryAcquire(c: Caller, start: real, now: real) returns (outcome: Outcome)
      requires Enabled(Model(), Check(c, start, now)) && Valid()
      modifies this
      ensures Model() == Step(old(Model()), Check(c, start, now)) && Valid()
      ensures match outcome
              case Got(conn) => c !in frames.phase && (c, conn) in frames.holds && Checked(conn) in inUse
              case Open => InPhase(Model(), c, Opening)
              case Wait => InPhase(Model(), c, Queued)
    {
      InvKept(Model(), Check(c, start, now));
      outcome := LookAround(c, start, now);
    }

    /** The locked block. */
    method LookAround(c: Caller, start: real, now: real) returns (outcome: Outcome)
      modifies this
      ensures Model() == CheckStep(old(Model()), c, start, now)
      ensures match outcome
              case Got(conn) => c !in frames.phase && (c, conn) in frames.holds && Checked(conn) in inUse
              case Open => InPhase(Model(), c, Opening)
              case Wait => InPhase(Model(), c, Queued)
    {
      if available != [] {
        var conn := PopIdle(c, start, now);
        outcome := Got(conn);
      } else if |inUse| < sizer.current {
        inUse := inUse[Slot(c) := Reserved];
        frames := frames.(phase := frames.phase[c := Opening]);
        outcome := Open;
      } else {
        waiters := waiters + [Waiter(c, totalWaiters)];
        totalWaiters := totalWaiters + 1;
        frames := frames.(phase := frames.phase[c := Queued], lost := 0);
        outcome := Wait;
      }
    }

    method PopIdle(c: Caller, start: real, now: real) returns (conn: Conn)
      requires available != []
      modifies this
      ensures Model() == CheckStep(old(Model()), c, start, now)
      ensures conn == old(available[0].conn)
    {
      RecordAcquire(start, now, true);
      conn := available[0].conn;
      available := available[1..];
      inUse := inUse[Checked(conn) := InUse(now)];
      frames := frames.(phase := frames.phase - {c}, holds := frames.holds + {(c, conn)});
    }

    method WaitTimedOut(c: Caller, start: real, now: real)
      requires Enabled(Model(), TimeOut(c, start, now)) && Valid()
      modifies this
      ensures Model() == Step(old(Model()), TimeOut(c, start, now)) && Valid()
    {
      InvKept(Model(), TimeOut(c, start, now));
      GiveUp(c, true, now - start);
    }

    /** The cancellation of a call that is queued, signalled or waiting for its first look. */
    method AcquireCancelled(c: Caller)
      requires Enabled(Model(), Cancel(c)) && c !in Reserving(frames.phase) && Valid()
      modifies this
      ensures Model() == Step(old(Model()), Cancel(c)) && Valid()
    {
      InvKept(Model(), Cancel(c));
      GiveUp(c, false, 0.0);
    }

    /** Takes the call out of the queue; a timeout is counted, a cancellation is not. */
    method GiveUp(c: Caller, timedOut: bool, waited: real)
      requires c in frames.phase
      modifies this
      ensures Model() == GiveUpStep(old(Model()), c, timedOut, waited)
    {
      waiters := RemoveWaiter(waiters, c);
      if timedOut {
        timeouts, waitTime := timeouts + 1, waitTime + waited;
      }
      frames := frames.(phase := frames.phase - {c},
                        left := if timedOut then frames.left else frames.left + 1,
                        lost := if frames.phase[c] == Woken then frames.lost + 1 else frames.lost);
    }

    /** `_in_use.pop(reserved_key, None)` in the handler of a failed creation. */
    method FreeSlot(c: Caller)
      modifies `inUse, `frames
      ensures Model() == GiveBackStep(old(Model()), c)
    {
      inUse := inUse - {Slot(c)};
      frames := frames.(phase := frames.phase - {c}, left := frames.left + 1, lost := frames.lost + 1);
    }

    method Suspend(c: Caller, where: Phase)
      modifies `frames
      ensures Model() == Moved(old(Model()), c, where)
    {
      frames := frames.(phase := frames.phase[c := where]);
    }

    /** The factory call ends with an exception: its own, or a cancellation. */
    method CreationFailed(c: Caller, ghost e: Event)
      requires (e == CreateFail(c) || e == Cancel(c)) && InPhase(Model(), c, Opening) && Valid()
      modifies this
      ensures Model() == Step(old(Model()), e) && Valid()
    {
      InvKept(Model(), e);
      if lock == Unlocked {
        FreeSlot(c);
      } else {
        Suspend(c, Failing);
      }
    }

    /** A cancellation at the lock, after the factory call: nothing handles it. */
    method CancelledAtLock(c: Caller)
      requires HoldsUp(Model(), c) && Valid()
      modifies this
      ensures Model() == Step(old(Model()), Cancel(c)) && Valid()
    {
      InvKept(Model(), Cancel(c));
      frames := frames.(phase := frames.phase[c := Leaked], left := frames.left + 1);
    }

    method WaitForLock(c: Caller)
      requires Enabled(Model(), OpenedLate(c)) && Valid()
      modifies this
      ensures Model() == Step(old(Model()), OpenedLate(c)) && Valid()
    {
      InvKept(Model(), OpenedLate(c));
      Suspend(c, Opened);
    }

    method GiveSlotBack(c: Caller)
      requires Enabled(Model(), GiveBack(c)) && Valid()
      modifies this
      ensures Model() == Step(old(Model()), GiveBack(c)) && Valid()
    {
      InvKept(Model(), GiveBack(c));
      FreeSlot(c);
    }

    method CreationDone(c: Caller, conn: Conn, spent: real, start: real, now: real)
      requires Enabled(Model(), CreateDone(c, conn, spent, start, now)) && Valid()
      modifies this
      ensures Model() == Step(old(Model()), CreateDone(c, conn, spent, start, now)) && Valid()
    {
      InvKept(Model(), CreateDone(c, conn, spent, start, now));
      CheckOutNew(c, conn, spent, start, now);
    }

    method CheckOutNew(c: Caller, conn: Conn, spent: real, start: real, now: real)
      requires Enabled(Model(), CreateDone(c, conn, spent, start, now))
      modifies this
      ensures Model() == Step(old(Model()), CreateDone(c, conn, spent, start, now))
    {
      RecordAcquire(start, now, false);
      creations, creationTime, misses := creations + 1, creationTime + spent, misses + 1;
      inUse := (inUse - {Slot(c)})[Checked(conn) := InUse(now)];
      frames := frames.(phase := frames.phase - {c}, holds := frames.holds + {(c, conn)});
    }

    /** Takes the connection out of `_in_use` and puts it back in the heap. */
    method TakeBack(c: Caller, conn: Conn)
      requires Checked(conn) in inUse
      modifies this
      ensures Model() == ReturnStep(old(Model()), c, conn, false)
    {
      var pc := inUse[Checked(conn)];
      PushIdle(if pc.InUse? then pc.createdAt else 0.0, conn);
      inUse := inUse - {Checked(conn)};
      frames := frames.(holds := frames.holds - {(c, conn)});
    }

    method PushIdle(createdAt: real, conn: Conn)
      modifies `available, `counter
      ensures available == Push(old(available), Idle(createdAt, old(counter), conn)) && counter == old(counter) + 1
    {
      available := Push(available, Idle(createdAt, counter, conn));
      counter := counter + 1;
    }

    /** Takes the connection out of `_in_use` for good; the lock stays taken. */
    method EvictBroken(c: Caller, conn: Conn)
      requires Checked(conn) in inUse
      modifies this
      ensures Model() == ReturnStep(old(Model()), c, conn, true)
    {
      inUse := inUse - {Checked(conn)};
      brokenEvicted := brokenEvicted + 1;
      lock := Closing;
      frames := frames.(holds := frames.holds - {(c, conn)});
    }

    method WakeOldest()
      modifies `waiters, `frames
      ensures Model() == WakeStep(old(Model()))
    {
      if waiters != [] {
        frames := frames.(phase := frames.phase[waiters[0].caller := Woken]);
        waiters := waiters[1..];
      }
    }

    /** A connection the pool does not know is ignored. */
    method ReleaseConnection(c: Caller, conn: Conn)
      requires Enabled(Model(), Release(c, conn)) && Valid()
      modifies this
      ensures Model() == Step(old(Model()), Release(c, conn)) && Valid()
    {
      InvKept(Model(), Release(c, conn));
      if Checked(conn) !in inUse {
        return;
      }
      TakeBack(c, conn);
      WakeOldest();
    }

    /** `release(broken=True)` up to the closing of the connection, which suspends with the
        lock held. */
    method BeginEviction(c: Caller, conn: Conn)
      requires Enabled(Model(), Evict(c, conn)) && Valid()
      modifies this
      ensures Model() == Step(old(Model()), Evict(c, conn)) && Valid()
    {
      InvKept(Model(), Evict(c, conn));
      EvictBroken(c, conn);
    }

    /** And after it: the oldest waiter is woken, unless the closing was cancelled. */
    method EndEviction(cancelled: bool)
      requires lock == Closing && Valid()
      modifies this
      ensures Model() == Step(old(Model()), if cancelled then CloseCancelled else Closed) && Valid()
    {
      InvKept(Model(), if cancelled then CloseCancelled else Closed);
      if cancelled {
        frames := frames.(lost := frames.lost + 1);
      } else {
        WakeOldest();
      }
      lock := Draining;
    }

    method LockDrained()
      requires Enabled(Model(), Drained) && Valid()
      modifies this
      ensures Model() == Step(old(Model()), Drained) && Valid()
    {
      InvKept(Model(), Drained);
      lock := Unlocked;
    }

    /** The resizing half of `metrics()`. */
    method ResizeForMetrics()
      requires Valid()
      modifies this, sizer
      ensures Model() == Step(old(Model()), Metrics) && Valid()
    {
      InvKept(Model(), Metrics);
      var before := sizer.current;
      var size := sizer.AdjustSize(|waiters|, Average(recentWaitsMs));
      Grew(before);
    }

    method RaiseForWarmUp(target: nat)
      requires Enabled(Model(), WarmUp(target)) && Valid()
      modifies this, sizer
      ensures Model() == Step(old(Model()), WarmUp(target)) && Valid()
    {
      InvKept(Model(), WarmUp(target));
      var before := sizer.current;
      sizer.RaiseTo(target);
      Grew(before);
    }

    method Grew(before: nat)
      modifies `frames
      ensures var grown := if sizer.current > before then sizer.current - before else 0;
              frames == old(frames).(lost := old(frames).lost + grown)
    {
      if sizer.current > before {
        frames := frames.(lost := frames.lost + (sizer.current - before));
      }
    }

    // -------------------------------------------------------------- calls in sequence

    /** One event, by the method it belongs to. */
    method Perform(e: Event)
      requires Enabled(Model(), e) && Valid()
      modifies this, sizer
      ensures Model() == Step(old(Model()), e) && Valid()
    {
      match e
      case Arrive(c) => BeginAcquire(c);
      case Check(c, start, now) => var outcome := TryAcquire(c, start, now);
      case TimeOut(c, start, now) => WaitTimedOut(c, start, now);
      case Cancel(c) => PerformCancel(c);
      case CreateFail(c) => CreationFailed(c, e);
      case OpenedLate(c) => WaitForLock(c);
      case CreateDone(c, conn, spent, start, now) => CreationDone(c, conn, spent, start, now);
      case GiveBack(c) => GiveSlotBack(c);
      case Release(c, conn) => ReleaseConnection(c, conn);
      case Evict(c, conn) => BeginEviction(c, conn);
      case Closed => EndEviction(false);
      case CloseCancelled => EndEviction(true);
      case Drained => LockDrained();
      case Metrics => ResizeForMetrics();
      case WarmUp(target) => RaiseForWarmUp(target);
    }

    method PerformCancel(c: Caller)
      requires Enabled(Model(), Cancel(c)) && Valid()
      modifies this
      ensures Model() == Step(old(Model()), Cancel(c)) && Valid()
    {
      if frames.phase[c] == Opening {
        CreationFailed(c, Cancel(c));
      } else if frames.phase[c] in {Opened, Failing} {
        CancelledAtLock(c);
      } else {
        AcquireCancelled(c);
      }
    }

    /** Other calls run while one is suspended. */
    method Interleave(es: seq<Event>)
      requires ValidRun(Model(), es) && Valid()
      modifies this, sizer
      ensures Model() == After(old(Model()), es) && Valid()
    {
      for i := 0 to |es|
        invariant ValidRun(Model(), es[i..]) && Valid()
        invariant After(Model(), es[i..]) == After(old(Model()), es)
      {
        assert es[i..][0] == es[i] && es[i..][1..] == es[i + 1..];
        Perform(es[i]);
      }
    }

    /** `acquire()`: look, and queue and look again until signalled in time. Whatever others
        do meanwhile, the connection it returns is checked out to this call and to nobody
        else; and a call that fails has left nothing behind, unless it was cancelled at the
        lock after its factory call: then, and only then, its slot stays. */
    method Acquire(c: Caller, start: real, turns: seq<Turn>, factory: Factory)
      returns (r: Result<Conn, AcquireError>, ghost es: seq<Event>)
      requires Valid() && Enabled(Model(), Arrive(c))
      requires Playable(Step(Model(), Arrive(c)), c, start, turns, factory)
      modifies this, sizer
      ensures ValidRun(old(Model()), es) && Model() == After(old(Model()), es) && Valid()
      ensures Parted(Model(), c, r, factory)
    {
      ghost var s := Model();
      BeginAcquire(c);
      es := [] + [Arrive(c)];
      OneMoreEvent(s, [], Arrive(c));
      var i := 0;
      assert turns[0..] == turns;
      while i < |turns|
        invariant 0 <= i <= |turns|
        invariant ValidRun(s, es) && Model() == After(s, es) && Valid()
        invariant Playable(Model(), c, start, turns[i..], factory)
      {
        assert turns[i..][0] == turns[i] && turns[i..][1..] == turns[i + 1..];
        ghost var more;
        var done;
        done, r, more := TakeTurn(c, start, turns[i], factory);
        RunsJoin(s, es, more);
        es := es + more;
        if done {
          return;
        }
        i := i + 1;
      }
      OneMoreEvent(s, es, Cancel(c));
      es := es + [Cancel(c)];
      r := CancelledBeforeLook(c, factory);
    }

    /** A cancellation while the call waits for the lock to look. */
    method CancelledBeforeLook(c: Caller, ghost factory: Factory) returns (r: Result<Conn, AcquireError>)
      requires Valid() && (InPhase(Model(), c, Trying) || InPhase(Model(), c, Woken))
      modifies this
      ensures Model() == Step(old(Model()), Cancel(c)) && Valid() && Parted(Model(), c, r, factory)
    {
      AcquireCancelled(c);
      LeavesNothing(Model(), c, Cancelled, factory);
      r := Err(Cancelled);
    }

    /** One turn of the loop. */
    method TakeTurn(c: Caller, start: real, turn: Turn, factory: Factory)
      returns (done: bool, r: Result<Conn, AcquireError>, ghost es: seq<Event>)
      requires Valid() && TurnPlays(Model(), c, start, turn, factory)
      modifies this, sizer
      ensures ValidRun(old(Model()), es) && Model() == After(old(Model()), es) && Valid()
      ensures done == !GoesOn(old(Model()), c, start, turn)
      ensures if done then Parted(Model(), c, r, factory) else Model() == TurnEnd(old(Model()), c, start, turn)
    {
      ghost var s := Model();
      OneMoreEvent(s, [], Check(c, start, turn.now));
      var outcome := TryAcquire(c, start, turn.now);
      es := [] + [Check(c, start, turn.now)];
      match outcome
      case Got(conn) =>
        HoldsAlone(Model(), c, conn, factory);
        return true, Ok(conn), es;
      case Open =>
        ghost var more;
        r, more := OpenConnection(c, start, factory);
        RunsJoin(s, es, more);
        return true, r, es + more;
      case Wait =>
        ghost var more;
        r, more := Sleep(c, start, turn);
        RunsJoin(s, es, more);
        es := es + more;
        done := !turn.ending.Signal?;
        if done {
          LeavesNothing(Model(), c, r.error, factory);
        }
    }

    /** A queued call until it is signalled, or gives up. */
    method Sleep(c: Caller, start: real, turn: Turn) returns (r: Result<Conn, AcquireError>, ghost es: seq<Event>)
      requires Valid() && SleepPlays(Model(), c, start, turn)
      modifies this, sizer
      ensures ValidRun(old(Model()), es) && Model() == After(old(Model()), es) && Valid()
      ensures r.Err?
      ensures turn.ending.Signal? ==> Model() == After(old(Model()), turn.others)
      ensures !turn.ending.Signal? ==> c !in frames.phase && r.error != FactoryRaised
    {
      ghost var s := Model();
      Interleave(turn.others);
      es := turn.others;
      if turn.ending.Signal? {
        return Err(MaxConnectionsExceeded), es;
      }
      OneMoreEvent(s, es, Wakes(c, start, turn.ending));
      r := GiveUpWaiting(c, start, turn.ending);
      es := es + [Wakes(c, start, turn.ending)];
    }

    method GiveUpWaiting(c: Caller, start: real, ending: Awakening) returns (r: Result<Conn, AcquireError>)
      requires Valid() && !ending.Signal? && Enabled(Model(), Wakes(c, start, ending))
      requires c !in Reserving(frames.phase)
      modifies this
      ensures Model() == Step(old(Model()), Wakes(c, start, ending)) && Valid()
      ensures r.Err? && r.error != FactoryRaised && c !in frames.phase
    {
      if ending.Expiry? {
        WaitTimedOut(c, start, ending.end);
        r := Err(MaxConnectionsExceeded);
      } else {
        AcquireCancelled(c);
        r := Err(Cancelled);
      }
    }

    /** The end of the factory call while the lock is taken, and the wait for it. */
    method WaitAtLock(c: Caller, factory: Factory) returns (ghost es: seq<Event>)
      requires Valid() && InPhase(Model(), c, Opening) && lock != Unlocked
      requires ValidRun(Step(Model(), Comes(c, factory)), factory.late)
      modifies this, sizer
      ensures ValidRun(old(Model()), es) && Valid()
      ensures Model() == After(old(Model()), es) == After(Step(old(Model()), Comes(c, factory)), factory.late)
    {
      ghost var s := Model();
      OneMoreEvent(s, [], Comes(c, factory));
      RunsJoin(s, [] + [Comes(c, factory)], factory.late);
      if factory.product.Opens? {
        WaitForLock(c);
      } else {
        CreationFailed(c, Comes(c, factory));
      }
      Interleave(factory.late);
      es := [] + [Comes(c, factory)] + factory.late;
    }

    /** The creation path. */
    method OpenConnection(c: Caller, start: real, factory: Factory)
      returns (r: Result<Conn, AcquireError>, ghost es: seq<Event>)
      requires Valid() && InPhase(Model(), c, Opening) && FactoryPlays(Model(), c, start, factory)
      modifies this, sizer
      ensures ValidRun(old(Model()), es) && Model() == After(old(Model()), es) && Valid()
      ensures Parted(Model(), c, r, factory)
    {
      ghost var s := Model();
      Interleave(factory.others);
      es := factory.others;
      var late := lock != Unlocked;
      if late {
        ghost var more := WaitAtLock(c, factory);
        RunsJoin(s, es, more);
        es := es + more;
      }
      ghost var e := Ends(c, start, factory, late);
      OneMoreEvent(s, es, e);
      r := FinishCreation(c, start, factory, late);
      es := es + [e];
    }

    method GiveUpCreation(c: Caller, factory: Factory, late: bool)
      requires Valid() && !factory.product.Opens?
      requires if late then Enabled(Model(), GiveBack(c)) else InPhase(Model(), c, Opening) && lock == Unlocked
      modifies this
      ensures Valid() && c !in frames.phase
      ensures Model() == Step(old(Model()), if late then GiveBack(c) else Comes(c, factory))
    {
      if late {
        GiveSlotBack(c);
      } else {
        CreationFailed(c, Comes(c, factory));
      }
    }

    /** The last stretch of the creation path. */
    method FinishCreation(c: Caller, start: real, factory: Factory, late: bool)
      returns (r: Result<Conn, AcquireError>)
      requires Valid() && Enabled(Model(), Ends(c, start, factory, late))
      requires if late then factory.struck ==> HoldsUp(Model(), c)
               else InPhase(Model(), c, Opening) && lock == Unlocked
      modifies this
      ensures Model() == Step(old(Model()), Ends(c, start, factory, late)) && Valid()
      ensures Parted(Model(), c, r, factory)
    {
      if late && factory.struck {
        CancelledAtLock(c);
        r := Err(Cancelled);
        LeavesSlot(Model(), c, factory);
      } else if factory.product.Opens? {
        CreationDone(c, factory.product.conn, factory.spent, start, factory.now);
        r := Ok(factory.product.conn);
        HoldsAlone(Model(), c, factory.product.conn, factory);
      } else {
        GiveUpCreation(c, factory, late);
        r := Err(if factory.product.Raises? then FactoryRaised else Cancelled);
        LeavesNothing(Model(), c, r.error, factory);
      }
    }
  }

  /** The event that ends a sleep without a signal. */
  function Wakes(c: Caller, start: real, ending: Awakening): Event {
    if ending.Expiry? then TimeOut(c, start, ending.end) else Cancel(c)
  }

  /** The event that ends the creation path. */
  function Ends(c: Caller, start: real, factory: Factory, late: bool): Event {
    if late && factory.struck then Cancel(c)
    else if factory.product.Opens? then Made(c, start, factory)
    else if late then GiveBack(c)
    else Comes(c, factory)
  }

  lemma LeavesSlot(s: State, c: Caller, factory: Factory)
    requires Inv(s) && InPhase(s, c, Leaked) && factory.struck
    ensures Parted(s, c, Err(Cancelled), factory)
  {
    assert c in Reserving(s.frames.phase);
  }

  lemma LeavesNothing(s: State, c: Caller, e: AcquireError, factory: Factory)
    requires Inv(s) && c !in s.frames.phase
    ensures Parted(s, c, Err(e), factory)
  {
    assert c !in Reserving(s.frames.phase) && !InPhase(s, c, Queued);
  }

  lemma HoldsAlone(s: State, c: Caller, conn: Conn, factory: Factory)
    requires Inv(s) && c !in s.frames.phase && (c, conn) in s.frames.holds
    ensures Parted(s, c, Ok(conn), factory)
  {
  }

  /** What a call of `acquire()` leaves behind. */
  ghost predicate Parted(s: State, c: Caller, r: Result<Conn, AcquireError>, factory: Factory) {
    match r
    case Ok(conn) =>
      c !in s.frames.phase && Checked(conn) in s.pool.inUse && forall d :: (d, conn) in s.frames.holds <==> d == c
    case Err(e) =>
      && (c !in s.frames.phase || (InPhase(s, c, Leaked) && e == Cancelled && factory.struck))
      && (Slot(c) in s.pool.inUse <==> InPhase(s, c, Leaked)) && !Waits(s.pool.waiters, c)
  }
}
