/** The connection pool as a state machine. One `Event` is one stretch of code of
    `AsyncConnectionPool` between two suspensions, so a sequence of events is one
    interleaving of any number of coroutines. The pool lock is held across a suspension in
    one place only: while a broken connection is being closed. */
module PoolModel {
  import opened AdaptiveSizing
  import Histograms

  const RECENT_WINDOW: nat := 50

  /** One call of `acquire()`. */
  type Caller = int

  /** The identity (`id(conn)`) of a live connection object. */
  type Conn = int

  /** Keys of the `_in_use` dictionary: the identity of a placeholder object, which belongs
      to the call that made it, or of a connection. */
  datatype Key = Slot(caller: Caller) | Checked(conn: Conn)

  /** Values of `_in_use`: `None` for a reservation, else the `PoolConnection`. */
  datatype Entry = Reserved | InUse(createdAt: real)

  /** An entry of the `_available` heap. */
  datatype Idle = Idle(createdAt: real, ticket: nat, conn: Conn)

  /** An `asyncio.Event` in `_waiters`. The ticket is the event's own identity. */
  datatype Waiter = Waiter(caller: Caller, ticket: nat)

  /** The pool lock between events: free with nobody suspended on it; held by a release that
      is closing a broken connection; or just given back, with calls that had to wait for it
      still to run. */
  datatype Lock = Unlocked | Closing | Draining

  /** Where a call of `acquire()` that has not returned stands: about to take the lock for
      the first time; queued; signalled but not yet back at the lock; in the factory, for the
      slot it reserved; waiting for the lock with the new connection in hand; or waiting for
      it to give the slot back. `Leaked` calls are gone but their slot is not. */
  datatype Phase = Trying | Queued | Woken | Opening | Opened | Failing | Leaked

  /** The pool's counters. `waits` is the stream the wait histogram has been fed. */
  datatype Stats = Stats(
    requests: nat,
    hits: nat,
    misses: nat,
    timeouts: nat,
    successes: nat,
    creations: nat,
    broken: nat,
    waitTime: real,
    creationTime: real,
    recent: seq<real>,
    waits: seq<real>)

  /** The fields of the pool object. `available` lists the heap in the order `heappop`
      would return its entries. */
  datatype Pool = Pool(
    sizer: Sizer,
    lock: Lock,
    available: seq<Idle>,
    inUse: map<Key, Entry>,
    waiters: seq<Waiter>,
    counter: nat,
    totalWaiters: nat,
    stats: Stats)

  /** What is not in the pool object: the suspended calls, who was handed which connection,
      how many calls left without a connection and without timing out, and how many times
      capacity was freed or a wake-up used up without waking anyone since a call last queued. */
  datatype Frames = Frames(
    phase: map<Caller, Phase>,
    holds: set<(Caller, Conn)>,
    left: nat,
    lost: nat)

  datatype State = State(pool: Pool, frames: Frames)

  /** `start` and `now` are clock readings, `start` the one taken on entry to `acquire()`;
      `spent` is the time the factory took. */
  datatype Event =
    | Arrive(c: Caller)
    | Check(c: Caller, start: real, now: real)
    | TimeOut(c: Caller, start: real, now: real)
    | Cancel(c: Caller)
    | CreateFail(c: Caller)
    | OpenedLate(c: Caller)
    | CreateDone(c: Caller, conn: Conn, spent: real, start: real, now: real)
    | GiveBack(c: Caller)
    | Release(c: Caller, conn: Conn)
    | Evict(c: Caller, conn: Conn)
    | Closed
    | CloseCancelled
    | Drained
    | Metrics
    | WarmUp(target: nat)

  const NO_STATS: Stats := Stats(0, 0, 0, 0, 0, 0, 0, 0.0, 0.0, [], [])

  function Init(lo: nat, hi: nat): State {
    State(
      Pool(NewSizer(lo, hi), Unlocked, [], map[], [], 0, 0, NO_STATS),
      Frames(map[], {}, 0, 0))
  }

  /** The heap order: check-out time, then the counter. */
  predicate Before(a: Idle, b: Idle) {
    a.createdAt < b.createdAt || (a.createdAt == b.createdAt && a.ticket < b.ticket)
  }

  /** `heappush`, on the heap listed in pop order. */
  function Push(available: seq<Idle>, e: Idle): (r: seq<Idle>)
    ensures multiset(r) == multiset(available) + multiset{e}
    ensures |r| == |available| + 1
  {
    if available == [] || Before(e, available[0]) then
      [e] + available
    else
      assert available == [available[0]] + available[1..];
      [available[0]] + Push(available[1..], e)
  }

  /** `_waiters.remove`: drops the event of call `c`, wherever it stands in the queue. */
  function RemoveWaiter(ws: seq<Waiter>, c: Caller): seq<Waiter> {
    if ws == [] then []
    else if ws[0].caller == c then ws[1..]
    else [ws[0]] + RemoveWaiter(ws[1..], c)
  }

  /** The window of recent waits, after one more: it drops its oldest entry once full. */
  function Windowed(xs: seq<real>, x: real): (r: seq<real>)
    ensures |r| == (if |xs| < RECENT_WINDOW then |xs| + 1 else |xs|) && r[|r| - 1] == x
    ensures forall i | 0 <= i < |r| - 1 :: r[i] == xs[i + |xs| - (|r| - 1)]
  {
    if |xs| < RECENT_WINDOW then xs + [x] else (xs + [x])[1..]
  }

  /** The newest entries, as many as the window holds. */
  function Newest(xs: seq<real>): seq<real> {
    if |xs| <= RECENT_WINDOW then xs else xs[|xs| - RECENT_WINDOW..]
  }

  lemma WindowIsNewest(xs: seq<real>, x: real)
    ensures Windowed(Newest(xs), x) == Newest(xs + [x])
  {
  }

  function Average(xs: seq<real>): real {
    if xs == [] then 0.0 else Histograms.Sum(xs) / |xs| as real
  }

  /** What `metrics()` tells the sizer. */
  predicate Pressed(p: Pool) {
    |p.waiters| > 0 || Average(p.stats.recent) > WAIT_PRESSURE_THRESHOLD_MS
  }

  predicate Fresh(s: State, conn: Conn) {
    && Checked(conn) !in s.pool.inUse
    && forall i | i in s.pool.available :: i.conn != conn
  }

  predicate InPhase(s: State, c: Caller, p: Phase) {
    c in s.frames.phase && s.frames.phase[c] == p
  }

  /** A call suspended on the lock after its factory call. */
  predicate HoldsUp(s: State, c: Caller) {
    InPhase(s, c, Opened) || InPhase(s, c, Failing)
  }

  /** When an event can happen. A factory never returns a connection the pool still knows,
      and a connection is released by the call that was handed it, once; releasing a
      connection the pool does not know is allowed and does nothing. */
  predicate Enabled(s: State, e: Event) {
    var unheld := !s.pool.lock.Closing?;
    match e
    case Arrive(c) => c !in s.frames.phase
    case Check(c, _, _) => unheld && (InPhase(s, c, Trying) || InPhase(s, c, Woken))
    case TimeOut(c, _, _) => unheld && (InPhase(s, c, Queued) || InPhase(s, c, Woken))
    case Cancel(c) =>
      || (unheld && InPhase(s, c, Queued))
      || InPhase(s, c, Trying) || InPhase(s, c, Woken) || InPhase(s, c, Opening) || HoldsUp(s, c)
    case CreateFail(c) => InPhase(s, c, Opening)
    case OpenedLate(c) => InPhase(s, c, Opening) && s.pool.lock != Unlocked
    case CreateDone(c, conn, _, _, _) =>
      && Fresh(s, conn)
      && ((InPhase(s, c, Opening) && s.pool.lock == Unlocked) || (InPhase(s, c, Opened) && unheld))
    case GiveBack(c) => InPhase(s, c, Failing) && unheld
    case Release(c, conn) => unheld && ((c, conn) in s.frames.holds || Checked(conn) !in s.pool.inUse)
    case Evict(c, conn) => unheld && (c, conn) in s.frames.holds && Checked(conn) in s.pool.inUse
    case Closed => !unheld
    case CloseCancelled => !unheld
    case Drained => s.pool.lock == Draining && forall c | c in s.frames.phase :: !HoldsUp(s, c)
    case Metrics => true
    case WarmUp(_) => unheld
  }

  /** `_record_acquire`. */
  function Recorded(n: Stats, start: real, now: real, hit: bool): Stats {
    var wait := now - start;
    n.(successes := n.successes + 1, hits := n.hits + if hit then 1 else 0,
       waitTime := n.waitTime + wait, recent := Windowed(n.recent, wait * 1000.0), waits := n.waits + [wait * 1000.0])
  }

  function RecordStep(p: Pool, start: real, now: real, hit: bool): Pool {
    p.(stats := Recorded(p.stats, start, now, hit))
  }

  function TimedOut(n: Stats, waited: real): Stats {
    n.(timeouts := n.timeouts + 1, waitTime := n.waitTime + waited)
  }

  function Created(n: Stats, spent: real): Stats {
    n.(creations := n.creations + 1, creationTime := n.creationTime + spent, misses := n.misses + 1)
  }

  /** The body of the `async with self._lock` block at the top of the retry loop. */
  function CheckStep(s: State, c: Caller, start: real, now: real): State {
    var p, f := s.pool, s.frames;
    if p.available != [] then
      var conn := p.available[0].conn;
      State(
        RecordStep(p, start, now, true).(
          available := p.available[1..], inUse := p.inUse[Checked(conn) := InUse(now)]),
        f.(phase := f.phase - {c}, holds := f.holds + {(c, conn)}))
    else if |p.inUse| < p.sizer.current then
      State(p.(inUse := p.inUse[Slot(c) := Reserved]), f.(phase := f.phase[c := Opening]))
    else
      State(
        p.(waiters := p.waiters + [Waiter(c, p.totalWaiters)], totalWaiters := p.totalWaiters + 1),
        f.(phase := f.phase[c := Queued], lost := 0))
  }

  /** A waiting call gives up: by timeout after `waited` seconds, or by cancellation. */
  function GiveUpStep(s: State, c: Caller, timedOut: bool, waited: real): State
    requires c in s.frames.phase
  {
    var p, f := s.pool, s.frames;
    State(
      p.(waiters := RemoveWaiter(p.waiters, c), stats := if timedOut then TimedOut(p.stats, waited) else p.stats),
      f.(phase := f.phase - {c},
         left := if timedOut then f.left else f.left + 1,
         lost := if f.phase[c] == Woken then f.lost + 1 else f.lost))
  }

  /** The slot goes back, and the call leaves with the exception. */
  function GiveBackStep(s: State, c: Caller): State {
    var p, f := s.pool, s.frames;
    State(p.(inUse := p.inUse - {Slot(c)}), f.(phase := f.phase - {c}, left := f.left + 1, lost := f.lost + 1))
  }

  function Moved(s: State, c: Caller, to: Phase): State {
    s.(frames := s.frames.(phase := s.frames.phase[c := to]))
  }

  /** The call leaves, and its slot stays. */
  function LeakStep(s: State, c: Caller): State {
    var t := Moved(s, c, Leaked);
    t.(frames := t.frames.(left := t.frames.left + 1))
  }

  /** The factory call ends with an exception. Its handler needs the lock. */
  function AbandonStep(s: State, c: Caller): State {
    if s.pool.lock == Unlocked then GiveBackStep(s, c) else Moved(s, c, Failing)
  }

  /** A cancellation strikes wherever the call is suspended. At the lock, after the factory
      call, nothing catches it. */
  function CancelStep(s: State, c: Caller): State
    requires c in s.frames.phase
  {
    match s.frames.phase[c]
    case Opening => AbandonStep(s, c)
    case Opened => LeakStep(s, c)
    case Failing => LeakStep(s, c)
    case _ => GiveUpStep(s, c, false, 0.0)
  }

  /** `_waiters.pop(0).set()`, if anyone waits. */
  function WakeStep(s: State): State {
    var p, f := s.pool, s.frames;
    if p.waiters == [] then s
    else State(p.(waiters := p.waiters[1..]), f.(phase := f.phase[p.waiters[0].caller := Woken]))
  }

  /** Takes a connection out of `_in_use` and, unless broken, makes it available. */
  function ReturnStep(s: State, c: Caller, conn: Conn, asBroken: bool): State
    requires Checked(conn) in s.pool.inUse
  {
    var p, f := s.pool, s.frames;
    var e := p.inUse[Checked(conn)];
    var q := p.(inUse := p.inUse - {Checked(conn)});
    State(
      if asBroken then q.(stats := p.stats.(broken := p.stats.broken + 1), lock := Closing)
      else q.(available := Push(p.available, Idle(if e.InUse? then e.createdAt else 0.0, p.counter, conn)),
              counter := p.counter + 1),
      f.(holds := f.holds - {(c, conn)}))
  }

  /** The lock is given back with others waiting for it. */
  function HandOver(s: State): State {
    s.(pool := s.pool.(lock := Draining))
  }

  /** The sizer moves; each slot of growth is capacity nobody is woken for. */
  function ResizeStep(s: State, sizer: Sizer): State {
    var grown := if sizer.current > s.pool.sizer.current then sizer.current - s.pool.sizer.current else 0;
    State(s.pool.(sizer := sizer), s.frames.(lost := s.frames.lost + grown))
  }

  function Step(s: State, e: Event): State
    requires Enabled(s, e)
  {
    var p, f := s.pool, s.frames;
    match e
    case Arrive(c) => State(p.(stats := p.stats.(requests := p.stats.requests + 1)), f.(phase := f.phase[c := Trying]))
    case Check(c, start, now) => CheckStep(s, c, start, now)
    case TimeOut(c, start, now) => GiveUpStep(s, c, true, now - start)
    case Cancel(c) => CancelStep(s, c)
    case CreateFail(c) => AbandonStep(s, c)
    case OpenedLate(c) => Moved(s, c, Opened)
    case CreateDone(c, conn, spent, start, now) =>
      State(
        p.(inUse := (p.inUse - {Slot(c)})[Checked(conn) := InUse(now)],
           stats := Created(Recorded(p.stats, start, now, false), spent)),
        f.(phase := f.phase - {c}, holds := f.holds + {(c, conn)}))
    case GiveBack(c) => GiveBackStep(s, c)
    case Release(c, conn) =>
      if Checked(conn) !in p.inUse then s else WakeStep(ReturnStep(s, c, conn, false))
    case Evict(c, conn) => ReturnStep(s, c, conn, true)
    case Closed => HandOver(WakeStep(s))
    case CloseCancelled => HandOver(s.(frames := f.(lost := f.lost + 1)))
    case Drained => s.(pool := p.(lock := Unlocked))
    case Metrics => ResizeStep(s, Adjust(p.sizer, Pressed(p)))
    case WarmUp(target) => ResizeStep(s, Raise(p.sizer, target))
  }

  /** A sequence of events each of which can happen where it happens. */
  ghost predicate ValidRun(s: State, es: seq<Event>)
    decreases |es|
  {
    es == [] || (Enabled(s, es[0]) && ValidRun(Step(s, es[0]), es[1..]))
  }

  ghost function After(s: State, es: seq<Event>): State
    requires ValidRun(s, es)
    decreases |es|
  {
    if es == [] then s else After(Step(s, es[0]), es[1..])
  }

  /** One run after another. */
  lemma {:induction false} RunsJoin(s: State, a: seq<Event>, b: seq<Event>)
    requires ValidRun(s, a) && ValidRun(After(s, a), b)
    ensures ValidRun(s, a + b) && After(s, a + b) == After(After(s, a), b)
    decreases |a|
  {
    if a == [] {
      assert a + b == b;
    } else {
      RunsJoin(Step(s, a[0]), a[1..], b);
      assert (a + b)[1..] == a[1..] + b;
    }
  }

  lemma OneMoreEvent(s: State, a: seq<Event>, e: Event)
    requires ValidRun(s, a) && Enabled(After(s, a), e)
    ensures ValidRun(s, a + [e]) && After(s, a + [e]) == Step(After(s, a), e)
  {
    assert [e][1..] == [];
    RunsJoin(s, a, [e]);
  }

  /** The calls standing in phase `p`. */
  function At(phase: map<Caller, Phase>, p: Phase): set<Caller> {
    set c | c in phase && phase[c] == p
  }

  /** The calls still inside `acquire()`. */
  function Inside(phase: map<Caller, Phase>): set<Caller> {
    set c | c in phase && phase[c] != Leaked
  }

  /** The calls, gone or not, that a slot is reserved for. */
  function Reserving(phase: map<Caller, Phase>): set<Caller> {
    set c | c in phase && phase[c] in {Opening, Opened, Failing, Leaked}
  }

  lemma AtMoved(phase: map<Caller, Phase>, c: Caller, q: Phase)
    ensures forall p ::
      At(phase[c := q], p) == if p == q then At(phase, p) + {c} else At(phase, p) - {c}
  {
  }

  lemma AtDropped(phase: map<Caller, Phase>, c: Caller)
    ensures forall p :: At(phase - {c}, p) == At(phase, p) - {c}
  {
  }

  lemma MapMinus<K, V>(m: map<K, V>, k: K)
    requires k in m
    ensures |m - {k}| == |m| - 1
  {
    assert (m - {k}).Keys == m.Keys - {k};
  }

  lemma MapPlus<K, V>(m: map<K, V>, k: K, v: V)
    ensures |m[k := v]| == if k in m then |m| else |m| + 1
  {
    assert m[k := v].Keys == m.Keys + {k};
  }

  /** Removing a waiter cuts it out of the queue and leaves the others in order. */
  lemma {:induction false} RemovedAt(ws: seq<Waiter>, c: Caller) returns (k: nat)
    ensures k <= |ws| && forall i | 0 <= i < k :: ws[i].caller != c
    ensures k < |ws| ==> ws[k].caller == c
    ensures RemoveWaiter(ws, c) == if k < |ws| then ws[..k] + ws[k + 1..] else ws
  {
    if ws == [] || ws[0].caller == c {
      k := 0;
    } else {
      var j := RemovedAt(ws[1..], c);
      k := j + 1;
      if k < |ws| {
        assert ws[..k] == [ws[0]] + ws[1..][..j] && ws[k + 1..] == ws[1..][j + 1..];
      } else {
        assert ws == [ws[0]] + ws[1..];
      }
    }
  }
}
