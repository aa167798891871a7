/** What the pools have done, told from the events and from who was handed what: when each
    connection was last handed out, which connections there are, and what was counted. */
module PoolStories {
  import opened AdaptiveSizing
  import opened PoolModel
  import opened PoolSafety
  import Sync = SyncPool

  /** When each connection was last handed out; the connections created and not evicted; how
      many calls arrived; how long those waited that got a connection, and those that were
      refused; how long each creation took; and how many connections were evicted. Times are
      in seconds. */
  datatype Tally = Tally(
    times: map<Conn, real>,
    live: set<Conn>,
    arrivals: nat,
    served: seq<real>,
    refused: seq<real>,
    spent: seq<real>,
    evicted: nat)

  const NO_TALLY: Tally := Tally(map[], {}, 0, [], [], [], 0)

  /** The connections somebody holds in `t` and not in `s`. */
  ghost function HandedOut(s: State, t: State): set<Conn> {
    set p | p in t.frames.holds && p !in s.frames.holds :: p.1
  }

  /** A call that came at `start` gets a connection at `now`. */
  ghost function Serve(h: Tally, conns: set<Conn>, start: real, now: real): Tally {
    h.(times := map conn | conn in h.times.Keys + conns :: if conn in conns then now else h.times[conn],
       served := h.served + [now - start])
  }

  function Refuse(h: Tally, waited: real): Tally {
    h.(refused := h.refused + [waited])
  }

  ghost function Told(s: State, e: Event, h: Tally): Tally
    requires Enabled(s, e)
  {
    var out := HandedOut(s, Step(s, e));
    match e
    case Arrive(_) => h.(arrivals := h.arrivals + 1)
    case Check(_, start, now) => if out == {} then h else Serve(h, out, start, now)
    case TimeOut(_, start, now) => Refuse(h, now - start)
    case CreateDone(_, conn, spent, start, now) =>
      Serve(h, out, start, now).(live := h.live + {conn}, spent := h.spent + [spent])
    case Evict(_, conn) => h.(live := h.live - {conn}, evicted := h.evicted + 1)
    case _ => h
  }

  ghost function TallyOf(s: State, es: seq<Event>, h: Tally): Tally
    requires ValidRun(s, es)
    decreases |es|
  {
    if es == [] then h else TallyOf(Step(s, es[0]), es[1..], Told(s, es[0], h))
  }

  // ---------------------------------------------------------------- when connections were handed out

  /** The time stored with a connection is that of its last hand-out. */
  ghost predicate Stamped(s: State, times: map<Conn, real>) {
    && (forall i | i in s.pool.available :: i.conn in times && times[i.conn] == i.createdAt)
    && (forall conn | Checked(conn) in s.pool.inUse ::
          conn in times && s.pool.inUse[Checked(conn)] == InUse(times[conn]))
  }

  /** The connections created and not evicted are those that are idle or checked out. */
  ghost predicate Living(s: State, live: set<Conn>) {
    forall conn ::
      conn in live <==> Checked(conn) in s.pool.inUse || exists i :: i in s.pool.available && i.conn == conn
  }

  ghost predicate Counted(n: Stats, h: Tally) {
    NumbersAre(n, h) && TotalsAre(n, h) && WaitsAre(n, h)
  }

  ghost predicate NumbersAre(n: Stats, h: Tally) {
    && n.requests == h.arrivals && n.timeouts == |h.refused| && n.broken == h.evicted
    && n.successes == |h.served| && n.misses == n.creations == |h.spent| && n.hits == |h.served| - |h.spent|
  }

  ghost predicate TotalsAre(n: Stats, h: Tally) {
    && n.waitTime == Histograms.Sum(h.served) + Histograms.Sum(h.refused)
    && n.creationTime == Histograms.Sum(h.spent)
  }

  /** What the wait histogram has been fed, and the window of the newest of it. */
  ghost predicate WaitsAre(n: Stats, h: Tally) {
    n.waits == InMs(h.served) && n.recent == Newest(n.waits)
  }

  function InMs(xs: seq<real>): (r: seq<real>)
    ensures |r| == |xs| && forall i | 0 <= i < |r| :: r[i] == xs[i] * 1000.0
  {
    seq(|xs|, i requires 0 <= i < |xs| => xs[i] * 1000.0)
  }

  ghost predicate AllTold(s: State, h: Tally) {
    Stamped(s, h.times) && Living(s, h.live) && Counted(s.pool.stats, h)
  }

  lemma SumMore(xs: seq<real>, x: real)
    ensures Histograms.Sum(xs + [x]) == Histograms.Sum(xs) + x
  {
    assert (xs + [x])[..|xs|] == xs;
  }

  lemma InMsMore(xs: seq<real>, x: real)
    ensures InMs(xs + [x]) == InMs(xs) + [x * 1000.0]
  {
  }

  lemma OneHandedOut(s: State, t: State, c: Caller, conn: Conn)
    requires (c, conn) !in s.frames.holds && t.frames.holds == s.frames.holds + {(c, conn)}
    ensures HandedOut(s, t) == {conn}
  {
    assert (c, conn) in t.frames.holds;
  }

  lemma WaitCounted(n: Stats, m: Stats, h: Tally, k: Tally, wait: real)
    requires WaitsAre(n, h) && k.served == h.served + [wait]
    requires m.waits == n.waits + [wait * 1000.0] && m.recent == Windowed(n.recent, wait * 1000.0)
    ensures WaitsAre(m, k)
  {
    InMsMore(h.served, wait);
    WindowIsNewest(n.waits, wait * 1000.0);
  }

  lemma HitCounted(n: Stats, h: Tally, conns: set<Conn>, start: real, now: real)
    requires Counted(n, h)
    ensures Counted(Recorded(n, start, now, true), Serve(h, conns, start, now))
  {
    var m, k := Recorded(n, start, now, true), Serve(h, conns, start, now);
    assert TotalsAre(m, k) by { SumMore(h.served, now - start); }
    assert WaitsAre(m, k) by { WaitCounted(n, m, h, k, now - start); }
  }

  lemma CreationCounted(n: Stats, h: Tally, k: Tally, spent: real, start: real, now: real)
    requires Counted(n, h)
    requires k.arrivals == h.arrivals && k.refused == h.refused && k.evicted == h.evicted
    requires k.served == h.served + [now - start] && k.spent == h.spent + [spent]
    ensures Counted(Created(Recorded(n, start, now, false), spent), k)
  {
    var m := Created(Recorded(n, start, now, false), spent);
    assert TotalsAre(m, k) by {
      SumMore(h.served, now - start);
      SumMore(h.spent, spent);
    }
    assert WaitsAre(m, k) by { WaitCounted(n, m, h, k, now - start); }
  }

  lemma RefusalCounted(n: Stats, h: Tally, waited: real)
    requires Counted(n, h)
    ensures Counted(TimedOut(n, waited), Refuse(h, waited))
  {
    SumMore(h.refused, waited);
  }

  /** The call gets the first idle connection. */
  lemma HitTold(s: State, c: Caller, start: real, now: real, h: Tally)
    requires Exclusive(s) && AllTold(s, h) && s.pool.available != [] && (c, s.pool.available[0].conn) !in s.frames.holds
    ensures var t, conn := CheckStep(s, c, start, now), s.pool.available[0].conn;
            HandedOut(s, t) == {conn} && AllTold(t, Serve(h, {conn}, start, now))
  {
    var t, conn := CheckStep(s, c, start, now), s.pool.available[0].conn;
    OneHandedOut(s, t, c, conn);
    FirstTold(s, t, conn, start, now, h);
  }

  lemma FirstTold(s: State, t: State, conn: Conn, start: real, now: real, h: Tally)
    requires Exclusive(s) && AllTold(s, h) && s.pool.available != [] && conn == s.pool.available[0].conn
    requires t.pool.available == s.pool.available[1..] && t.pool.inUse == s.pool.inUse[Checked(conn) := InUse(now)]
    requires t.pool.stats == Recorded(s.pool.stats, start, now, true)
    ensures AllTold(t, Serve(h, {conn}, start, now))
  {
    var k := Serve(h, {conn}, start, now);
    assert Counted(t.pool.stats, k) by { HitCounted(s.pool.stats, h, {conn}, start, now); }
    assert Stamped(t, k.times) by {
      ServedTimes(h, conn, start, now);
      FirstOut(s, t, conn, now, h.times, k.times);
    }
    assert Living(t, k.live) by { StillLiving(s, t, conn, h.live); }
  }

  lemma FirstOut(s: State, t: State, conn: Conn, now: real, times: map<Conn, real>, more: map<Conn, real>)
    requires Exclusive(s) && Stamped(s, times) && s.pool.available != [] && conn == s.pool.available[0].conn
    requires t.pool.available == s.pool.available[1..] && t.pool.inUse == s.pool.inUse[Checked(conn) := InUse(now)]
    requires more == times[conn := now]
    ensures Stamped(t, more)
  {
    forall i | i in t.pool.available ensures i.conn in more && more[i.conn] == i.createdAt {
      var k :| 0 <= k < |t.pool.available| && t.pool.available[k] == i;
      assert s.pool.available[k + 1] == i;
    }
  }

  lemma StillLiving(s: State, t: State, conn: Conn, live: set<Conn>)
    requires s.pool.available != [] && conn == s.pool.available[0].conn && Living(s, live)
    requires t.pool.available == s.pool.available[1..]
    requires forall x :: Checked(x) in t.pool.inUse <==> Checked(x) in s.pool.inUse || x == conn
    ensures Living(t, live)
  {
    assert s.pool.available == [s.pool.available[0]] + t.pool.available;
    forall x ensures x in live <==> Checked(x) in t.pool.inUse || exists i :: i in t.pool.available && i.conn == x {
      if i :| i in s.pool.available && i.conn == x && x != conn {
        assert i in t.pool.available;
      }
    }
  }

  /** A call in the factory gets a new connection. */
  lemma CreatedTold(s: State, c: Caller, conn: Conn, spent: real, start: real, now: real, h: Tally)
    requires AllTold(s, h) && Enabled(s, CreateDone(c, conn, spent, start, now)) && (c, conn) !in s.frames.holds
    ensures var e := CreateDone(c, conn, spent, start, now);
            HandedOut(s, Step(s, e)) == {conn} && AllTold(Step(s, e), Told(s, e, h))
  {
    var e := CreateDone(c, conn, spent, start, now);
    var t := Step(s, e);
    OneHandedOut(s, t, c, conn);
    CreationTold(s, t, conn, spent, start, now, h, Told(s, e, h));
  }

  lemma CreationTold(s: State, t: State, conn: Conn, spent: real, start: real, now: real, h: Tally, k: Tally)
    requires AllTold(s, h) && Fresh(s, conn) && t.pool.available == s.pool.available
    requires forall x :: Checked(x) in t.pool.inUse <==> Checked(x) in s.pool.inUse || x == conn
    requires forall x | Checked(x) in t.pool.inUse ::
               t.pool.inUse[Checked(x)] == if x == conn then InUse(now) else s.pool.inUse[Checked(x)]
    requires t.pool.stats == Created(Recorded(s.pool.stats, start, now, false), spent)
    requires k == Serve(h, {conn}, start, now).(live := h.live + {conn}, spent := h.spent + [spent])
    ensures AllTold(t, k)
  {
    CreationCounted(s.pool.stats, h, k, spent, start, now);
    ServedTimes(h, conn, start, now);
    NewOut(s, t, conn, now, h.times, k.times);
    OneMoreLiving(s, t, conn, h.live);
  }

  lemma ServedTimes(h: Tally, conn: Conn, start: real, now: real)
    ensures Serve(h, {conn}, start, now).times == h.times[conn := now]
  {
  }

  lemma NewOut(s: State, t: State, conn: Conn, now: real, times: map<Conn, real>, more: map<Conn, real>)
    requires Stamped(s, times) && Fresh(s, conn) && t.pool.available == s.pool.available
    requires forall x :: Checked(x) in t.pool.inUse <==> Checked(x) in s.pool.inUse || x == conn
    requires forall x | Checked(x) in t.pool.inUse ::
               t.pool.inUse[Checked(x)] == if x == conn then InUse(now) else s.pool.inUse[Checked(x)]
    requires more == times[conn := now]
    ensures Stamped(t, more)
  {
  }

  lemma OneMoreLiving(s: State, t: State, conn: Conn, live: set<Conn>)
    requires Living(s, live) && t.pool.available == s.pool.available
    requires forall x :: Checked(x) in t.pool.inUse <==> Checked(x) in s.pool.inUse || x == conn
    ensures Living(t, live + {conn})
  {
  }

  /** A connection goes back as it came, or for good. */
  lemma ReturnTold(s: State, c: Caller, conn: Conn, asBroken: bool, h: Tally)
    requires Exclusive(s) && AllTold(s, h) && Checked(conn) in s.pool.inUse
    ensures AllTold(ReturnStep(s, c, conn, asBroken),
                    if asBroken then h.(live := h.live - {conn}, evicted := h.evicted + 1) else h)
  {
    var t := ReturnStep(s, c, conn, asBroken);
    if !asBroken {
      var i := Idle(h.times[conn], s.pool.counter, conn);
      Pushed(s.pool.available, i);
      assert t.pool.available == Push(s.pool.available, i);
      assert i in t.pool.available;
    }
  }

  /** Nothing of this has changed. */
  lemma SameTold(s: State, t: State, h: Tally)
    requires AllTold(s, h) && t.pool.available == s.pool.available && t.pool.stats == s.pool.stats
    requires forall conn ::
               && (Checked(conn) in t.pool.inUse <==> Checked(conn) in s.pool.inUse)
               && (Checked(conn) in s.pool.inUse ==> t.pool.inUse[Checked(conn)] == s.pool.inUse[Checked(conn)])
    ensures AllTold(t, h)
  {
  }

  lemma CheckTold(s: State, c: Caller, start: real, now: real, h: Tally)
    requires Exclusive(s) && AllTold(s, h) && Enabled(s, Check(c, start, now))
    ensures AllTold(Step(s, Check(c, start, now)), Told(s, Check(c, start, now), h))
  {
    var t := Step(s, Check(c, start, now));
    ExclusiveUnheld(s, Check(c, start, now));
    if s.pool.available != [] {
      HitTold(s, c, start, now, h);
    } else {
      assert HandedOut(s, t) == {};
      SameTold(s, t, h);
    }
  }

  lemma ReleaseTold(s: State, c: Caller, conn: Conn, h: Tally)
    requires Exclusive(s) && AllTold(s, h) && Enabled(s, Release(c, conn))
    ensures AllTold(Step(s, Release(c, conn)), h)
  {
    if Checked(conn) in s.pool.inUse {
      ReturnTold(s, c, conn, false, h);
      SameTold(ReturnStep(s, c, conn, false), Step(s, Release(c, conn)), h);
    }
  }

  /** What happens to calls that get nothing. */
  lemma OtherTold(s: State, e: Event, h: Tally)
    requires AllTold(s, h) && Enabled(s, e)
    requires !e.Arrive? && !e.Check? && !e.TimeOut? && !e.CreateDone? && !e.Release? && !e.Evict?
    ensures AllTold(Step(s, e), h)
  {
    SameTold(s, Step(s, e), h);
  }

  lemma StepTold(s: State, e: Event, h: Tally)
    requires Exclusive(s) && AllTold(s, h) && Enabled(s, e)
    ensures AllTold(Step(s, e), Told(s, e, h))
  {
    match e
    case Arrive(_) =>
    case Check(c, start, now) => CheckTold(s, c, start, now, h);
    case TimeOut(c, start, now) => RefusalCounted(s.pool.stats, h, now - start);
    case CreateDone(c, conn, spent, start, now) =>
      ExclusiveUnheld(s, e);
      CreatedTold(s, c, conn, spent, start, now, h);
    case Release(c, conn) => ReleaseTold(s, c, conn, h);
    case Evict(c, conn) => ReturnTold(s, c, conn, true, h);
    case _ => OtherTold(s, e, h);
  }

  lemma {:induction false} ToldInEveryRun(s: State, es: seq<Event>, h: Tally)
    requires Inv(s) && AllTold(s, h) && ValidRun(s, es)
    ensures AllTold(After(s, es), TallyOf(s, es, h))
    decreases |es|
  {
    if es != [] {
      StepTold(s, es[0], h);
      InvKept(s, es[0]);
      ToldInEveryRun(Step(s, es[0]), es[1..], Told(s, es[0], h));
    }
  }

  /** In every run of a new pool: the time stored with a connection, idle or checked out, is
      that of the event that last handed it out; the connections idle or checked out are those
      created and not evicted; and every counter is the number of the events it counts, every
      total the sum of their times. */
  lemma StoredAsTold(lo: nat, hi: nat, es: seq<Event>)
    requires lo <= hi && ValidRun(Init(lo, hi), es)
    ensures AllTold(After(Init(lo, hi), es), TallyOf(Init(lo, hi), es, NO_TALLY))
  {
    assert Newest([]) == [] && InMs([]) == [];
    ToldInEveryRun(Init(lo, hi), es, NO_TALLY);
  }

  /** A look that finds an idle connection is handed, of all idle ones, one that was last handed
      out longest ago, and no other. */
  ghost predicate LongestIdle(s: State, t: State, times: map<Conn, real>) {
    exists i ::
      && i in s.pool.available && HandedOut(s, t) == {i.conn}
      && forall j | j in s.pool.available ::
           && i.conn in times && j.conn in times && times[i.conn] <= times[j.conn]
           && (j != i ==> j in t.pool.available)
  }

  lemma OldestGoesOut(s: State, c: Caller, start: real, now: real, h: Tally)
    requires Exclusive(s) && Ordered(s) && AllTold(s, h) && s.pool.available != []
    requires (c, s.pool.available[0].conn) !in s.frames.holds
    ensures LongestIdle(s, CheckStep(s, c, start, now), h.times)
  {
    HitTold(s, c, start, now, h);
    var i, t := s.pool.available[0], CheckStep(s, c, start, now);
    assert i in s.pool.available;
    forall j | j in s.pool.available ensures h.times[i.conn] <= h.times[j.conn] && (j != i ==> j in t.pool.available) {
      var k :| 0 <= k < |s.pool.available| && s.pool.available[k] == j;
      assert k > 0 ==> Before(i, j) && t.pool.available[k - 1] == j;
    }
  }

  /** In every run of a new pool. */
  lemma HandsOutLongestIdle(lo: nat, hi: nat, es: seq<Event>, c: Caller, start: real, now: real)
    requires lo <= hi && ValidRun(Init(lo, hi), es)
    requires var s := After(Init(lo, hi), es); Enabled(s, Check(c, start, now)) && s.pool.available != []
    ensures var s := After(Init(lo, hi), es);
            LongestIdle(s, Step(s, Check(c, start, now)), TallyOf(Init(lo, hi), es, NO_TALLY).times)
  {
    var s := After(Init(lo, hi), es);
    SafeFromStart(lo, hi, es);
    StoredAsTold(lo, hi, es);
    ExclusiveUnheld(s, Check(c, start, now));
    OldestGoesOut(s, c, start, now, TallyOf(Init(lo, hi), es, NO_TALLY));
  }

  /** The looks of a run that found nothing idle and no slot free, and queued. */
  ghost function Blocked(s: State, es: seq<Event>): nat
    requires ValidRun(s, es)
    decreases |es|
  {
    if es == [] then 0
    else
      (if es[0].Check? && s.pool.available == [] && |s.pool.inUse| >= s.pool.sizer.current then 1 else 0)
      + Blocked(Step(s, es[0]), es[1..])
  }

  lemma {:induction false} CountsBlocked(s: State, es: seq<Event>)
    requires ValidRun(s, es)
    ensures After(s, es).pool.totalWaiters == s.pool.totalWaiters + Blocked(s, es)
    decreases |es|
  {
    if es != [] {
      CountsBlocked(Step(s, es[0]), es[1..]);
    }
  }

  // ---------------------------------------------------------------- pressure

  lemma {:induction false} SumInMs(xs: seq<real>)
    ensures Histograms.Sum(InMs(xs)) == Histograms.Sum(xs) * 1000.0
  {
    if xs != [] {
      var n := |xs| - 1;
      SumInMs(xs[..n]);
      assert InMs(xs)[..n] == InMs(xs[..n]);
    }
  }

  /** The newest fifty of the waits, or all if there are fewer. */
  function Latest(xs: seq<real>): seq<real> {
    if |xs| <= RECENT_WINDOW then xs else xs[|xs| - RECENT_WINDOW..]
  }

  lemma AverageIs(n: Stats, h: Tally)
    requires WaitsAre(n, h)
    ensures Average(n.recent) > WAIT_PRESSURE_THRESHOLD_MS
            <==> Histograms.Sum(Latest(h.served)) > 0.005 * |Latest(h.served)| as real
  {
    var latest := Latest(h.served);
    assert n.recent == InMs(latest);
    SumInMs(latest);
    if latest != [] {
      Above(Histograms.Sum(latest) * 1000.0, |latest| as real);
    } else {
      assert Histograms.Sum(latest) == 0.0;
    }
  }

  lemma Above(x: real, n: real)
    requires n > 0.0
    ensures x / n > 5.0 <==> x > 5.0 * n
  {
    var q := x / n;
    assert q * n == x;
    assert q > 5.0 ==> q * n > 5.0 * n;
    assert q <= 5.0 ==> q * n <= 5.0 * n;
  }

  /** In every run of a new pool, reading the metrics sees pressure exactly when a call is
      queued or the newest fifty calls served waited more than five milliseconds on average. */
  lemma PressedExactlyWhen(lo: nat, hi: nat, es: seq<Event>)
    requires lo <= hi && ValidRun(Init(lo, hi), es)
    ensures var s, latest := After(Init(lo, hi), es), Latest(TallyOf(Init(lo, hi), es, NO_TALLY).served);
            Pressed(s.pool) <==> || (exists c :: InPhase(s, c, Queued))
                                 || Histograms.Sum(latest) > 0.005 * |latest| as real
  {
    var s := After(Init(lo, hi), es);
    SafeFromStart(lo, hi, es);
    StoredAsTold(lo, hi, es);
    AverageIs(s.pool.stats, TallyOf(Init(lo, hi), es, NO_TALLY));
    QueuedExactlyWhen(s);
  }

  lemma QueuedExactlyWhen(s: State)
    requires Calls(s)
    ensures s.pool.waiters != [] <==> exists c :: InPhase(s, c, Queued)
  {
    if s.pool.waiters != [] {
      HeadWaits(s);
    }
    forall c ensures InPhase(s, c, Queued) ==> s.pool.waiters != [] {
      assert Waits(s.pool.waiters, c) <==> InPhase(s, c, Queued);
    }
  }

  // ---------------------------------------------------------------- the threaded pool

  ghost function SyncTold(s: Sync.SyncState, e: Sync.SyncEvent, h: Tally): Tally
    requires Sync.CanHappen(s, e)
  {
    match e
    case Shared(b) => Told(s.base, b, h)
    case Look(c, start, now, _) =>
      var t := Sync.SyncStep(s, e).base;
      var out := HandedOut(s.base, t);
      if out != {} then Serve(h, out, start, now)
      else if c !in t.frames.phase then Refuse(h, now - start)
      else h
    case _ => h
  }

  ghost function SyncTallyOf(s: Sync.SyncState, es: seq<Sync.SyncEvent>, h: Tally): Tally
    requires Sync.SyncRun(s, es)
    decreases |es|
  {
    if es == [] then h else SyncTallyOf(Sync.SyncStep(s, es[0]), es[1..], SyncTold(s, es[0], h))
  }

  lemma LookTold(s: Sync.SyncState, c: Caller, start: real, now: real, expired: bool, h: Tally)
    requires Exclusive(s.base) && AllTold(s.base, h) && Sync.CanHappen(s, Sync.Look(c, start, now, expired))
    ensures var e := Sync.Look(c, start, now, expired);
            AllTold(Sync.SyncStep(s, e).base, SyncTold(s, e, h))
  {
    if s.base.pool.available != [] {
      ExclusiveUnheld(s.base, Check(c, start, now));
      HitTold(s.base, c, start, now, h);
    } else {
      EmptyLookTold(s, c, start, now, expired, h);
    }
  }

  lemma EmptyLookTold(s: Sync.SyncState, c: Caller, start: real, now: real, expired: bool, h: Tally)
    requires AllTold(s.base, h) && Sync.CanHappen(s, Sync.Look(c, start, now, expired)) && s.base.pool.available == []
    ensures var e := Sync.Look(c, start, now, expired);
            AllTold(Sync.SyncStep(s, e).base, SyncTold(s, e, h))
  {
    var t := Sync.SyncStep(s, Sync.Look(c, start, now, expired)).base;
    assert HandedOut(s.base, t) == {};
    if c !in t.frames.phase {
      RefusalCounted(s.base.pool.stats, h, now - start);
    } else {
      SameTold(s.base, t, h);
    }
  }

  lemma SyncStepTold(s: Sync.SyncState, e: Sync.SyncEvent, h: Tally)
    requires Exclusive(s.base) && AllTold(s.base, h) && Sync.CanHappen(s, e)
    ensures AllTold(Sync.SyncStep(s, e).base, SyncTold(s, e, h))
  {
    match e
    case Shared(b) => StepTold(s.base, b, h);
    case Look(c, start, now, expired) => LookTold(s, c, start, now, expired, h);
    case _ => SameTold(s.base, Sync.SyncStep(s, e).base, h);
  }

  lemma {:induction false} SyncToldInEveryRun(s: Sync.SyncState, es: seq<Sync.SyncEvent>, h: Tally)
    requires Sync.SyncInv(s) && AllTold(s.base, h) && Sync.SyncRun(s, es)
    ensures AllTold(Sync.SyncAfter(s, es).base, SyncTallyOf(s, es, h))
    decreases |es|
  {
    if es != [] {
      SyncStepTold(s, es[0], h);
      Sync.BaseKept(s, es[0]);
      Sync.CountingKept(s, es[0]);
      SyncToldInEveryRun(Sync.SyncStep(s, es[0]), es[1..], SyncTold(s, es[0], h));
    }
  }

  /** The same of the threaded pool. */
  lemma SyncStoredAsTold(lo: nat, hi: nat, es: seq<Sync.SyncEvent>)
    requires lo <= hi && Sync.SyncRun(Sync.Start(lo, hi), es)
    ensures AllTold(Sync.SyncAfter(Sync.Start(lo, hi), es).base, SyncTallyOf(Sync.Start(lo, hi), es, NO_TALLY))
  {
    assert Newest([]) == [] && InMs([]) == [];
    SyncToldInEveryRun(Sync.Start(lo, hi), es, NO_TALLY);
  }

  lemma SyncHandsOutLongestIdle(lo: nat, hi: nat, es: seq<Sync.SyncEvent>, c: Caller, start: real, now: real,
                                expired: bool)
    requires lo <= hi && Sync.SyncRun(Sync.Start(lo, hi), es)
    requires var s := Sync.SyncAfter(Sync.Start(lo, hi), es);
             Sync.CanHappen(s, Sync.Look(c, start, now, expired)) && s.base.pool.available != []
    ensures var s := Sync.SyncAfter(Sync.Start(lo, hi), es);
            LongestIdle(s.base, Sync.SyncStep(s, Sync.Look(c, start, now, expired)).base,
                        SyncTallyOf(Sync.Start(lo, hi), es, NO_TALLY).times)
  {
    var s := Sync.SyncAfter(Sync.Start(lo, hi), es);
    Sync.SyncSafeFromStart(lo, hi, es);
    SyncStoredAsTold(lo, hi, es);
    ExclusiveUnheld(s.base, Check(c, start, now));
    OldestGoesOut(s.base, c, start, now, SyncTallyOf(Sync.Start(lo, hi), es, NO_TALLY));
  }

  /** There the pressure is a thread that counts as a waiter, or the same average. */
  lemma SyncPressedExactlyWhen(lo: nat, hi: nat, es: seq<Sync.SyncEvent>)
    requires lo <= hi && Sync.SyncRun(Sync.Start(lo, hi), es)
    ensures var s := Sync.SyncAfter(Sync.Start(lo, hi), es);
            var latest := Latest(SyncTallyOf(Sync.Start(lo, hi), es, NO_TALLY).served);
            Sync.Pressure(s) <==> s.counted != {} || Histograms.Sum(latest) > 0.005 * |latest| as real
  {
    Sync.SyncSafeFromStart(lo, hi, es);
    SyncStoredAsTold(lo, hi, es);
    AverageIs(Sync.SyncAfter(Sync.Start(lo, hi), es).base.pool.stats, SyncTallyOf(Sync.Start(lo, hi), es, NO_TALLY));
  }

  /** What a run does to the sizer of the threaded pool. */
  ghost function SyncMoves(s: Sync.SyncState, es: seq<Sync.SyncEvent>): seq<Move>
    requires Sync.SyncRun(s, es)
    decreases |es|
  {
    if es == [] then []
    else SyncMove(s, es[0]) + SyncMoves(Sync.SyncStep(s, es[0]), es[1..])
  }

  /** What one event does to the sizer of the threaded pool. */
  function SyncMove(s: Sync.SyncState, e: Sync.SyncEvent): seq<Move> {
    if e.Observe? then [Observing(Sync.Pressure(s))]
    else if e.Shared? && e.e.WarmUp? then [Raising(e.e.target)]
    else []
  }

  lemma SyncMoved(s: Sync.SyncState, e: Sync.SyncEvent)
    requires Sync.CanHappen(s, e)
    ensures var z, moved := s.base.pool.sizer, Sync.SyncStep(s, e).base.pool.sizer;
            moved == if e.Observe? then Adjust(z, Sync.Pressure(s))
                     else if e.Shared? && e.e.WarmUp? then Raise(z, e.e.target)
                     else z
  {
  }

  lemma {:induction false} SyncSizerFollowsMoves(s: Sync.SyncState, es: seq<Sync.SyncEvent>)
    requires Sync.SyncRun(s, es)
    ensures var ms := SyncMoves(s, es);
            Sync.SyncAfter(s, es).base.pool.sizer == SizerAt(s.base.pool.sizer, ms, |ms|)
    decreases |es|
  {
    if es != [] {
      var t, move := Sync.SyncStep(s, es[0]), SyncMove(s, es[0]);
      var rest := SyncMoves(t, es[1..]);
      SyncSizerFollowsMoves(t, es[1..]);
      SyncMoved(s, es[0]);
      if move == [] {
        assert move + rest == rest;
      } else {
        FirstMove(s.base.pool.sizer, move[0], rest, |rest|);
      }
    }
  }

  /** The calls of a run that found the pool full, each the first time. */
  ghost function SyncBlocked(s: Sync.SyncState, es: seq<Sync.SyncEvent>): nat
    requires Sync.SyncRun(s, es)
    decreases |es|
  {
    if es == [] then 0
    else
      (if && es[0].Look? && es[0].c !in s.counted
          && s.base.pool.available == [] && |s.base.pool.inUse| >= s.base.pool.sizer.current
       then 1 else 0)
      + SyncBlocked(Sync.SyncStep(s, es[0]), es[1..])
  }

  lemma {:induction false} SyncCountsBlocked(s: Sync.SyncState, es: seq<Sync.SyncEvent>)
    requires Sync.SyncRun(s, es)
    ensures Sync.SyncAfter(s, es).totalWaitersEver == s.totalWaitersEver + SyncBlocked(s, es)
    decreases |es|
  {
    if es != [] {
      SyncCountsBlocked(Sync.SyncStep(s, es[0]), es[1..]);
    }
  }
}
