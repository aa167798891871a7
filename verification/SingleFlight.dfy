/** `QueryCacheCoordinator` under concurrency: any number of `get_or_execute` calls, writers
    and evictions, one event for every stretch of code between two suspensions. The
    coordinator's lock is never held across a suspension, so taking it never suspends. */
module SingleFlight {
  import opened CacheIndex
  import opened Wrappers

  type Caller = int
  type Writer = int
  type Key = string
  type Data = string

  datatype Source = FromL1 | FromL2 | Fresh

  /** A result, and how many writes the database had seen when it was read there. */
  datatype Copy = Copy(data: Data, seen: nat)

  datatype Outcome = Value(copy: Copy, source: Source) | Raised(error: string)

  /** Where a call of `get_or_execute` stands: waiting for a leader's future; leading, with
      the L2 read under way; L2 missed, with the query under way; past its read, the result
      on its way back; returned. */
  datatype Frame =
    | Following(fut: nat)
    | Leading(key: Key, fut: nat)
    | Running(key: Key, fut: nat)
    | Carrying(key: Key, fut: nat, copy: Copy, source: Source)
    | Returned(outcome: Outcome)

  /** A write that has committed: not yet invalidated; its tables still to be purged from L2;
      or L2 still to be cleared. */
  datatype Purge = Committed(tables: set<Table>) | Purging(tables: set<Table>) | Clearing

  /** The registry, the calls, and who joined which future. The futures made so far are
      numbered from zero; a future has at most one outcome. `executed` lists the futures the
      query was run for. */
  datatype Flight = Flight(
    inflight: map<Key, nat>,
    futures: seq<Option<Outcome>>,
    calls: map<Caller, Frame>,
    leaders: seq<Caller>,
    joined: map<Caller, nat>,
    executed: seq<nat>)

  /** The tables each statement reads; the writes the database has seen, and the last one of
      each table; both cache levels, the index and the queued persistence jobs; the writes
      under way; and the calls. */
  datatype State = State(
    tables: Key -> set<Table>,
    version: nat,
    written: map<Table, nat>,
    l1: map<Key, Copy>,
    l2: map<Key, Copy>,
    index: Index,
    jobs: set<(Key, Copy)>,
    writers: map<Writer, Purge>,
    flight: Flight)

  datatype Event =
    | Call(c: Caller, key: Key)
    | ReadL2(c: Caller)
    | QueryReads(c: Caller, data: Data)
    | Fill(c: Caller, queued: bool)
    | Fail(c: Caller, error: string)
    | Join(c: Caller)
    | Persist(key: Key, copy: Copy)
    | DropJob(key: Key, copy: Copy)
    | Write(w: Writer, tables: set<Table>)
    | Invalidate(w: Writer, precise: bool)
    | PurgeTable(w: Writer, t: Table)
    | ClearL2(w: Writer)
    | Drop(key: Key)
    | DropRow(key: Key)

  function Init(tables: Key -> set<Table>): State {
    State(tables, 0, map[], map[], map[], NO_INDEX, {}, map[], Flight(map[], [], map[], [], map[], []))
  }

  /** A call that leads: it made the future and has not resolved it. */
  predicate IsLead(f: Frame) {
    f.Leading? || f.Running? || f.Carrying?
  }

  predicate Enabled(s: State, e: Event) {
    var calls := s.flight.calls;
    match e
    case Call(c, _) => c !in calls
    case ReadL2(c) => c in calls && calls[c].Leading?
    case QueryReads(c, _) => c in calls && calls[c].Running?
    case Fill(c, _) => c in calls && calls[c].Carrying?
    case Fail(c, _) => c in calls && (calls[c].Leading? || calls[c].Running?)
    case Join(c) => CanJoin(s.flight, c)
    case Persist(key, copy) => (key, copy) in s.jobs
    case Write(w, _) => w !in s.writers
    case Invalidate(w, _) => w in s.writers && s.writers[w].Committed?
    case PurgeTable(w, t) => w in s.writers && s.writers[w].Purging? && t in s.writers[w].tables
    case ClearL2(w) => w in s.writers && s.writers[w].Clearing?
    case _ => true
  }

  predicate CanJoin(g: Flight, c: Caller) {
    && c in g.calls && g.calls[c].Following?
    && g.calls[c].fut < |g.futures| && g.futures[g.calls[c].fut].Some?
  }

  /** The call moves on. */
  function Moved(g: Flight, c: Caller, to: Frame): Flight {
    g.(calls := g.calls[c := to])
  }

  /** After a miss in L1: follow whoever leads for the key, or lead. */
  function Entered(g: Flight, c: Caller, key: Key): Flight {
    if key in g.inflight then
      Moved(g, c, Following(g.inflight[key])).(joined := g.joined[c := g.inflight[key]])
    else
      var fut := |g.futures|;
      Flight(g.inflight[key := fut], g.futures + [None], g.calls[c := Leading(key, fut)], g.leaders + [c],
             g.joined[c := fut], g.executed)
  }

  /** L2 missed: the query runs. */
  function Executes(g: Flight, c: Caller, key: Key, fut: nat): Flight {
    Moved(g, c, Running(key, fut)).(executed := g.executed + [fut])
  }

  /** The future gets its outcome, unless it has one. */
  function Resolve(futures: seq<Option<Outcome>>, fut: nat, o: Outcome): seq<Option<Outcome>> {
    if fut < |futures| && futures[fut].None? then futures[fut := Some(o)] else futures
  }

  /** The leader resolves its future, takes it out of the registry and returns. */
  function Settled(g: Flight, c: Caller, key: Key, fut: nat, o: Outcome): Flight {
    g.(futures := Resolve(g.futures, fut, o),
       inflight := if key in g.inflight && g.inflight[key] == fut then g.inflight - {key} else g.inflight,
       calls := g.calls[c := Returned(o)])
  }

  /** The result goes into L1 and is tagged; a fresh one may be queued for L2. */
  function FillStep(s: State, c: Caller, key: Key, fut: nat, copy: Copy, source: Source, queued: bool): State {
    s.(l1 := s.l1[key := copy], index := Tagged(s.index, key, s.tables(key)),
       jobs := if queued && source == Fresh then s.jobs + {(key, copy)} else s.jobs,
       flight := Settled(s.flight, c, key, fut, Value(copy, source)))
  }

  /** `_invalidate_after_write` up to its first suspension: scoped to the tables if that finds
      anything, else everything. */
  function InvalidateStep(s: State, w: Writer, tables: set<Table>, precise: bool): State {
    var keys := KeysOf(s.index, tables);
    if precise && keys != {} then
      s.(index := Untagged(s.index, tables), l1 := s.l1 - keys, writers := s.writers[w := Purging(tables)])
    else
      s.(index := NO_INDEX, l1 := map[], writers := s.writers[w := Clearing])
  }

  function PurgeStep(s: State, w: Writer, t: Table, left: set<Table>): State {
    s.(l2 := map k | k in s.l2 && t !in s.tables(k) :: s.l2[k],
       writers := if left == {} then s.writers - {w} else s.writers[w := Purging(left)])
  }

  function WriteStep(s: State, w: Writer, tables: set<Table>): State {
    s.(version := s.version + 1, writers := s.writers[w := Committed(tables)],
       written := map t | t in s.written.Keys + tables :: if t in tables then s.version + 1 else s.written[t])
  }

  function CallStep(s: State, c: Caller, key: Key): State {
    s.(flight := if key in s.l1 then Moved(s.flight, c, Returned(Value(s.l1[key], FromL1)))
                 else Entered(s.flight, c, key))
  }

  function ReadStep(s: State, c: Caller, key: Key, fut: nat): State {
    s.(flight := if key in s.l2 then Moved(s.flight, c, Carrying(key, fut, s.l2[key], FromL2))
                 else Executes(s.flight, c, key, fut))
  }

  function Step(s: State, e: Event): State
    requires Enabled(s, e)
  {
    var g := s.flight;
    match e
    case Call(c, key) => CallStep(s, c, key)
    case ReadL2(c) => ReadStep(s, c, g.calls[c].key, g.calls[c].fut)
    case QueryReads(c, data) =>
      s.(flight := Moved(g, c, Carrying(g.calls[c].key, g.calls[c].fut, Copy(data, s.version), Fresh)))
    case Fill(c, queued) =>
      FillStep(s, c, g.calls[c].key, g.calls[c].fut, g.calls[c].copy, g.calls[c].source, queued)
    case Fail(c, error) => s.(flight := Settled(g, c, g.calls[c].key, g.calls[c].fut, Raised(error)))
    case Join(c) => s.(flight := Moved(g, c, Returned(g.futures[g.calls[c].fut].value)))
    case Persist(key, copy) => s.(l2 := s.l2[key := copy], jobs := s.jobs - {(key, copy)})
    case DropJob(key, copy) => s.(jobs := s.jobs - {(key, copy)})
    case Write(w, tables) => WriteStep(s, w, tables)
    case Invalidate(w, precise) => InvalidateStep(s, w, s.writers[w].tables, precise)
    case PurgeTable(w, t) => PurgeStep(s, w, t, s.writers[w].tables - {t})
    case ClearL2(w) => s.(l2 := map[], writers := s.writers - {w})
    case Drop(key) => s.(l1 := s.l1 - {key})
    case DropRow(key) => s.(l2 := s.l2 - {key})
  }

  ghost predicate ValidRun(s: State, es: seq<Event>)
    decreases |es|
  {
    es == [] || (Enabled(s, es[0]) && ValidRun(Step(s, es[0]), es[1..]))
  }

  ghost function After(s: State, es: seq<Event>): State
    requires ValidRun(s, es)
    decreases |es|
  {
    if es == [] then s else After(Step(s, es[0]), es[1..])
  }

  // ---------------------------------------------------------------- what every interleaving keeps

  /** A call and the futures: a lead is registered under its key, its future unresolved; a
      follower waits for a future somebody made; whoever joined a future and returned,
      returned its outcome. */
  ghost predicate FrameOk(g: Flight, c: Caller)
    requires |g.leaders| == |g.futures| && c in g.calls
  {
    var f := g.calls[c];
    && (IsLead(f) ==>
          && f.fut < |g.futures| && g.leaders[f.fut] == c && c in g.joined && g.joined[c] == f.fut
          && f.key in g.inflight && g.inflight[f.key] == f.fut && g.futures[f.fut] == None)
    && (f.Leading? ==> f.fut !in g.executed)
    && (f.Following? ==> f.fut < |g.futures| && c in g.joined && g.joined[c] == f.fut)
    && (f.Returned? && c in g.joined ==>
          g.joined[c] < |g.futures| && g.futures[g.joined[c]] == Some(f.outcome))
  }

  /** A registered future's leader has yet to take it out. */
  ghost predicate EntryOk(g: Flight, key: Key)
    requires |g.leaders| == |g.futures| && key in g.inflight
  {
    var fut := g.inflight[key];
    && fut < |g.futures| && g.leaders[fut] in g.calls
    && var f := g.calls[g.leaders[fut]]; IsLead(f) && f.key == key && f.fut == fut
  }

  /** An unresolved future's leader is still at work on it. */
  ghost predicate FutureOk(g: Flight, fut: nat)
    requires |g.leaders| == |g.futures| && fut < |g.futures|
  {
    && g.leaders[fut] in g.calls
    && (g.futures[fut].None? ==> var f := g.calls[g.leaders[fut]]; IsLead(f) && f.fut == fut)
  }

  ghost predicate Flying(g: Flight) {
    && |g.leaders| == |g.futures|
    && (forall c | c in g.calls :: FrameOk(g, c))
    && (forall key | key in g.inflight :: EntryOk(g, key))
    && (forall fut: nat | fut < |g.futures| :: FutureOk(g, fut))
    && (forall c | c in g.joined :: c in g.calls)
    && (forall i, j | 0 <= i < j < |g.executed| :: g.executed[i] != g.executed[j])
    && (forall i | 0 <= i < |g.executed| :: g.executed[i] < |g.futures|)
  }

  /** Every L1 entry can be found from each of its tables. */
  ghost predicate Indexed(s: State) {
    && Sound(s.index)
    && forall key, t | key in s.l1 && t in s.tables(key) :: key in KeysOfTable(s.index, t)
  }

  /** No table was written after the last write. */
  ghost predicate Dated(s: State) {
    forall t | t in s.written :: s.written[t] <= s.version
  }

  ghost predicate Inv(s: State) {
    Flying(s.flight) && Indexed(s) && Dated(s)
  }

  lemma EnteredFlies(g: Flight, c: Caller, key: Key)
    requires Flying(g) && c !in g.calls
    ensures Flying(Entered(g, c, key))
  {
    var h := Entered(g, c, key);
    forall d | d in h.calls ensures FrameOk(h, d) {
      if d in g.calls { assert FrameOk(g, d); }
    }
    forall k | k in h.inflight ensures EntryOk(h, k) {
      if k in g.inflight { assert EntryOk(g, k); }
    }
    forall fut: nat | fut < |h.futures| ensures FutureOk(h, fut) {
      if fut < |g.futures| { assert FutureOk(g, fut); }
    }
  }

  /** A lead that stays one, or a call that was none and is none. */
  lemma MovedFlies(g: Flight, c: Caller, to: Frame)
    requires Flying(g) && FrameOk(Moved(g, c, to), c)
    requires if c in g.calls && IsLead(g.calls[c])
             then IsLead(to) && to.key == g.calls[c].key && to.fut == g.calls[c].fut
             else !IsLead(to)
    ensures Flying(Moved(g, c, to))
  {
    var h := Moved(g, c, to);
    forall d | d in h.calls ensures FrameOk(h, d) {
      if d != c { assert FrameOk(g, d); }
    }
    forall k | k in h.inflight ensures EntryOk(h, k) {
      assert EntryOk(g, k);
    }
    forall fut: nat | fut < |h.futures| ensures FutureOk(h, fut) {
      assert FutureOk(g, fut);
    }
  }

  lemma ExecutesFlies(g: Flight, c: Caller)
    requires Flying(g) && c in g.calls && g.calls[c].Leading?
    ensures Flying(Executes(g, c, g.calls[c].key, g.calls[c].fut))
  {
    assert FrameOk(g, c);
    MovedFlies(g, c, Running(g.calls[c].key, g.calls[c].fut));
    var h, m := Executes(g, c, g.calls[c].key, g.calls[c].fut), Moved(g, c, Running(g.calls[c].key, g.calls[c].fut));
    forall d | d in h.calls ensures FrameOk(h, d) {
      assert FrameOk(m, d);
    }
    forall k | k in h.inflight ensures EntryOk(h, k) {
      assert EntryOk(m, k);
    }
    forall fut: nat | fut < |h.futures| ensures FutureOk(h, fut) {
      assert FutureOk(m, fut);
    }
  }

  lemma SettledFlies(g: Flight, c: Caller, o: Outcome)
    requires Flying(g) && c in g.calls && IsLead(g.calls[c])
    ensures Flying(Settled(g, c, g.calls[c].key, g.calls[c].fut, o))
  {
    var h := Settled(g, c, g.calls[c].key, g.calls[c].fut, o);
    assert FrameOk(g, c);
    forall d | d in h.calls ensures FrameOk(h, d) {
      if d != c { assert FrameOk(g, d); }
    }
    forall k | k in h.inflight ensures EntryOk(h, k) {
      assert EntryOk(g, k);
    }
    forall fut: nat | fut < |h.futures| ensures FutureOk(h, fut) {
      assert FutureOk(g, fut);
    }
  }

  lemma FlightsKept(s: State, e: Event)
    requires Flying(s.flight) && Enabled(s, e)
    ensures Flying(Step(s, e).flight)
  {
    var g := s.flight;
    match e
    case Call(c, key) =>
      if key in s.l1 { MovedFlies(g, c, Returned(Value(s.l1[key], FromL1))); } else { EnteredFlies(g, c, key); }
    case ReadL2(c) =>
      assert FrameOk(g, c);
      var key, fut := g.calls[c].key, g.calls[c].fut;
      if key in s.l2 { MovedFlies(g, c, Carrying(key, fut, s.l2[key], FromL2)); } else { ExecutesFlies(g, c); }
    case QueryReads(c, data) =>
      assert FrameOk(g, c);
      MovedFlies(g, c, Carrying(g.calls[c].key, g.calls[c].fut, Copy(data, s.version), Fresh));
    case Fill(c, _) => SettledFlies(g, c, Value(g.calls[c].copy, g.calls[c].source));
    case Fail(c, error) => SettledFlies(g, c, Raised(error));
    case Join(c) =>
      assert FrameOk(g, c);
      MovedFlies(g, c, Returned(g.futures[g.calls[c].fut].value));
    case _ =>
  }

  lemma FillIndexed(s: State, key: Key, copy: Copy)
    requires Indexed(s)
    ensures Indexed(s.(l1 := s.l1[key := copy], index := Tagged(s.index, key, s.tables(key))))
  {
    TaggingKeepsSound(s.index, key, s.tables(key));
    var u := s.(l1 := s.l1[key := copy], index := Tagged(s.index, key, s.tables(key)));
    forall k, t | k in u.l1 && t in u.tables(k) ensures k in KeysOfTable(u.index, t) {
      if k != key { assert k in KeysOfTable(s.index, t); }
    }
  }

  lemma InvalidatedIndexed(s: State, w: Writer, tables: set<Table>, precise: bool)
    requires Indexed(s)
    ensures Indexed(InvalidateStep(s, w, tables, precise))
  {
    UntaggingKeepsSound(s.index, tables);
    var u := InvalidateStep(s, w, tables, precise);
    forall k, t | k in u.l1 && t in u.tables(k) ensures k in KeysOfTable(u.index, t) {
      assert k in KeysOfTable(s.index, t) && k !in KeysOf(s.index, tables);
    }
  }

  lemma IndexedKept(s: State, e: Event)
    requires Indexed(s) && Enabled(s, e)
    ensures Indexed(Step(s, e))
  {
    match e
    case Fill(c, _) => FillIndexed(s, s.flight.calls[c].key, s.flight.calls[c].copy);
    case Invalidate(w, precise) => InvalidatedIndexed(s, w, s.writers[w].tables, precise);
    case _ =>
  }

  lemma DatedKept(s: State, e: Event)
    requires Dated(s) && Enabled(s, e)
    ensures Dated(Step(s, e))
  {
  }

  lemma InvKept(s: State, e: Event)
    requires Inv(s) && Enabled(s, e)
    ensures Inv(Step(s, e))
  {
    FlightsKept(s, e);
    IndexedKept(s, e);
    DatedKept(s, e);
  }

  lemma {:induction false} EveryInterleaving(s: State, es: seq<Event>)
    requires Inv(s) && ValidRun(s, es)
    ensures Inv(After(s, es))
    decreases |es|
  {
    if es != [] {
      InvKept(s, es[0]);
      EveryInterleaving(Step(s, es[0]), es[1..]);
    }
  }

  // ---------------------------------------------------------------- single flight

  /** Each key has at most one unresolved leader, and its future is the one registered. */
  lemma OneLeaderPerKey(tables: Key -> set<Table>, es: seq<Event>, c: Caller, d: Caller)
    requires ValidRun(Init(tables), es)
    requires var g := After(Init(tables), es).flight;
             && c in g.calls && d in g.calls && IsLead(g.calls[c]) && IsLead(g.calls[d])
             && g.calls[c].key == g.calls[d].key
    ensures var g := After(Init(tables), es).flight;
            && c == d && g.calls[c].key in g.inflight && g.inflight[g.calls[c].key] == g.calls[c].fut
  {
    EveryInterleaving(Init(tables), es);
    var g := After(Init(tables), es).flight;
    assert FrameOk(g, c) && FrameOk(g, d);
  }

  /** Whoever joined the same future, leader or follower, returned the same value or the
      same exception, and it is the one the future holds. */
  lemma FollowersGetLeadersOutcome(tables: Key -> set<Table>, es: seq<Event>, c: Caller)
    requires ValidRun(Init(tables), es)
    requires var g := After(Init(tables), es).flight; c in g.calls && g.calls[c].Returned? && c in g.joined
    ensures var g := After(Init(tables), es).flight;
            && g.joined[c] < |g.futures| == |g.leaders|
            && g.futures[g.joined[c]] == Some(g.calls[c].outcome)
            && var leader := g.leaders[g.joined[c]];
               leader in g.calls && (g.calls[leader].Returned? && leader in g.joined && g.joined[leader] == g.joined[c]
                                     ==> g.calls[leader].outcome == g.calls[c].outcome)
  {
    EveryInterleaving(Init(tables), es);
    var g := After(Init(tables), es).flight;
    assert FrameOk(g, c) && FutureOk(g, g.joined[c]);
    assert FrameOk(g, g.leaders[g.joined[c]]);
  }

  /** A future keeps its first outcome in every continuation. */
  lemma {:induction false} OutcomeIsFinal(s: State, es: seq<Event>, fut: nat)
    requires ValidRun(s, es) && fut < |s.flight.futures| && s.flight.futures[fut].Some?
    ensures var t := After(s, es).flight; fut < |t.futures| && t.futures[fut] == s.flight.futures[fut]
    decreases |es|
  {
    if es != [] {
      StaysResolved(s, es[0], fut);
      OutcomeIsFinal(Step(s, es[0]), es[1..], fut);
    }
  }

  lemma StaysResolved(s: State, e: Event, fut: nat)
    requires Enabled(s, e) && fut < |s.flight.futures| && s.flight.futures[fut].Some?
    ensures var t := Step(s, e).flight; fut < |t.futures| && t.futures[fut] == s.flight.futures[fut]
  {
  }

  /** The query runs at most once per leader. */
  lemma ExecutionsBoundedByLeaders(tables: Key -> set<Table>, es: seq<Event>)
    requires ValidRun(Init(tables), es)
    ensures |After(Init(tables), es).flight.executed| <= |After(Init(tables), es).flight.leaders|
  {
    EveryInterleaving(Init(tables), es);
    var g := After(Init(tables), es).flight;
    DistinctBelow(g.executed, |g.futures|);
  }

  lemma DistinctBelow(xs: seq<nat>, n: nat)
    requires forall i, j | 0 <= i < j < |xs| :: xs[i] != xs[j]
    requires forall i | 0 <= i < |xs| :: xs[i] < n
    ensures |xs| <= n
  {
    Fits(xs, Below(n));
  }

  lemma {:induction false} Fits(xs: seq<nat>, s: set<int>)
    requires forall i, j | 0 <= i < j < |xs| :: xs[i] != xs[j]
    requires forall i | 0 <= i < |xs| :: xs[i] in s
    ensures |xs| <= |s|
  {
    if xs != [] {
      Fits(xs[1..], s - {xs[0]});
    }
  }

  /** The numbers below `n`. */
  function Below(n: nat): (r: set<int>)
    ensures |r| == n && forall i :: i in r <==> 0 <= i < n
  {
    if n == 0 then {} else Below(n - 1) + {n - 1}
  }

  ghost predicate AllReturned(g: Flight) {
    forall c | c in g.calls :: g.calls[c].Returned?
  }

  lemma RegisteredWaits(g: Flight, key: Key)
    requires Flying(g)
    ensures key in g.inflight ==> !AllReturned(g)
  {
    if key in g.inflight {
      assert EntryOk(g, key);
      var c := g.leaders[g.inflight[key]];
      assert c in g.calls && !g.calls[c].Returned?;
    }
  }

  lemma NoneRegistered(g: Flight)
    requires Flying(g) && AllReturned(g)
    ensures g.inflight == map[]
  {
    forall key ensures key !in g.inflight {
      RegisteredWaits(g, key);
    }
    assert g.inflight.Keys == {};
  }

  /** Once every call has returned, nothing is registered. */
  lemma NothingLeftInFlight(tables: Key -> set<Table>, es: seq<Event>)
    requires ValidRun(Init(tables), es) && AllReturned(After(Init(tables), es).flight)
    ensures After(Init(tables), es).flight.inflight == map[]
  {
    EveryInterleaving(Init(tables), es);
    NoneRegistered(After(Init(tables), es).flight);
  }
}
