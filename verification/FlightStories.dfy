/** What every call of `get_or_execute` returns, told from the events alone: who hit L1, who led,
    whom the others followed, what the leader read and how it ended. */
module FlightStories {
  import opened CacheIndex
  import opened SingleFlight
  import opened Wrappers

  /** What a call came to when it entered: an L1 hit, the lead for its key, or another call's
      follower. */
  datatype Role = Hit(copy: Copy) | Leads(key: Key) | Follows(leader: Caller)

  /** The roles; what each leader read, from L2 or with the query, and from where; how it ended;
      what was last filled in under each key, and all that was fetched with queries; how many
      queries were run; how many writes there were, and which was the last of each table. */
  datatype Story = Story(
    roles: map<Caller, Role>,
    found: map<Caller, (Copy, Source)>,
    ended: map<Caller, Outcome>,
    filled: map<Key, Copy>,
    fetched: set<(Key, Copy)>,
    queries: nat,
    writes: nat,
    lastWrite: map<Table, nat>)

  const NO_STORY: Story := Story(map[], map[], map[], map[], {}, 0, 0, map[])

  /** `d` leads for the key and has not ended. */
  predicate StillLeads(h: Story, key: Key, d: Caller) {
    d in h.roles && h.roles[d] == Leads(key) && d !in h.ended
  }

  ghost function RoleOf(s: State, h: Story, key: Key): Role {
    if key in s.l1 then Hit(s.l1[key])
    else if exists d :: StillLeads(h, key, d) then
      var d :| StillLeads(h, key, d);
      Follows(d)
    else Leads(key)
  }

  /** The leader puts what it read into L1 and returns it. */
  function Filled(h: Story, c: Caller, key: Key): Story
    requires c in h.found
  {
    var (copy, source) := h.found[c];
    h.(ended := h.ended[c := Value(copy, source)], filled := h.filled[key := copy],
       fetched := if source == Fresh then h.fetched + {(key, copy)} else h.fetched)
  }

  /** One event more. Only what is in the two cache levels at that moment is taken from the
      state. */
  ghost function Told(s: State, h: Story, e: Event): Story {
    match e
    case Call(c, key) => h.(roles := h.roles[c := RoleOf(s, h, key)])
    case ReadL2(c) =>
      if c in h.roles && h.roles[c].Leads? && h.roles[c].key in s.l2
      then h.(found := h.found[c := (s.l2[h.roles[c].key], FromL2)])
      else h.(queries := h.queries + 1)
    case QueryReads(c, data) => h.(found := h.found[c := (Copy(data, h.writes), Fresh)])
    case Fill(c, _) => if c in h.found && c in h.roles && h.roles[c].Leads? then Filled(h, c, h.roles[c].key) else h
    case Fail(c, error) => h.(ended := h.ended[c := Raised(error)])
    case Write(_, tables) =>
      h.(writes := h.writes + 1,
         lastWrite := map t | t in h.lastWrite.Keys + tables :: if t in tables then h.writes + 1 else h.lastWrite[t])
    case _ => h
  }

  ghost function StoryOf(s: State, es: seq<Event>, h: Story): Story
    requires ValidRun(s, es)
    decreases |es|
  {
    if es == [] then h else StoryOf(Step(s, es[0]), es[1..], Told(s, h, es[0]))
  }

  /** What a call that has returned gave back. */
  predicate Gave(h: Story, c: Caller, o: Outcome) {
    && c in h.roles
    && match h.roles[c]
       case Hit(copy) => o == Value(copy, FromL1)
       case Leads(_) => c in h.ended && o == h.ended[c]
       case Follows(d) => d in h.ended && o == h.ended[d]
  }

  ghost predicate FrameTold(g: Flight, h: Story, c: Caller)
    requires c in g.calls && |g.leaders| == |g.futures|
  {
    && c in h.roles
    && match g.calls[c]
       case Following(fut) => fut < |g.leaders| && h.roles[c] == Follows(g.leaders[fut])
       case Leading(key, _) => h.roles[c] == Leads(key) && c !in h.ended
       case Running(key, _) => h.roles[c] == Leads(key) && c !in h.ended
       case Carrying(key, _, copy, source) =>
         h.roles[c] == Leads(key) && c !in h.ended && c in h.found && h.found[c] == (copy, source)
       case Returned(o) => Gave(h, c, o)
  }

  ghost predicate FutureTold(g: Flight, h: Story, fut: nat)
    requires |g.leaders| == |g.futures| && fut < |g.futures|
  {
    var d := g.leaders[fut];
    && d in h.roles && h.roles[d].Leads? && d in g.joined && g.joined[d] == fut
    && g.futures[fut] == if d in h.ended then Some(h.ended[d]) else None
  }

  ghost predicate AllTold(s: State, h: Story) {
    var g := s.flight;
    && |g.leaders| == |g.futures| && h.writes == s.version && h.queries == |g.executed|
    && (forall c :: c in g.calls <==> c in h.roles)
    && (forall c | c in h.ended :: c in h.roles)
    && (forall c | c in g.calls :: FrameTold(g, h, c))
    && (forall fut: nat | fut < |g.futures| :: FutureTold(g, h, fut))
  }

  /** A leader that has not ended is at work, and its future is registered. */
  lemma LeadsInFlight(s: State, h: Story, key: Key, d: Caller)
    requires Flying(s.flight) && AllTold(s, h)
    ensures StillLeads(h, key, d) ==>
              && key in s.flight.inflight && s.flight.inflight[key] < |s.flight.leaders|
              && s.flight.leaders[s.flight.inflight[key]] == d
  {
    if StillLeads(h, key, d) {
      assert FrameTold(s.flight, h, d) && FrameOk(s.flight, d);
    }
  }

  lemma InFlightLeads(s: State, h: Story, key: Key)
    requires Flying(s.flight) && AllTold(s, h)
    ensures key in s.flight.inflight ==>
              && s.flight.inflight[key] < |s.flight.leaders|
              && StillLeads(h, key, s.flight.leaders[s.flight.inflight[key]])
  {
    if key in s.flight.inflight {
      assert EntryOk(s.flight, key);
      assert FrameTold(s.flight, h, s.flight.leaders[s.flight.inflight[key]]);
    }
  }

  /** The role told is the one the registry gives. */
  lemma RoleIs(s: State, h: Story, key: Key)
    requires Flying(s.flight) && AllTold(s, h)
    ensures RoleOf(s, h, key)
            == if key in s.l1 then Hit(s.l1[key])
               else if key in s.flight.inflight && s.flight.inflight[key] < |s.flight.leaders|
               then Follows(s.flight.leaders[s.flight.inflight[key]])
               else Leads(key)
  {
    InFlightLeads(s, h, key);
    forall d ensures StillLeads(h, key, d) ==> key in s.flight.inflight && s.flight.inflight[key] < |s.flight.leaders|
                                               && s.flight.leaders[s.flight.inflight[key]] == d
    {
      LeadsInFlight(s, h, key, d);
    }
  }

  /** A call enters, with the role that goes with its frame. */
  lemma EnterTold(s: State, h: Story, c: Caller, role: Role, t: State)
    requires AllTold(s, h) && c !in s.flight.calls && t.version == s.version
    requires |t.flight.leaders| == |t.flight.futures| && t.flight.executed == s.flight.executed
    requires s.flight.leaders <= t.flight.leaders && s.flight.futures <= t.flight.futures
    requires t.flight.calls.Keys == s.flight.calls.Keys + {c}
    requires forall d | d in s.flight.calls :: t.flight.calls[d] == s.flight.calls[d]
    requires forall d | d in s.flight.joined && d != c ::
               d in t.flight.joined && t.flight.joined[d] == s.flight.joined[d]
    requires var k := h.(roles := h.roles[c := role]);
             FrameTold(t.flight, k, c)
             && forall fut: nat | |s.flight.futures| <= fut < |t.flight.futures| :: FutureTold(t.flight, k, fut)
    ensures AllTold(t, h.(roles := h.roles[c := role]))
  {
    var k := h.(roles := h.roles[c := role]);
    forall d | d in t.flight.calls ensures FrameTold(t.flight, k, d) {
      if d != c { assert FrameTold(s.flight, h, d); }
    }
    forall fut: nat | fut < |t.flight.futures| ensures FutureTold(t.flight, k, fut) {
      if fut < |s.flight.futures| { assert FutureTold(s.flight, h, fut); }
    }
  }

  lemma CallTold(s: State, h: Story, c: Caller, key: Key)
    requires Flying(s.flight) && AllTold(s, h) && c !in s.flight.calls
    ensures AllTold(Step(s, Call(c, key)), Told(s, h, Call(c, key)))
  {
    RoleIs(s, h, key);
    if key in s.l1 {
      HitTold(s, h, c, key);
    } else if key in s.flight.inflight {
      InFlightLeads(s, h, key);
      FollowTold(s, h, c, key);
    } else {
      LeadTold(s, h, c, key);
    }
  }

  lemma HitTold(s: State, h: Story, c: Caller, key: Key)
    requires AllTold(s, h) && c !in s.flight.calls && key in s.l1
    ensures AllTold(Step(s, Call(c, key)), h.(roles := h.roles[c := Hit(s.l1[key])]))
  {
    EnterTold(s, h, c, Hit(s.l1[key]), Step(s, Call(c, key)));
  }

  lemma FollowTold(s: State, h: Story, c: Caller, key: Key)
    requires AllTold(s, h) && c !in s.flight.calls && key !in s.l1
    requires key in s.flight.inflight && s.flight.inflight[key] < |s.flight.leaders|
    ensures AllTold(Step(s, Call(c, key)),
                    h.(roles := h.roles[c := Follows(s.flight.leaders[s.flight.inflight[key]])]))
  {
    EnterTold(s, h, c, Follows(s.flight.leaders[s.flight.inflight[key]]), Step(s, Call(c, key)));
  }

  lemma LeadTold(s: State, h: Story, c: Caller, key: Key)
    requires AllTold(s, h) && c !in s.flight.calls && key !in s.l1 && key !in s.flight.inflight
    ensures AllTold(Step(s, Call(c, key)), h.(roles := h.roles[c := Leads(key)]))
  {
    EnterTold(s, h, c, Leads(key), Step(s, Call(c, key)));
  }

  /** The call moves on, but nobody ends. */
  lemma MovedTold(s: State, h: Story, c: Caller, to: Frame, k: Story, t: State)
    requires AllTold(s, h) && c in s.flight.calls
    requires t.version == s.version
    requires t.flight == Moved(s.flight, c, to) || t.flight == Moved(s.flight, c, to).(executed := t.flight.executed)
    requires k.roles == h.roles && k.ended == h.ended && k.writes == h.writes && k.queries == |t.flight.executed|
    requires k.found == h.found || (c in k.found && k.found == h.found[c := k.found[c]])
    requires FrameTold(t.flight, k, c)
    ensures AllTold(t, k)
  {
    forall d | d in t.flight.calls ensures FrameTold(t.flight, k, d) {
      if d != c { assert FrameTold(s.flight, h, d); }
    }
    forall fut: nat | fut < |t.flight.futures| ensures FutureTold(t.flight, k, fut) {
      assert FutureTold(s.flight, h, fut);
    }
  }

  lemma SettledTold(s: State, h: Story, c: Caller, o: Outcome, t: State, k: Story)
    requires Flying(s.flight) && AllTold(s, h) && c in s.flight.calls && IsLead(s.flight.calls[c])
    requires t.version == s.version
    requires t.flight == Settled(s.flight, c, s.flight.calls[c].key, s.flight.calls[c].fut, o)
    requires k.roles == h.roles && k.found == h.found && k.ended == h.ended[c := o] && k.writes == h.writes
    requires k.queries == h.queries
    ensures AllTold(t, k)
  {
    assert FrameOk(s.flight, c) && FrameTold(s.flight, h, c);
    forall d | d in t.flight.calls ensures FrameTold(t.flight, k, d) {
      if d != c { assert FrameTold(s.flight, h, d) && FrameOk(s.flight, d); }
    }
    forall fut: nat | fut < |t.flight.futures| ensures FutureTold(t.flight, k, fut) {
      assert FutureTold(s.flight, h, fut);
    }
  }

  lemma JoinTold(s: State, h: Story, c: Caller)
    requires Flying(s.flight) && AllTold(s, h) && Enabled(s, Join(c))
    ensures AllTold(Step(s, Join(c)), h)
  {
    var fut := s.flight.calls[c].fut;
    assert FrameTold(s.flight, h, c) && FutureTold(s.flight, h, fut);
    MovedTold(s, h, c, Returned(s.flight.futures[fut].value), h, Step(s, Join(c)));
  }

  lemma ReadTold(s: State, h: Story, c: Caller)
    requires Flying(s.flight) && AllTold(s, h) && Enabled(s, ReadL2(c))
    ensures AllTold(Step(s, ReadL2(c)), Told(s, h, ReadL2(c)))
  {
    assert FrameTold(s.flight, h, c);
    var t := Step(s, ReadL2(c));
    MovedTold(s, h, c, t.flight.calls[c], Told(s, h, ReadL2(c)), t);
  }

  lemma QueryTold(s: State, h: Story, c: Caller, data: Data)
    requires Flying(s.flight) && AllTold(s, h) && Enabled(s, QueryReads(c, data))
    ensures AllTold(Step(s, QueryReads(c, data)), Told(s, h, QueryReads(c, data)))
  {
    assert FrameTold(s.flight, h, c);
    var t := Step(s, QueryReads(c, data));
    MovedTold(s, h, c, t.flight.calls[c], Told(s, h, QueryReads(c, data)), t);
  }

  lemma FillTold(s: State, h: Story, c: Caller, queued: bool)
    requires Flying(s.flight) && AllTold(s, h) && Enabled(s, Fill(c, queued))
    ensures AllTold(Step(s, Fill(c, queued)), Told(s, h, Fill(c, queued)))
  {
    assert FrameTold(s.flight, h, c);
    var f := s.flight.calls[c];
    SettledTold(s, h, c, Value(f.copy, f.source), Step(s, Fill(c, queued)), Told(s, h, Fill(c, queued)));
  }

  lemma StepTold(s: State, h: Story, e: Event)
    requires Flying(s.flight) && AllTold(s, h) && Enabled(s, e)
    ensures AllTold(Step(s, e), Told(s, h, e))
  {
    match e
    case Call(c, key) => CallTold(s, h, c, key);
    case ReadL2(c) => ReadTold(s, h, c);
    case QueryReads(c, data) => QueryTold(s, h, c, data);
    case Fill(c, queued) => FillTold(s, h, c, queued);
    case Fail(c, error) => SettledTold(s, h, c, Raised(error), Step(s, e), Told(s, h, e));
    case Join(c) => JoinTold(s, h, c);
    case _ => SameFlight(s, h, Step(s, e), Told(s, h, e));
  }

  lemma SameFlight(s: State, h: Story, t: State, k: Story)
    requires AllTold(s, h) && t.flight == s.flight && k == h.(writes := t.version, lastWrite := k.lastWrite)
    ensures AllTold(t, k)
  {
    forall d | d in t.flight.calls ensures FrameTold(t.flight, k, d) {
      assert FrameTold(s.flight, h, d);
    }
    forall fut: nat | fut < |t.flight.futures| ensures FutureTold(t.flight, k, fut) {
      assert FutureTold(s.flight, h, fut);
    }
  }

  /** What the two levels hold, and what is queued for L2. */
  ghost predicate StoresTold(s: State, h: Story) {
    && (forall key | key in s.l1 :: key in h.filled && s.l1[key] == h.filled[key])
    && (forall key | key in s.l2 :: (key, s.l2[key]) in h.fetched)
    && s.jobs <= h.fetched && s.written == h.lastWrite
  }

  lemma StoresKept(s: State, h: Story, e: Event)
    requires Flying(s.flight) && AllTold(s, h) && StoresTold(s, h) && Enabled(s, e)
    ensures StoresTold(Step(s, e), Told(s, h, e))
  {
    if e.Fill? { FillStored(s, h, e.c, e.queued); }
  }

  lemma FillStored(s: State, h: Story, c: Caller, queued: bool)
    requires AllTold(s, h) && StoresTold(s, h) && Enabled(s, Fill(c, queued))
    ensures StoresTold(Step(s, Fill(c, queued)), Told(s, h, Fill(c, queued)))
  {
    assert FrameTold(s.flight, h, c);
  }

  lemma {:induction false} AlwaysTold(s: State, es: seq<Event>, h: Story)
    requires Inv(s) && AllTold(s, h) && StoresTold(s, h) && ValidRun(s, es)
    ensures AllTold(After(s, es), StoryOf(s, es, h)) && StoresTold(After(s, es), StoryOf(s, es, h))
    decreases |es|
  {
    if es != [] {
      InvKept(s, es[0]);
      StepTold(s, h, es[0]);
      StoresKept(s, h, es[0]);
      AlwaysTold(Step(s, es[0]), es[1..], Told(s, h, es[0]));
    }
  }

  /** In every run, whoever has returned gave back what the events say. A hit gave the entry L1
      held; a leader whose query failed raised that error, and one that filled L1 returned what
      it had read; and every follower gave back what its leader did. */
  lemma ReturnsAsTold(tables: Key -> set<Table>, es: seq<Event>, c: Caller)
    requires ValidRun(Init(tables), es)
    requires var g := After(Init(tables), es).flight; c in g.calls && g.calls[c].Returned?
    ensures Gave(StoryOf(Init(tables), es, NO_STORY), c, After(Init(tables), es).flight.calls[c].outcome)
  {
    AlwaysTold(Init(tables), es, NO_STORY);
    assert FrameTold(After(Init(tables), es).flight, StoryOf(Init(tables), es, NO_STORY), c);
  }

  /** In every run, an L1 entry is what was last filled in under its key, and an L2 row, or a
      queued one, is what a query fetched for its key. A query is run for each read of L2 that
      misses, and each table's last write is the last event that wrote it. */
  lemma StoredAsTold(tables: Key -> set<Table>, es: seq<Event>)
    requires ValidRun(Init(tables), es)
    ensures StoresTold(After(Init(tables), es), StoryOf(Init(tables), es, NO_STORY))
    ensures |After(Init(tables), es).flight.executed| == StoryOf(Init(tables), es, NO_STORY).queries
  {
    AlwaysTold(Init(tables), es, NO_STORY);
  }
}
