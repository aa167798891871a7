/** Reads in flight during a write: exactly when data from before the write can end up in L1
    after the write has invalidated. */
module CacheRaces {
  import opened CacheIndex
  import opened SingleFlight
  import opened Wrappers

  /** A copy of this key's result from before the last write of table `t`, which it reads. */
  predicate Old(s: State, t: Table, key: Key, copy: Copy) {
    t in s.tables(key) && t in s.written && copy.seen < s.written[t]
  }

  ghost predicate OldInL1(s: State, t: Table) {
    exists key :: key in s.l1 && Old(s, t, key, s.l1[key])
  }

  ghost predicate OldInL2(s: State, t: Table) {
    exists key :: key in s.l2 && Old(s, t, key, s.l2[key])
  }

  ghost predicate OldQueued(s: State, t: Table) {
    exists job :: job in s.jobs && Old(s, t, job.0, job.1)
  }

  /** A call is past its read, in L2 or in the database, and has not filled L1. */
  ghost predicate OldCarried(s: State, t: Table) {
    exists c :: c in s.flight.calls && Carries(s, t, s.flight.calls[c])
  }

  predicate Carries(s: State, t: Table, f: Frame) {
    f.Carrying? && Old(s, t, f.key, f.copy)
  }

  ghost predicate OldAnywhere(s: State, t: Table) {
    OldInL1(s, t) || OldInL2(s, t) || OldQueued(s, t) || OldCarried(s, t)
  }

  /** Nobody writes the table. */
  ghost predicate Unwritten(es: seq<Event>, t: Table) {
    forall i | 0 <= i < |es| :: !Writes(es[i], t)
  }

  predicate Writes(e: Event, t: Table) {
    e.Write? && t in e.tables
  }

  /** Without another write of the table, some continuation has old data over it in L1. */
  ghost predicate CanSurface(s: State, t: Table) {
    exists es :: ValidRun(s, es) && Unwritten(es, t) && OldInL1(After(s, es), t)
  }

  // ---------------------------------------------------------------- old data comes from old data

  lemma SameAge(s: State, e: Event, t: Table)
    requires Enabled(s, e) && !Writes(e, t)
    ensures var u := Step(s, e);
            forall key, copy :: Old(u, t, key, copy) <==> Old(s, t, key, copy)
  {
  }

  lemma L1FromOld(s: State, e: Event, t: Table)
    requires Enabled(s, e) && !Writes(e, t) && OldInL1(Step(s, e), t)
    ensures OldAnywhere(s, t)
  {
    SameAge(s, e, t);
    var u := Step(s, e);
    var key :| key in u.l1 && Old(u, t, key, u.l1[key]);
    if e.Fill? && s.flight.calls[e.c].key == key {
      assert Carries(s, t, s.flight.calls[e.c]);
    } else {
      assert key in s.l1 && s.l1[key] == u.l1[key];
    }
  }

  lemma L2FromOld(s: State, e: Event, t: Table)
    requires Enabled(s, e) && !Writes(e, t) && OldInL2(Step(s, e), t)
    ensures OldAnywhere(s, t)
  {
    SameAge(s, e, t);
    var u := Step(s, e);
    var key :| key in u.l2 && Old(u, t, key, u.l2[key]);
    if e.Persist? && e.key == key {
      assert (key, e.copy) in s.jobs;
    } else {
      assert key in s.l2 && s.l2[key] == u.l2[key];
    }
  }

  lemma JobFromOld(s: State, e: Event, t: Table)
    requires Enabled(s, e) && !Writes(e, t) && OldQueued(Step(s, e), t)
    ensures OldAnywhere(s, t)
  {
    SameAge(s, e, t);
    var u := Step(s, e);
    var job :| job in u.jobs && Old(u, t, job.0, job.1);
    if job !in s.jobs {
      assert e.Fill? && Carries(s, t, s.flight.calls[e.c]);
    }
  }

  lemma CallFromOld(s: State, e: Event, t: Table)
    requires Dated(s) && Enabled(s, e) && !Writes(e, t) && OldCarried(Step(s, e), t)
    ensures OldAnywhere(s, t)
  {
    SameAge(s, e, t);
    var u := Step(s, e);
    var c :| c in u.flight.calls && Carries(u, t, u.flight.calls[c]);
    if e.ReadL2? && e.c == c {
      assert s.flight.calls[c].key in s.l2;
    } else {
      assert c in s.flight.calls && s.flight.calls[c] == u.flight.calls[c];
    }
  }

  lemma {:induction false} OldComesFromOld(s: State, es: seq<Event>, t: Table)
    requires Inv(s) && ValidRun(s, es) && Unwritten(es, t) && OldAnywhere(After(s, es), t)
    ensures OldAnywhere(s, t)
    decreases |es|
  {
    if es != [] {
      var e, u := es[0], Step(s, es[0]);
      InvKept(s, e);
      assert !Writes(e, t);
      assert Unwritten(es[1..], t) by {
        assert forall i | 0 <= i < |es| - 1 :: es[1..][i] == es[i + 1];
      }
      OldComesFromOld(u, es[1..], t);
      if OldInL1(u, t) { L1FromOld(s, e, t); }
      else if OldInL2(u, t) { L2FromOld(s, e, t); }
      else if OldQueued(u, t) { JobFromOld(s, e, t); }
      else { CallFromOld(s, e, t); }
    }
  }

  // ---------------------------------------------------------------- and finds its way to L1

  /** One event first. */
  lemma Via(s: State, e: Event, t: Table)
    requires Enabled(s, e) && !Writes(e, t) && CanSurface(Step(s, e), t)
    ensures CanSurface(s, t)
  {
    var es :| ValidRun(Step(s, e), es) && Unwritten(es, t) && OldInL1(After(Step(s, e), es), t);
    var all := [e] + es;
    assert all[0] == e && all[1..] == es;
    assert ValidRun(s, all) && After(s, all) == After(Step(s, e), es);
    assert Unwritten(all, t);
  }

  lemma Already(s: State, t: Table)
    requires OldInL1(s, t)
    ensures CanSurface(s, t)
  {
    assert ValidRun(s, []) && After(s, []) == s && Unwritten([], t);
  }

  /** What a call carries, it fills. */
  lemma CarriedSurfaces(s: State, t: Table, c: Caller)
    requires c in s.flight.calls && Carries(s, t, s.flight.calls[c])
    ensures CanSurface(s, t)
  {
    var e, key := Fill(c, false), s.flight.calls[c].key;
    var u := Step(s, e);
    assert key in u.l1 && Old(u, t, key, u.l1[key]);
    Already(u, t);
    Via(s, e, t);
  }

  lemma SomeoneElse(calls: map<Caller, Frame>) returns (d: Caller)
    ensures d !in calls
  {
    d := Above(calls.Keys);
  }

  lemma Above(s: set<int>) returns (d: int)
    ensures forall x :: x in s ==> x < d
  {
    if x :| x in s {
      var r := Above(s - {x});
      assert forall y :: y in s ==> y == x || y in s - {x};
      d := if r > x then r else x + 1;
    } else {
      d := 0;
    }
  }

  /** With nobody leading for the key and nothing in L1, the next call reads the row. */
  lemma RowSurfacesToNextCall(s: State, t: Table, key: Key)
    requires key in s.l2 && Old(s, t, key, s.l2[key]) && key !in s.l1 && key !in s.flight.inflight
    ensures CanSurface(s, t)
  {
    var d := SomeoneElse(s.flight.calls);
    var u := Step(s, Call(d, key));
    var v := Step(u, ReadL2(d));
    assert Carries(v, t, v.flight.calls[d]);
    CarriedSurfaces(v, t, d);
    Via(u, ReadL2(d), t);
    Via(s, Call(d, key), t);
  }

  lemma RowSurfacesUnled(s: State, t: Table, key: Key)
    requires key in s.l2 && Old(s, t, key, s.l2[key]) && key !in s.flight.inflight
    ensures CanSurface(s, t)
  {
    RowSurfacesToNextCall(Step(s, Drop(key)), t, key);
    Via(s, Drop(key), t);
  }

  lemma RowSurfaces(s: State, t: Table, key: Key)
    requires Flying(s.flight) && key in s.l2 && Old(s, t, key, s.l2[key])
    ensures CanSurface(s, t)
  {
    if key !in s.flight.inflight {
      RowSurfacesUnled(s, t, key);
    } else {
      assert EntryOk(s.flight, key);
      var c := s.flight.leaders[s.flight.inflight[key]];
      if s.flight.calls[c].Leading? {
        var u := Step(s, ReadL2(c));
        assert Carries(u, t, u.flight.calls[c]);
        CarriedSurfaces(u, t, c);
        Via(s, ReadL2(c), t);
      } else {
        var e := if s.flight.calls[c].Running? then Fail(c, "") else Fill(c, false);
        RowSurfacesUnled(Step(s, e), t, key);
        Via(s, e, t);
      }
    }
  }

  lemma JobSurfaces(s: State, t: Table, key: Key, copy: Copy)
    requires Flying(s.flight) && (key, copy) in s.jobs && Old(s, t, key, copy)
    ensures CanSurface(s, t)
  {
    var e := Persist(key, copy);
    FlightsKept(s, e);
    RowSurfaces(Step(s, e), t, key);
    Via(s, e, t);
  }

  /** In every reachable state: old data over a table can be in L1, now or later without
      another write, if and only if there is some in L1, in L2, in a queued job, or with a
      call past its read. */
  lemma SurfacesExactlyWhen(s: State, t: Table)
    requires Inv(s)
    ensures CanSurface(s, t) <==> OldAnywhere(s, t)
  {
    if CanSurface(s, t) {
      var es :| ValidRun(s, es) && Unwritten(es, t) && OldInL1(After(s, es), t);
      OldComesFromOld(s, es, t);
    }
    if OldInL1(s, t) { Already(s, t); }
    if OldInL2(s, t) {
      var key :| key in s.l2 && Old(s, t, key, s.l2[key]);
      RowSurfaces(s, t, key);
    }
    if OldQueued(s, t) {
      var job :| job in s.jobs && Old(s, t, job.0, job.1);
      JobSurfaces(s, t, job.0, job.1);
    }
    if OldCarried(s, t) {
      var c :| c in s.flight.calls && Carries(s, t, s.flight.calls[c]);
      CarriedSurfaces(s, t, c);
    }
  }

  // ---------------------------------------------------------------- at the invalidation

  /** Scoped or not, invalidation leaves nothing over the written tables in L1. */
  lemma InvalidationDropsAll(s: State, w: Writer, precise: bool, t: Table)
    requires Inv(s) && Enabled(s, Invalidate(w, precise)) && t in s.writers[w].tables
    ensures forall key | key in Step(s, Invalidate(w, precise)).l1 :: t !in s.tables(key)
  {
    forall key | key in s.l1 && t in s.tables(key) ensures key in KeysOf(s.index, s.writers[w].tables) {
      assert key in KeysOfTable(s.index, t);
    }
  }

  /** What invalidation misses, exactly. An entry from before the write can be in L1
      afterwards if and only if, when the write invalidates, a call over the table is past
      its read with the old data and has not filled, or the old data is still in L2 or in a
      queued job. */
  lemma OutlivesInvalidationExactlyWhen(s: State, w: Writer, precise: bool, t: Table)
    requires Inv(s) && Enabled(s, Invalidate(w, precise)) && t in s.writers[w].tables
    ensures CanSurface(Step(s, Invalidate(w, precise)), t)
            <==> OldCarried(s, t) || OldInL2(s, t) || OldQueued(s, t)
  {
    var e := Invalidate(w, precise);
    var u := Step(s, e);
    InvKept(s, e);
    SameAge(s, e, t);
    InvalidationDropsAll(s, w, precise, t);
    assert !OldInL1(u, t);
    assert OldInL2(u, t) <==> OldInL2(s, t);
    assert OldQueued(u, t) <==> OldQueued(s, t);
    assert OldCarried(u, t) <==> OldCarried(s, t) by {
      assert u.flight.calls == s.flight.calls;
      assert forall c | c in s.flight.calls :: Carries(u, t, u.flight.calls[c]) <==> Carries(s, t, s.flight.calls[c]);
    }
    SurfacesExactlyWhen(u, t);
  }

  // ---------------------------------------------------------------- what a write drops and spares

  /** A key is listed under no table its statement does not read. */
  ghost predicate TagsExact(s: State) {
    forall t, key | key in KeysOfTable(s.index, t) :: t in s.tables(key)
  }

  lemma StepKeepsTags(s: State, e: Event)
    requires TagsExact(s) && Enabled(s, e)
    ensures TagsExact(Step(s, e))
  {
    var u := Step(s, e);
    forall t, key | key in KeysOfTable(u.index, t) ensures t in u.tables(key) {
      if key !in KeysOfTable(s.index, t) {
        assert e.Fill? && key == s.flight.calls[e.c].key;
      }
    }
  }

  lemma {:induction false} AlwaysTagsExact(s: State, es: seq<Event>)
    requires TagsExact(s) && ValidRun(s, es)
    ensures TagsExact(After(s, es))
    decreases |es|
  {
    if es != [] {
      StepKeepsTags(s, es[0]);
      AlwaysTagsExact(Step(s, es[0]), es[1..]);
    }
  }

  /** In every interleaving, invalidation keeps an L1 entry exactly when it is scoped, has found
      a key, and the entry's statement reads none of the written tables. */
  lemma SparesExactlyWhen(tables: Key -> set<Table>, es: seq<Event>, w: Writer, precise: bool, key: Key)
    requires ValidRun(Init(tables), es) && Enabled(After(Init(tables), es), Invalidate(w, precise))
    requires key in After(Init(tables), es).l1
    ensures var s := After(Init(tables), es);
            var written, u := s.writers[w].tables, Step(s, Invalidate(w, precise));
            && (key in u.l1 <==> precise && KeysOf(s.index, written) != {} && written !! s.tables(key))
            && (key in u.l1 ==> u.l1[key] == s.l1[key])
  {
    var s := After(Init(tables), es);
    EveryInterleaving(Init(tables), es);
    AlwaysTagsExact(Init(tables), es);
    ListedExactlyWhen(s, s.writers[w].tables, key);
  }

  lemma ListedExactlyWhen(s: State, written: set<Table>, key: Key)
    requires Indexed(s) && TagsExact(s) && key in s.l1
    ensures key in KeysOf(s.index, written) <==> !(written !! s.tables(key))
  {
    if t :| t in written && t in s.tables(key) {
      assert key in KeysOfTable(s.index, t);
    }
  }

  /** What a writer of these tables has purged from L2 so far. */
  ghost predicate Purged(s: State, w: Writer, tables: set<Table>) {
    if w !in s.writers then forall key | key in s.l2 :: s.tables(key) !! tables
    else
      match s.writers[w]
      case Committed(ts) => ts == tables
      case Purging(left) => left <= tables && forall key | key in s.l2 :: s.tables(key) !! tables - left
      case Clearing => true
  }

  /** Nothing is stored in L2, and the writer does not write again. */
  predicate Quiet(e: Event, w: Writer) {
    !e.Persist? && !(e.Write? && e.w == w)
  }

  lemma StepPurges(s: State, e: Event, w: Writer, tables: set<Table>)
    requires Purged(s, w, tables) && Enabled(s, e) && Quiet(e, w)
    ensures Purged(Step(s, e), w, tables)
  {
    var u := Step(s, e);
    if e.PurgeTable? && e.w == w {
      var left := s.writers[w].tables;
      forall key | key in u.l2 ensures s.tables(key) !! tables - (left - {e.t}) {
        assert s.tables(key) !! tables - left && e.t !in s.tables(key);
      }
    } else if e.Invalidate? && e.w == w {
      assert tables - tables == {};
    } else if !e.Write? {
      assert u.writers.Keys - {w} <= s.writers.Keys;
      assert (w in u.writers <==> w in s.writers) || e.ClearL2?;
      assert u.l2.Keys <= s.l2.Keys;
    }
  }

  /** Once a writer has finished, L2 holds nothing over its tables but what was stored
      meanwhile. */
  lemma {:induction false} FinishedPurgeLeavesNone(s: State, es: seq<Event>, w: Writer, tables: set<Table>)
    requires Purged(s, w, tables) && ValidRun(s, es) && forall i | 0 <= i < |es| :: Quiet(es[i], w)
    requires w !in After(s, es).writers
    ensures forall key | key in After(s, es).l2 :: After(s, es).tables(key) !! tables
    decreases |es|
  {
    if es != [] {
      assert Quiet(es[0], w);
      StepPurges(s, es[0], w, tables);
      FinishedPurgeLeavesNone(Step(s, es[0]), es[1..], w, tables);
    }
  }

  /** And purging a table takes nothing else. */
  lemma PurgeSparesOthers(s: State, w: Writer, t: Table, key: Key)
    requires Enabled(s, PurgeTable(w, t)) && key in s.l2
    ensures var u := Step(s, PurgeTable(w, t));
            (key in u.l2 <==> t !in s.tables(key)) && (key in u.l2 ==> u.l2[key] == s.l2[key]) && u.l1 == s.l1
  {
  }

  // ---------------------------------------------------------------- it happens

  /** Every statement reads table "t". */
  const ONE_TABLE: Key -> set<Table> := key => {"t"}

  ghost predicate Reaches(s: State, es: seq<Event>, u: State) {
    ValidRun(s, es) && After(s, es) == u
  }

  lemma {:induction false} ReachesOn(s: State, a: seq<Event>, u: State, e: Event)
    requires Reaches(s, a, u) && Enabled(u, e)
    ensures Reaches(s, a + [e], Step(u, e))
    decreases |a|
  {
    var all := a + [e];
    if a == [] {
      assert all == [e] && all[1..] == [];
      assert ValidRun(Step(s, e), all[1..]);
      assert After(s, all) == After(Step(s, e), all[1..]);
    } else {
      ReachesOn(Step(s, a[0]), a[1..], u, e);
      assert all[0] == a[0] && all[1..] == a[1..] + [e];
    }
  }

  /** A call reads the database; a write commits, finds no key to drop and clears everything;
      the call then fills L1 with what it read. */
  lemma ReadOutlivesWrite()
    ensures var es := [] + [Call(1, "k")] + [ReadL2(1)] + [QueryReads(1, "old")] + [Write(9, {"t"})]
                      + [Invalidate(9, true)] + [ClearL2(9)] + [Fill(1, true)];
            ValidRun(Init(ONE_TABLE), es) && OldInL1(After(Init(ONE_TABLE), es), "t")
  {
    var s := Init(ONE_TABLE);
    var s1 := Step(s, Call(1, "k"));
    var s2 := Step(s1, ReadL2(1));
    var s3 := Step(s2, QueryReads(1, "old"));
    var s4 := Step(s3, Write(9, {"t"}));
    assert s4.written == map["t" := 1] && s4.flight.calls[1] == Carrying("k", 0, Copy("old", 0), Fresh);
    var s5 := Step(s4, Invalidate(9, true));
    assert KeysOf(s4.index, {"t"}) == {};
    var s6 := Step(s5, ClearL2(9));
    var s7 := Step(s6, Fill(1, true));
    ReachesOn(s, [], s, Call(1, "k"));
    ReachesOn(s, [] + [Call(1, "k")], s1, ReadL2(1));
    ReachesOn(s, [] + [Call(1, "k")] + [ReadL2(1)], s2, QueryReads(1, "old"));
    var a := [] + [Call(1, "k")] + [ReadL2(1)] + [QueryReads(1, "old")];
    ReachesOn(s, a, s3, Write(9, {"t"}));
    ReachesOn(s, a + [Write(9, {"t"})], s4, Invalidate(9, true));
    ReachesOn(s, a + [Write(9, {"t"})] + [Invalidate(9, true)], s5, ClearL2(9));
    ReachesOn(s, a + [Write(9, {"t"})] + [Invalidate(9, true)] + [ClearL2(9)], s6, Fill(1, true));
    assert s7.l1["k"] == Copy("old", 0) && s7.written == map["t" := 1];
    assert Old(s7, "t", "k", s7.l1["k"]);
  }

  /** The gap between L1 and L2: a write invalidates L1, a call reads the old row, the row is
      purged, and the call fills L1 from it. */
  lemma RowOutlivesWrite()
    ensures var es := FILLED_AND_STORED + [Write(9, {"t"})] + [Invalidate(9, true)] + [Call(2, "k")] + [ReadL2(2)]
                      + [PurgeTable(9, "t")] + [Fill(2, false)];
            ValidRun(Init(ONE_TABLE), es)
            && OldInL1(After(Init(ONE_TABLE), es), "t") && After(Init(ONE_TABLE), es).writers == map[]
  {
    Gap();
    var s := Init(ONE_TABLE);
    var s3 := Step(GAP, Call(2, "k"));
    var s4 := Step(s3, ReadL2(2));
    var s5 := Step(s4, PurgeTable(9, "t"));
    assert s5.writers == map[] by { assert {"t"} - {"t"} == {}; }
    var a := FILLED_AND_STORED + [Write(9, {"t"})] + [Invalidate(9, true)];
    ReachesOn(s, a, GAP, Call(2, "k"));
    ReachesOn(s, a + [Call(2, "k")], s3, ReadL2(2));
    ReachesOn(s, a + [Call(2, "k")] + [ReadL2(2)], s4, PurgeTable(9, "t"));
    ReachesOn(s, a + [Call(2, "k")] + [ReadL2(2)] + [PurgeTable(9, "t")], s5, Fill(2, false));
    var s6 := Step(s5, Fill(2, false));
    assert Old(s6, "t", "k", s6.l1["k"]);
  }

  ghost const GAP: State :=
    STORED.(version := 1, written := map["t" := 1], l1 := map[], index := NO_INDEX,
            writers := map[9 := Purging({"t"})])

  lemma Gap()
    ensures Reaches(Init(ONE_TABLE), FILLED_AND_STORED + [Write(9, {"t"})] + [Invalidate(9, true)], GAP)
  {
    Stored();
    var s := Init(ONE_TABLE);
    var s1 := Step(STORED, Write(9, {"t"}));
    assert s1.written == map["t" := 1];
    assert KeysOf(s1.index, {"t"}) == {"k"} by { assert KeysOfTable(s1.index, "t") == {"k"}; }
    var s2 := Step(s1, Invalidate(9, true));
    assert s2.l1 == map[] && s2.writers == map[9 := Purging({"t"})];
    assert s2.index.keyTables == map[] && s2.index.tableKeys == map[];
    ReachesOn(s, FILLED_AND_STORED, STORED, Write(9, {"t"}));
    ReachesOn(s, FILLED_AND_STORED + [Write(9, {"t"})], s1, Invalidate(9, true));
  }

  /** Call 1 runs the query, fills L1, and its result is stored in L2. */
  const FILL: seq<Event> := [] + [Call(1, "k")] + [ReadL2(1)] + [QueryReads(1, "old")] + [Fill(1, true)]

  const FILLED_AND_STORED: seq<Event> := FILL + [Persist("k", Copy("old", 0))]

  ghost const STORED: State :=
    var o := Value(Copy("old", 0), Fresh);
    State(ONE_TABLE, 0, map[], map["k" := Copy("old", 0)], map["k" := Copy("old", 0)],
          Index(map["k" := {"t"}], map["t" := {"k"}]), {}, map[],
          Flight(map[], [Some(o)], map[1 := Returned(o)], [1], map[1 := 0], [0]))

  lemma TaggedOnce()
    ensures Tagged(NO_INDEX, "k", {"t"}) == Index(map["k" := {"t"}], map["t" := {"k"}])
  {
    var ix := Tagged(NO_INDEX, "k", {"t"});
    assert ix.keyTables == map["k" := {"t"}];
    assert ix.tableKeys.Keys == {"t"} && ix.tableKeys["t"] == {"k"};
    assert ix.tableKeys == map["t" := {"k"}];
  }

  lemma Filled()
    ensures Reaches(Init(ONE_TABLE), FILL, STORED.(l2 := map[], jobs := {("k", Copy("old", 0))}))
  {
    var s := Init(ONE_TABLE);
    var s1 := Step(s, Call(1, "k"));
    var s2 := Step(s1, ReadL2(1));
    var s3 := Step(s2, QueryReads(1, "old"));
    var a := [] + [Call(1, "k")] + [ReadL2(1)];
    ReachesOn(s, [], s, Call(1, "k"));
    ReachesOn(s, [] + [Call(1, "k")], s1, ReadL2(1));
    ReachesOn(s, a, s2, QueryReads(1, "old"));
    ReachesOn(s, a + [QueryReads(1, "old")], s3, Fill(1, true));
    var u := Step(s3, Fill(1, true));
    assert u.flight == STORED.flight;
    assert u.index == STORED.index by { TaggedOnce(); }
    assert u.l1 == STORED.l1 && u.jobs == {("k", Copy("old", 0))};
  }

  lemma Stored()
    ensures Reaches(Init(ONE_TABLE), FILLED_AND_STORED, STORED)
  {
    Filled();
    var f := STORED.(l2 := map[], jobs := {("k", Copy("old", 0))});
    ReachesOn(Init(ONE_TABLE), FILL, f, Persist("k", Copy("old", 0)));
    var u := Step(f, Persist("k", Copy("old", 0)));
    assert u.l2 == STORED.l2 && u.jobs == {};
  }
}
