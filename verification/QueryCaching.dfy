/** `QueryService.run` over both cache levels, one request after another: reads return what
    bounded execution on the current database would. */
module QueryCaching {
  import opened BoundedRows
  import opened CacheIndex
  import opened LruCache
  import opened Wrappers

  /** A row, already in the shape JSON gives it. */
  type Row = string

  type Content = seq<Row>

  type Db = map<Table, Content>

  datatype Query = Query(sql: string, params: string)

  /** The database engine and the textual helpers, as functions: what a statement returns in
      full; what it does to the database and returns, or that it fails and is rolled back;
      whether it is classified as a read; which tables its text names; its cache key; a row's
      size. */
  datatype Engine = Engine(
    eval: (Db, Query) -> seq<Row>,
    exec: (Db, Query) -> Option<(Db, seq<Row>)>,
    isRead: string -> bool,
    tables: string -> set<Table>,
    key: Query -> string,
    size: Row -> nat)

  function At(d: Db, t: Table): Option<Content> {
    if t in d then Some(d[t]) else None
  }

  ghost predicate AgreeOn(d: Db, e: Db, tables: set<Table>) {
    forall t | t in tables :: At(d, t) == At(e, t)
  }

  /** `query_sql LIKE '%name%'`, for names made of letters, digits and underscores: the
      underscore stands for any character. */
  predicate Like(sql: string, name: string) {
    exists i | 0 <= i <= |sql| - |name| :: LikeAt(sql, name, i)
  }

  predicate LikeAt(sql: string, name: string, i: int) {
    0 <= i <= |sql| - |name| && forall k | 0 <= k < |name| :: name[k] == '_' || name[k] == sql[i + k]
  }

  predicate Occurs(name: string, sql: string) {
    exists i | 0 <= i <= |sql| - |name| :: OccursAt(name, sql, i)
  }

  predicate OccursAt(name: string, sql: string, i: int) {
    0 <= i <= |sql| - |name| && sql[i..i + |name|] == name
  }

  /** What is assumed of the engine: distinct queries have distinct keys; the result of a
      read depends only on the tables its text names; a write that names tables changes no
      others; and an extracted name occurs in the text. */
  ghost predicate Reasonable(e: Engine) {
    && (forall p, q :: e.key(p) == e.key(q) ==> p == q)
    && (forall q: Query, c: Db, d: Db | e.isRead(q.sql) && AgreeOn(c, d, e.tables(q.sql)) ::
          e.eval(c, q) == e.eval(d, q))
    && (forall q: Query, d: Db | !e.isRead(q.sql) && e.tables(q.sql) != {} && e.exec(d, q).Some? ::
          forall t | t !in e.tables(q.sql) :: At(e.exec(d, q).value.0, t) == At(d, t))
    && (forall sql, t | t in e.tables(sql) :: Occurs(t, sql))
  }

  /** A row of the `query_cache` table. */
  datatype Stored = Stored(sql: string, data: seq<Row>, expiresAt: Option<int>, user: Option<string>)

  /** What becomes of the queued job that writes a fresh result to L2. */
  datatype Job = Dropped | DoneFor(user: Option<string>)

  const TTL_SECONDS: int := 3600

  /** Everything a request can touch. */
  datatype Service = Service(
    db: Db,
    l1: Cache<seq<Row>>,
    index: Index,
    l2: map<string, Stored>,
    limits: Limits,
    precise: bool)

  datatype Source = FromL1 | FromL2 | Fresh

  datatype Outcome =
    | Rows(data: seq<Row>, source: Source, truncated: bool)
    | Written(data: seq<Row>, truncated: bool)
    | Refused
    | WriteFailed

  /** `get_cached_result`. */
  function Lookup(l2: map<string, Stored>, key: string, now: real): Option<Stored> {
    if key in l2 && (l2[key].expiresAt.None? || l2[key].expiresAt.value > now.Floor) then Some(l2[key]) else None
  }

  /** L1 put and tag. */
  function Fill(s: Service, key: string, data: seq<Row>, tables: set<Table>, now: real): Service
    requires s.l1.maxSize >= 1
  {
    s.(l1 := Put(s.l1, key, Entry(data, Some(TTL_SECONDS as real), now)), index := Tagged(s.index, key, tables))
  }

  /** What `get_or_execute` hands to `run`, and whether running the query cut it short. */
  datatype Found = Found(data: seq<Row>, source: Source, cut: bool)

  /** `_resolve`: L2, else the database, both of which fill L1. The write to L2 is a queued
      job, which may be dropped. */
  function Resolved(e: Engine, s: Service, q: Query, now: real, persisted: Job): (r: (Service, Found))
    requires s.l1.maxSize >= 1
    ensures r.0.l1.maxSize == s.l1.maxSize
  {
    var key, tables := e.key(q), e.tables(q.sql);
    var row := Lookup(s.l2, key, now);
    if row.Some? then
      (Fill(s, key, row.value.data, tables, now), Found(row.value.data, FromL2, false))
    else
      var (fetched, cut) := Bounded(e.eval(s.db, q), e.size, s.limits);
      var filled := Fill(s, key, fetched, tables, now);
      (if persisted.DoneFor? && fetched != []
       then filled.(l2 := s.l2[key := Stored(q.sql, fetched, Some(now.Floor + TTL_SECONDS), persisted.user)])
       else filled,
       Found(fetched, Fresh, cut))
  }

  /** A read: L1, else what `_resolve` finds; the limits are applied to whatever comes back. */
  function Read(e: Engine, s: Service, q: Query, now: real, persisted: Job): (r: (Service, Outcome))
    requires s.l1.maxSize >= 1
    ensures r.0.l1.maxSize == s.l1.maxSize
  {
    var (l1, hit) := Got(s.l1, e.key(q), now);
    var looked := s.(l1 := l1);
    var (after, found) :=
      if hit.Some? then (looked, Found(hit.value, FromL1, false)) else Resolved(e, looked, q, now, persisted);
    var (data, cut) := Bounded(found.data, e.size, s.limits);
    (after, Rows(data, found.source, found.cut || cut))
  }

  /** L1 without the listed keys. */
  function DropKeys<V>(c: Cache<V>, keys: set<string>): Cache<V> {
    c.(order := Filtered(c.order, keys), entries := c.entries - keys)
  }

  function Filtered(order: seq<string>, keys: set<string>): seq<string> {
    if order == [] then []
    else (if order[0] in keys then [] else [order[0]]) + Filtered(order[1..], keys)
  }

  /** `invalidate_cache(query_pattern=t)` for each of the tables. */
  function Unmatched(l2: map<string, Stored>, tables: set<Table>): map<string, Stored> {
    map k | k in l2 && !exists t | t in tables :: Like(l2[k].sql, t) :: l2[k]
  }

  /** `clear_all`. */
  function Cleared(s: Service): Service {
    s.(index := NO_INDEX, l1 := New(s.l1.maxSize), l2 := map[])
  }

  /** `_invalidate_after_write`: scoped to the tables if that finds anything, else everything. */
  function Invalidated(s: Service, tables: set<Table>): Service {
    var keys := KeysOf(s.index, tables);
    if s.precise && keys != {} then
      s.(index := Untagged(s.index, tables), l1 := DropKeys(s.l1, keys), l2 := Unmatched(s.l2, tables))
    else Cleared(s)
  }

  function Write(e: Engine, s: Service, q: Query, mayWrite: bool): (Service, Outcome) {
    if !mayWrite then (s, Refused)
    else
      var done := e.exec(s.db, q);
      if done.None? then (s, WriteFailed)
      else
        var (data, cut) := Bounded(done.value.1, e.size, s.limits);
        (Invalidated(s.(db := done.value.0), e.tables(q.sql)), Written(data, cut))
  }

  /** `QueryService.run`. */
  function Run(e: Engine, s: Service, q: Query, now: real, mayWrite: bool, persisted: Job): (r: (Service, Outcome))
    requires s.l1.maxSize >= 1
    ensures r.0.l1.maxSize == s.l1.maxSize
  {
    if e.isRead(q.sql) then Read(e, s, q, now, persisted) else Write(e, s, q, mayWrite)
  }

  /** What can happen between requests: the limits are changed, rows of L2 are purged, or
      the process restarts with the database and L2 as they were. */
  datatype Event =
    | Request(q: Query, now: real, mayWrite: bool, persisted: Job)
    | Configure(limits: Limits)
    | Purge(keys: set<string>)
    | Restart

  function Step(e: Engine, s: Service, ev: Event): (r: Service)
    requires s.l1.maxSize >= 1
    ensures r.l1.maxSize == s.l1.maxSize
  {
    match ev
    case Request(q, now, mayWrite, persisted) => Run(e, s, q, now, mayWrite, persisted).0
    case Configure(l) => s.(limits := l)
    case Purge(keys) => s.(l2 := s.l2 - keys)
    case Restart => s.(index := NO_INDEX, l1 := New(s.l1.maxSize))
  }

  // ---------------------------------------------------------------- coherence

  predicate NoLooser(a: Limits, b: Limits) {
    a.maxRows <= b.maxRows && a.maxBytes <= b.maxBytes
  }

  /** Cached data is what the query would return now, under limits `a`. */
  ghost predicate CutBy(e: Engine, s: Service, q: Query, data: seq<Row>, a: Limits) {
    data == Bounded(e.eval(s.db, q), e.size, a).0
  }

  /** Under some limits that have been in force. */
  ghost predicate Good(e: Engine, s: Service, used: set<Limits>, q: Query, data: seq<Row>) {
    exists a :: a in used && CutBy(e, s, q, data, a)
  }

  ghost predicate L1Good(e: Engine, s: Service, used: set<Limits>, q: Query) {
    e.key(q) in s.l1.entries ==>
      && Good(e, s, used, q, s.l1.entries[e.key(q)].value)
      && forall t | t in e.tables(q.sql) :: e.key(q) in KeysOfTable(s.index, t)
  }

  ghost predicate L2Good(e: Engine, s: Service, used: set<Limits>, q: Query) {
    e.key(q) in s.l2 ==> s.l2[e.key(q)].sql == q.sql && Good(e, s, used, q, s.l2[e.key(q)].data)
  }

  /** Every entry of either level that a read can find is good, and L1 entries are tagged. */
  ghost predicate Coherent(e: Engine, s: Service, used: set<Limits>) {
    && Valid(s.l1) && s.limits in used
    && (forall q: Query | e.isRead(q.sql) :: L1Good(e, s, used, q))
    && (forall q: Query | e.isRead(q.sql) :: L2Good(e, s, used, q))
  }

  lemma BoundedIsGood(e: Engine, s: Service, used: set<Limits>, q: Query)
    requires s.limits in used
    ensures Good(e, s, used, q, Bounded(e.eval(s.db, q), e.size, s.limits).0)
  {
    assert CutBy(e, s, q, Bounded(e.eval(s.db, q), e.size, s.limits).0, s.limits);
  }

  /** The entry that answers a read, from L1 or else from L2, if there is one. */
  function Cached(s: Service, key: string, now: real): Option<seq<Row>> {
    if Got(s.l1, key, now).1.Some? then Some(s.l1.entries[key].value)
    else
      var row := Lookup(s.l2, key, now);
      if row.Some? then Some(row.value.data) else None
  }

  /** A read returns the entry that answers it, limited, and says whether that lost rows; or
      without one, what bounded execution does. */
  lemma ReadsCached(e: Engine, s: Service, q: Query, now: real, persisted: Job)
    requires s.l1.maxSize >= 1
    ensures var o, entry := Read(e, s, q, now, persisted).1, Cached(s, e.key(q), now);
            && o.Rows? && (o.source == Fresh <==> entry.None?)
            && (o.data, o.truncated)
               == Bounded(if entry.Some? then entry.value else e.eval(s.db, q), e.size, s.limits)
  {
    BoundedAgain(e.eval(s.db, q), e.size, s.limits);
  }

  /** Such an entry is what the query would return now under limits that have been in force. */
  lemma CachedIsGood(e: Engine, s: Service, used: set<Limits>, q: Query, now: real) returns (a: Limits)
    requires Reasonable(e) && Coherent(e, s, used) && e.isRead(q.sql)
    ensures a in used
    ensures var entry := Cached(s, e.key(q), now);
            if entry.Some? then CutBy(e, s, q, entry.value, a) else a == s.limits
  {
    var key := e.key(q);
    assert L1Good(e, s, used, q) && L2Good(e, s, used, q);
    a := s.limits;
    if Got(s.l1, key, now).1.Some? {
      a :| a in used && CutBy(e, s, q, s.l1.entries[key].value, a);
    } else if Lookup(s.l2, key, now).Some? {
      a :| a in used && CutBy(e, s, q, s.l2[key].data, a);
    }
  }

  /** What a read returns is what the query would return now, limited first by some limits
      that have been in force, and then by those in force now. */
  lemma FoundIsGood(e: Engine, s: Service, used: set<Limits>, q: Query, now: real, persisted: Job) returns (a: Limits)
    requires Reasonable(e) && Coherent(e, s, used) && e.isRead(q.sql)
    ensures a in used
    ensures var o := Read(e, s, q, now, persisted).1;
            o.Rows? && o.data == Bounded(Bounded(e.eval(s.db, q), e.size, a).0, e.size, s.limits).0
  {
    a := CachedIsGood(e, s, used, q, now);
    ReadsCached(e, s, q, now, persisted);
    BoundedAgain(e.eval(s.db, q), e.size, s.limits);
  }

  /** While the limits in force are the tightest so far, a read returns what bounded execution
      would. */
  lemma ReadIsCurrent(e: Engine, s: Service, used: set<Limits>, q: Query, now: real, persisted: Job)
    requires Reasonable(e) && Coherent(e, s, used) && e.isRead(q.sql)
    requires forall a | a in used :: NoLooser(s.limits, a)
    ensures var o := Read(e, s, q, now, persisted).1;
            o.Rows? && o.data == Bounded(e.eval(s.db, q), e.size, s.limits).0
  {
    var a := FoundIsGood(e, s, used, q, now, persisted);
    BoundedTwice(e.eval(s.db, q), e.size, a, s.limits);
    assert Tighter(a, s.limits) == s.limits;
  }

  /** Filling one key with good data. */
  lemma FillKeepsCoherent(e: Engine, s: Service, used: set<Limits>, q: Query, data: seq<Row>, now: real)
    requires Reasonable(e) && Coherent(e, s, used) && e.isRead(q.sql) && Good(e, s, used, q, data)
    ensures Coherent(e, Fill(s, e.key(q), data, e.tables(q.sql), now), used)
  {
    var k := e.key(q);
    var t := Fill(s, k, data, e.tables(q.sql), now);
    var entry := Entry(data, Some(TTL_SECONDS as real), now);
    StepKeepsValid(s.l1, PutOp(k, entry));
    assert t.l1 == LruCache.Step(s.l1, PutOp(k, entry));
    forall p: Query | e.isRead(p.sql) ensures L1Good(e, t, used, p) {
      if p == q {
        assert t.l1.entries[k] == entry;
        assert Good(e, t, used, q, data);
      } else {
        assert e.key(p) != k && L1Good(e, s, used, p);
        if e.key(p) in t.l1.entries {
          PutKeepsOthers(s.l1, k, entry, e.key(p));
          assert Good(e, t, used, p, s.l1.entries[e.key(p)].value);
        }
      }
    }
    forall p: Query | e.isRead(p.sql) ensures L2Good(e, t, used, p) {
      assert L2Good(e, s, used, p);
      if e.key(p) in t.l2 { assert Good(e, t, used, p, s.l2[e.key(p)].data); }
    }
  }

  lemma PutKeepsOthers<V>(c: Cache<V>, k: string, entry: Entry<V>, other: string)
    requires Valid(c) && other != k && other in Put(c, k, entry).entries
    ensures other in c.entries && Put(c, k, entry).entries[other] == c.entries[other]
  {
  }

  lemma GetKeepsCoherent(e: Engine, s: Service, used: set<Limits>, k: string, now: real)
    requires Coherent(e, s, used)
    ensures Coherent(e, s.(l1 := Got(s.l1, k, now).0), used)
  {
    var t := s.(l1 := Got(s.l1, k, now).0);
    StepKeepsValid(s.l1, GetOp(k, now));
    assert t.l1 == LruCache.Step(s.l1, GetOp(k, now));
    forall p: Query | e.isRead(p.sql) ensures L1Good(e, t, used, p) && L2Good(e, t, used, p) {
      assert L1Good(e, s, used, p) && L2Good(e, s, used, p);
      if e.key(p) in t.l1.entries { assert Good(e, t, used, p, s.l1.entries[e.key(p)].value); }
      if e.key(p) in t.l2 { assert Good(e, t, used, p, s.l2[e.key(p)].data); }
    }
  }

  lemma StoreKeepsCoherent(e: Engine, s: Service, used: set<Limits>, q: Query, row: Stored)
    requires Reasonable(e) && Coherent(e, s, used) && e.isRead(q.sql)
    requires row.sql == q.sql && Good(e, s, used, q, row.data)
    ensures Coherent(e, s.(l2 := s.l2[e.key(q) := row]), used)
  {
  }

  lemma ReadKeepsCoherent(e: Engine, s: Service, used: set<Limits>, q: Query, now: real, persisted: Job)
    requires Reasonable(e) && Coherent(e, s, used) && e.isRead(q.sql)
    ensures Coherent(e, Read(e, s, q, now, persisted).0, used)
  {
    var k := e.key(q);
    var looked := s.(l1 := Got(s.l1, k, now).0);
    GetKeepsCoherent(e, s, used, k, now);
    if Got(s.l1, k, now).1.None? {
      var row := Lookup(s.l2, k, now);
      if row.Some? {
        assert L2Good(e, s, used, q) && Good(e, looked, used, q, row.value.data);
        FillKeepsCoherent(e, looked, used, q, row.value.data, now);
      } else {
        var fetched := Bounded(e.eval(s.db, q), e.size, s.limits).0;
        BoundedIsGood(e, looked, used, q);
        FillKeepsCoherent(e, looked, used, q, fetched, now);
        var filled := Fill(looked, k, fetched, e.tables(q.sql), now);
        BoundedIsGood(e, filled, used, q);
        if persisted.DoneFor? {
          var row := Stored(q.sql, fetched, Some(now.Floor + TTL_SECONDS), persisted.user);
          StoreKeepsCoherent(e, filled, used, q, row);
        }
      }
    }
  }

  // ---------------------------------------------------------------- writes

  lemma FilteredMembers(order: seq<string>, keys: set<string>)
    requires Distinct(order)
    ensures var r := Filtered(order, keys);
            Distinct(r) && |r| <= |order| && forall k :: k in r <==> k in order && k !in keys
  {
  }

  lemma OccursMatches(name: string, sql: string)
    requires Occurs(name, sql)
    ensures Like(sql, name)
  {
    var i :| 0 <= i <= |sql| - |name| && OccursAt(name, sql, i);
    forall k | 0 <= k < |name| ensures name[k] == sql[i + k] {
      assert sql[i..i + |name|][k] == sql[i + k];
    }
    assert LikeAt(sql, name, i);
  }

  /** A read that names none of the written tables is as good after the write. */
  lemma GoodAfterWrite(e: Engine, s: Service, t: Service, used: set<Limits>, q: Query, data: seq<Row>,
                       tables: set<Table>)
    requires Reasonable(e) && e.isRead(q.sql) && Good(e, s, used, q, data)
    requires e.tables(q.sql) !! tables && forall x | x !in tables :: At(t.db, x) == At(s.db, x)
    ensures Good(e, t, used, q, data)
  {
  }

  /** An L1 entry that survives scoped invalidation names none of the written tables. */
  lemma L1Spared(e: Engine, s: Service, t: Service, used: set<Limits>, q: Query, tables: set<Table>)
    requires Reasonable(e) && e.isRead(q.sql) && L1Good(e, s, used, q)
    requires forall x | x !in tables :: At(t.db, x) == At(s.db, x)
    requires t.l1.entries == s.l1.entries - KeysOf(s.index, tables) && t.index == Untagged(s.index, tables)
    ensures L1Good(e, t, used, q)
  {
  }

  /** An L2 row that survives names none of them either. */
  lemma L2Spared(e: Engine, s: Service, t: Service, used: set<Limits>, q: Query, tables: set<Table>)
    requires Reasonable(e) && e.isRead(q.sql) && L2Good(e, s, used, q)
    requires forall x | x !in tables :: At(t.db, x) == At(s.db, x)
    requires t.l2 == Unmatched(s.l2, tables)
    ensures L2Good(e, t, used, q)
  {
    var k := e.key(q);
    if k in t.l2 {
      forall x | x in e.tables(q.sql) ensures x !in tables {
        OccursMatches(x, q.sql);
      }
      GoodAfterWrite(e, s, t, used, q, s.l2[k].data, tables);
    }
  }

  lemma WriteKeepsCoherent(e: Engine, s: Service, used: set<Limits>, q: Query, mayWrite: bool)
    requires Reasonable(e) && Coherent(e, s, used) && !e.isRead(q.sql)
    ensures Coherent(e, Write(e, s, q, mayWrite).0, used)
  {
    var db := e.exec(s.db, q);
    if mayWrite && db.Some? {
      var tables := e.tables(q.sql);
      var t := Invalidated(s.(db := db.value.0), tables);
      if s.precise && KeysOf(s.index, tables) != {} {
        FilteredMembers(s.l1.order, KeysOf(s.index, tables));
        assert tables != {};
        forall p: Query | e.isRead(p.sql) ensures L1Good(e, t, used, p) && L2Good(e, t, used, p) {
          assert L1Good(e, s, used, p) && L2Good(e, s, used, p);
          L1Spared(e, s, t, used, p, tables);
          L2Spared(e, s, t, used, p, tables);
        }
      }
    }
  }

  lemma OtherKeepsCoherent(e: Engine, s: Service, used: set<Limits>, ev: Event)
    requires Coherent(e, s, used) && !ev.Request?
    ensures Coherent(e, Step(e, s, ev), used + Configured(ev))
  {
    forall q: Query | e.isRead(q.sql) ensures L1Good(e, s, used, q) && L2Good(e, s, used, q) {
    }
  }

  function After(e: Engine, s: Service, events: seq<Event>): (r: Service)
    requires s.l1.maxSize >= 1
    ensures r.l1.maxSize == s.l1.maxSize
  {
    if events == [] then s else Step(e, After(e, s, events[..|events| - 1]), events[|events| - 1])
  }

  function Configured(ev: Event): set<Limits> {
    if ev.Configure? then {ev.limits} else {}
  }

  /** The limits in force at some time. */
  function UsedIn(first: Limits, events: seq<Event>): set<Limits> {
    if events == [] then {first} else UsedIn(first, events[..|events| - 1]) + Configured(events[|events| - 1])
  }

  lemma {:induction false} AlwaysCoherent(e: Engine, s: Service, events: seq<Event>)
    requires Reasonable(e) && Coherent(e, s, {s.limits})
    ensures Coherent(e, After(e, s, events), UsedIn(s.limits, events))
  {
    if events != [] {
      var n := |events| - 1;
      AlwaysCoherent(e, s, events[..n]);
      var before, used := After(e, s, events[..n]), UsedIn(s.limits, events[..n]);
      match events[n]
      case Request(q, now, mayWrite, persisted) =>
        if e.isRead(q.sql) {
          ReadKeepsCoherent(e, before, used, q, now, persisted);
        } else {
          WriteKeepsCoherent(e, before, used, q, mayWrite);
        }
      case _ => OtherKeepsCoherent(e, before, used, events[n]);
    }
  }

  /** A service that has just started on some database, its caches empty. */
  function Start(db: Db, maxSize: nat, limits: Limits, precise: bool): Service {
    Service(db, New(maxSize), NO_INDEX, map[], limits, precise)
  }

  // ---------------------------------------------------------------- what the events did

  /** The database as the events left it, whatever the caches did: each permitted write whose
      statement succeeds has its effect, and nothing else has any. */
  function DbAfter(e: Engine, db: Db, events: seq<Event>): Db {
    if events == [] then db
    else
      var before, ev := DbAfter(e, db, events[..|events| - 1]), events[|events| - 1];
      if ev.Request? && !e.isRead(ev.q.sql) && ev.mayWrite && e.exec(before, ev.q).Some?
      then e.exec(before, ev.q).value.0
      else before
  }

  /** The limits last set. */
  function LimitsAfter(first: Limits, events: seq<Event>): Limits {
    if events == [] then first
    else if events[|events| - 1].Configure? then events[|events| - 1].limits
    else LimitsAfter(first, events[..|events| - 1])
  }

  lemma {:induction false} DatabaseIsEffects(e: Engine, s: Service, events: seq<Event>)
    requires s.l1.maxSize >= 1
    ensures After(e, s, events).db == DbAfter(e, s.db, events)
    ensures After(e, s, events).limits == LimitsAfter(s.limits, events)
    ensures After(e, s, events).precise == s.precise
  {
    if events != [] {
      var n := |events| - 1;
      DatabaseIsEffects(e, s, events[..n]);
      StepEffect(e, After(e, s, events[..n]), events[n]);
    }
  }

  lemma StepEffect(e: Engine, s: Service, ev: Event)
    requires s.l1.maxSize >= 1
    ensures var t := Step(e, s, ev);
            && t.db == (if ev.Request? && !e.isRead(ev.q.sql) && ev.mayWrite && e.exec(s.db, ev.q).Some?
                        then e.exec(s.db, ev.q).value.0 else s.db)
            && t.limits == (if ev.Configure? then ev.limits else s.limits) && t.precise == s.precise
  {
    if ev.Request? && e.isRead(ev.q.sql) {
      ReadChangesCachesOnly(e, s, ev.q, ev.now, ev.persisted);
    }
  }

  lemma ReadChangesCachesOnly(e: Engine, s: Service, q: Query, now: real, persisted: Job)
    requires s.l1.maxSize >= 1
    ensures var t := Read(e, s, q, now, persisted).0; t.db == s.db && t.limits == s.limits && t.precise == s.precise
  {
  }

  /** What a write comes to after any events. Without the scope it is refused, and a statement
      that fails is reported; neither changes anything. Else its rows are returned as far as
      they fit. */
  lemma WriteOutcome(e: Engine, db: Db, maxSize: nat, limits: Limits, precise: bool, events: seq<Event>,
                     q: Query, now: real, mayWrite: bool, persisted: Job)
    requires maxSize >= 1 && !e.isRead(q.sql)
    ensures var s := After(e, Start(db, maxSize, limits, precise), events);
            var (t, o) := Run(e, s, q, now, mayWrite, persisted);
            var done := e.exec(DbAfter(e, db, events), q);
            if !mayWrite then o == Refused && t == s
            else if done.None? then o == WriteFailed && t == s
            else o.Written? && LongestPrefix(o.data, o.truncated, done.value.1, e.size, LimitsAfter(limits, events))
  {
    var s := After(e, Start(db, maxSize, limits, precise), events);
    DatabaseIsEffects(e, Start(db, maxSize, limits, precise), events);
    var done := e.exec(s.db, q);
    if done.Some? { BoundedIsLongest(done.value.1, e.size, s.limits); }
  }

  /** Cache coherence: after any sequence of reads, writes (refused, failed or done),
      expiries, evictions, purges, changes of limits and restarts, while the limits in force
      are the tightest there have been, a read returns exactly the rows that bounded
      execution on the database would, as the events left it. */
  lemma CacheCoherence(e: Engine, db: Db, maxSize: nat, limits: Limits, precise: bool, events: seq<Event>,
                       q: Query, now: real, persisted: Job)
    requires Reasonable(e) && maxSize >= 1 && e.isRead(q.sql)
    requires forall a | a in UsedIn(limits, events) :: NoLooser(LimitsAfter(limits, events), a)
    ensures var s := After(e, Start(db, maxSize, limits, precise), events);
            var o, full := Run(e, s, q, now, false, persisted).1, e.eval(DbAfter(e, db, events), q);
            o.Rows? && LongestPrefix(o.data, o.data != full, full, e.size, LimitsAfter(limits, events))
  {
    DatabaseIsEffects(e, Start(db, maxSize, limits, precise), events);
    BoundedIsLongest(e.eval(DbAfter(e, db, events), q), e.size, LimitsAfter(limits, events));
    AlwaysCoherent(e, Start(db, maxSize, limits, precise), events);
    var s := After(e, Start(db, maxSize, limits, precise), events);
    ReadIsCurrent(e, s, UsedIn(limits, events), q, now, persisted);
  }

  // ---------------------------------------------------------------- whatever the limits did

  lemma FitsUncut(rows: seq<Row>, size: Row -> nat, l: Limits)
    ensures Fits(rows, size, l) <==> !Bounded(rows, size, l).1
  {
    assert rows[..|rows|] == rows;
  }

  /** After any such sequence, however the limits went up and down. A read that nothing cached
      answers is exactly bounded execution. An entry that answers one, from either level, is
      the full result cut by limits that were in force at some time; the rows returned are
      right exactly when the limits in force keep no more rows than the entry has, and the
      truncation flag exactly when they keep fewer, or everything. */
  lemma AnswerRightExactlyWhen(e: Engine, db: Db, maxSize: nat, limits: Limits, precise: bool, events: seq<Event>,
                               q: Query, now: real, persisted: Job)
    requires Reasonable(e) && maxSize >= 1 && e.isRead(q.sql)
    ensures var s := After(e, Start(db, maxSize, limits, precise), events);
            var o, full := Run(e, s, q, now, false, persisted).1, e.eval(DbAfter(e, db, events), q);
            var l := LimitsAfter(limits, events);
            var (rows, cut) := Bounded(full, e.size, l);
            && o.Rows? && LongestPrefix(rows, cut, full, e.size, l)
            && match Cached(s, e.key(q), now)
               case None => o == Rows(rows, Fresh, cut)
               case Some(entry) =>
                 && o.source != Fresh
                 && (exists a :: a in UsedIn(limits, events) && entry == Bounded(full, e.size, a).0)
                 && (o.data == rows <==> |rows| <= |entry|)
                 && (o.truncated == cut <==> |rows| < |entry| || !cut)
  {
    var s := After(e, Start(db, maxSize, limits, precise), events);
    DatabaseIsEffects(e, Start(db, maxSize, limits, precise), events);
    BoundedIsLongest(e.eval(s.db, q), e.size, s.limits);
    FitsUncut(e.eval(s.db, q), e.size, s.limits);
    AlwaysCoherent(e, Start(db, maxSize, limits, precise), events);
    var a := CachedIsGood(e, s, UsedIn(limits, events), q, now);
    ReadsCached(e, s, q, now, persisted);
    LimitedTwiceExactlyWhen(e.eval(s.db, q), e.size, a, s.limits);
  }

  lemma OneMore(e: Engine, s: Service, events: seq<Event>, ev: Event)
    requires s.l1.maxSize >= 1
    ensures After(e, s, events + [ev]) == Step(e, After(e, s, events), ev)
  {
    assert (events + [ev])[..|events|] == events;
  }

  /** It happens, for every query whose result is cut: asked twice, the second answer comes
      from L1 and denies that rows are missing; and once the limits are raised to keep more,
      it still has the old rows. */
  lemma HitsGoWrong(e: Engine, db: Db, maxSize: nat, a: Limits, l: Limits, precise: bool, q: Query, now: real)
    requires maxSize >= 1 && e.isRead(q.sql)
    requires !Fits(e.eval(db, q), e.size, a) && Kept(e.eval(db, q), e.size, l) > Kept(e.eval(db, q), e.size, a)
    ensures var first := [Request(q, now, false, Dropped)];
            var s, u := After(e, Start(db, maxSize, a, precise), first),
                        After(e, Start(db, maxSize, a, precise), first + [Configure(l)]);
            var o, p := Run(e, s, q, now, false, Dropped).1, Run(e, u, q, now, false, Dropped).1;
            && o.source == FromL1 && !o.truncated && Bounded(e.eval(db, q), e.size, a).1
            && p.source == FromL1 && p.data != Bounded(e.eval(db, q), e.size, l).0
  {
    var first := [Request(q, now, false, Dropped)];
    var s := After(e, Start(db, maxSize, a, precise), first);
    var full := e.eval(db, q);
    OneMore(e, Start(db, maxSize, a, precise), [], Request(q, now, false, Dropped));
    assert [] + first == first;
    assert s == Read(e, Start(db, maxSize, a, precise), q, now, Dropped).0;
    OneMore(e, Start(db, maxSize, a, precise), first, Configure(l));
    assert s.l1.entries == map[e.key(q) := Entry(Bounded(full, e.size, a).0, Some(TTL_SECONDS as real), now)];
    BoundedAgain(full, e.size, a);
    LimitedTwiceExactlyWhen(full, e.size, a, l);
    assert full[..|full|] == full;
  }

  // ---------------------------------------------------------------- what is remembered, and for how long

  /** A read that L1 did not answer is answered by L1 for the time to live, from the moment it
      was read. */
  lemma RemembersInL1(e: Engine, s: Service, q: Query, now: real, persisted: Job, later: real, again: Job)
    requires Valid(s.l1) && Read(e, s, q, now, persisted).1.source != FromL1
    ensures var (t, o) := Read(e, s, q, now, persisted);
            Read(e, t, q, later, again).1.source == FromL1 <==> later <= now + TTL_SECONDS as real
  {
    var t := Read(e, s, q, now, persisted).0;
    FillsL1(e, s, q, now, persisted);
    AnsweredByL1(e, t, q, later, again);
  }

  lemma FillsL1(e: Engine, s: Service, q: Query, now: real, persisted: Job)
    requires s.l1.maxSize >= 1 && Read(e, s, q, now, persisted).1.source != FromL1
    ensures var l1, k := Read(e, s, q, now, persisted).0.l1, e.key(q);
            k in l1.entries && l1.entries[k].ttl == Some(TTL_SECONDS as real) && l1.entries[k].createdAt == now
  {
  }

  lemma AnsweredByL1(e: Engine, s: Service, q: Query, now: real, persisted: Job)
    requires s.l1.maxSize >= 1
    ensures Read(e, s, q, now, persisted).1.source == FromL1 <==> Got(s.l1, e.key(q), now).1.Some?
  {
  }

  /** A fresh, non-empty result whose job was done outlives a restart in L2, for the time to
      live in whole seconds. */
  lemma RemembersInL2(e: Engine, s: Service, q: Query, now: real, persisted: Job, later: real, again: Job)
    requires Valid(s.l1) && Read(e, s, q, now, persisted).1.source == Fresh
    ensures var (t, o) := Read(e, s, q, now, persisted);
            var p := Read(e, Step(e, t, Restart), q, later, again).1;
            if persisted.DoneFor? && o.data != [] then
              p.source == (if later.Floor < now.Floor + TTL_SECONDS then FromL2 else Fresh)
              && (p.source == FromL2 ==> p.data == o.data)
            else t.l2 == s.l2
  {
    var (t, o) := Read(e, s, q, now, persisted);
    FreshStored(e, s, q, now, persisted);
    BoundedAgain(e.eval(s.db, q), e.size, s.limits);
    if persisted.DoneFor? && o.data != [] {
      AnsweredByL2(e, Step(e, t, Restart), q, later, again);
    }
  }

  lemma FreshStored(e: Engine, s: Service, q: Query, now: real, persisted: Job)
    requires s.l1.maxSize >= 1 && Read(e, s, q, now, persisted).1.source == Fresh
    ensures var (t, o), data := Read(e, s, q, now, persisted), Bounded(e.eval(s.db, q), e.size, s.limits).0;
            && o.data == data && t.limits == s.limits
            && t.l2 == if persisted.DoneFor? && data != []
                       then s.l2[e.key(q) := Stored(q.sql, data, Some(now.Floor + TTL_SECONDS), persisted.user)]
                       else s.l2
  {
    BoundedAgain(e.eval(s.db, q), e.size, s.limits);
  }

  lemma AnsweredByL2(e: Engine, s: Service, q: Query, now: real, persisted: Job)
    requires s.l1.maxSize >= 1 && s.l1.entries == map[]
    ensures var o, row := Read(e, s, q, now, persisted).1, Lookup(s.l2, e.key(q), now);
            && o.source == (if row.Some? then FromL2 else Fresh)
            && (row.Some? ==> o.data == Bounded(row.value.data, e.size, s.limits).0)
  {
  }

  // ---------------------------------------------------------------- what a write spares

  /** A read's key is listed under no table its text does not name. */
  ghost predicate TagsExact(e: Engine, ix: Index) {
    forall q: Query, t: Table | e.isRead(q.sql) && e.key(q) in KeysOfTable(ix, t) :: t in e.tables(q.sql)
  }

  lemma StepKeepsTags(e: Engine, s: Service, ev: Event)
    requires Reasonable(e) && Valid(s.l1) && TagsExact(e, s.index)
    ensures TagsExact(e, Step(e, s, ev).index)
  {
    if ev.Request? && e.isRead(ev.q.sql) {
      ReadTags(e, s, ev.q, ev.now, ev.persisted);
      TaggedExact(e, s.index, ev.q);
    } else {
      FewerTags(e, s, Step(e, s, ev));
    }
  }

  lemma FewerTags(e: Engine, s: Service, t: Service)
    requires TagsExact(e, s.index)
    requires t.index == s.index || t.index == NO_INDEX || exists tables :: t.index == Untagged(s.index, tables)
    ensures TagsExact(e, t.index)
  {
    forall q: Query, x: Table | e.isRead(q.sql) && e.key(q) in KeysOfTable(t.index, x) ensures x in e.tables(q.sql) {
      assert e.key(q) in KeysOfTable(s.index, x);
    }
  }

  lemma ReadTags(e: Engine, s: Service, q: Query, now: real, persisted: Job)
    requires s.l1.maxSize >= 1
    ensures Read(e, s, q, now, persisted).0.index in {s.index, Tagged(s.index, e.key(q), e.tables(q.sql))}
  {
  }

  lemma TaggedExact(e: Engine, ix: Index, r: Query)
    requires TagsExact(e, ix) && forall p, q :: e.key(p) == e.key(q) ==> p == q
    ensures TagsExact(e, Tagged(ix, e.key(r), e.tables(r.sql)))
  {
    var more := Tagged(ix, e.key(r), e.tables(r.sql));
    forall q: Query, x: Table | e.isRead(q.sql) && e.key(q) in KeysOfTable(more, x) ensures x in e.tables(q.sql) {
      assert e.key(q) in KeysOfTable(ix, x) || e.key(q) == e.key(r);
    }
  }

  lemma {:induction false} AlwaysTagsExact(e: Engine, s: Service, events: seq<Event>)
    requires Reasonable(e) && Coherent(e, s, {s.limits}) && TagsExact(e, s.index)
    ensures TagsExact(e, After(e, s, events).index)
  {
    if events != [] {
      var n := |events| - 1;
      AlwaysTagsExact(e, s, events[..n]);
      AlwaysCoherent(e, s, events[..n]);
      StepKeepsTags(e, After(e, s, events[..n]), events[n]);
    }
  }

  /** After any events, a successful write leaves the L1 entry of a read exactly when
      invalidation is scoped, finds a key to drop, and the two texts name no common table; and
      an L2 row exactly when, of scoped invalidation, no written table's name matches its
      text. What is left is unchanged. */
  lemma SparesExactlyWhen(e: Engine, db: Db, maxSize: nat, limits: Limits, precise: bool, events: seq<Event>,
                          w: Query, now: real, persisted: Job, r: Query)
    requires Reasonable(e) && maxSize >= 1 && !e.isRead(w.sql) && e.isRead(r.sql)
    requires e.exec(DbAfter(e, db, events), w).Some?
    ensures var s := After(e, Start(db, maxSize, limits, precise), events);
            var t, k, written := Run(e, s, w, now, true, persisted).0, e.key(r), e.tables(w.sql);
            var scoped := precise && KeysOf(s.index, written) != {};
            && (k in s.l1.entries ==> (k in t.l1.entries <==> scoped && written !! e.tables(r.sql)))
            && (k in s.l2 ==> (k in t.l2 <==> scoped && forall x | x in written :: !Like(s.l2[k].sql, x)))
            && (k in t.l1.entries ==> k in s.l1.entries && t.l1.entries[k] == s.l1.entries[k])
            && (k in t.l2 ==> k in s.l2 && t.l2[k] == s.l2[k])
  {
    var start := Start(db, maxSize, limits, precise);
    var s := After(e, start, events);
    DatabaseIsEffects(e, start, events);
    AlwaysCoherent(e, start, events);
    AlwaysTagsExact(e, start, events);
    assert L1Good(e, s, UsedIn(limits, events), r);
    DroppedExactlyWhen(e, s, e.tables(w.sql), r);
  }

  lemma DroppedExactlyWhen(e: Engine, s: Service, written: set<Table>, r: Query)
    requires e.isRead(r.sql) && TagsExact(e, s.index)
    requires e.key(r) in s.l1.entries ==> forall t | t in e.tables(r.sql) :: e.key(r) in KeysOfTable(s.index, t)
    ensures e.key(r) in s.l1.entries ==> (e.key(r) in KeysOf(s.index, written) <==> !(written !! e.tables(r.sql)))
  {
  }
}
