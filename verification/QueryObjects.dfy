/** The cache objects and the query service, proved to do what the model of a request says. */
module QueryObjects {
  import opened BoundedRows
  import opened CacheIndex
  import opened LruCache
  import opened QueryCaching
  import opened Wrappers

  /** L2: the `query_cache` table. */
  class QueryResultCache {
    var rows: map<string, Stored>

    constructor ()
      ensures rows == map[]
    {
      rows := map[];
    }

    method GetCachedResult(key: string, now: real) returns (r: Option<Stored>)
      ensures r == Lookup(rows, key, now)
      ensures r.Some? <==> key in rows && (rows[key].expiresAt.None? || now.Floor < rows[key].expiresAt.value)
      ensures r.Some? ==> r.value == rows[key]
    {
      var currentTime := now.Floor;
      if key in rows && (rows[key].expiresAt.None? || rows[key].expiresAt.value > currentTime) {
        return Some(rows[key]);
      }
      return None;
    }

    /** The upsert of `cache_result`; a time to live that is not positive means none. */
    method CacheResult(key: string, sql: string, data: seq<Row>, now: real, user: Option<string>,
                       ttlSeconds: int := TTL_SECONDS)
      modifies this
      ensures var expiry := if ttlSeconds > 0 then Some(now.Floor + ttlSeconds) else None;
              rows == old(rows)[key := Stored(sql, data, expiry, user)]
    {
      var createdAt := now.Floor;
      var expiresAt := if ttlSeconds > 0 then Some(createdAt + ttlSeconds) else None;
      rows := rows[key := Stored(sql, data, expiresAt, user)];
    }

    /** `invalidate_cache`: deletes the rows that meet every condition given, and counts them;
        without a condition nothing. */
    method InvalidateCache(pattern: string, user: string) returns (deleted: nat)
      modifies this
      ensures forall k :: k in rows <==> && k in old(rows)
                                         && !(&& (pattern != "" || user != "")
                                              && (pattern == "" || Like(old(rows)[k].sql, pattern))
                                              && (user == "" || old(rows)[k].user == Some(user)))
      ensures forall k | k in rows :: rows[k] == old(rows)[k]
      ensures deleted == |old(rows)| - |rows|
    {
      if pattern == "" && user == "" {
        return 0;
      }
      var before := rows;
      rows := map k | k in rows && !Condemned(rows[k], pattern, user) :: rows[k];
      assert rows.Keys <= before.Keys;
      Smaller(rows.Keys, before.Keys);
      deleted := |before| - |rows|;
    }

    method ClearAll() returns (deleted: nat)
      modifies this
      ensures rows == map[] && deleted == |old(rows)|
    {
      deleted := |rows|;
      rows := map[];
    }
  }

  predicate Condemned(row: Stored, pattern: string, user: string) {
    && (pattern != "" || user != "")
    && (pattern == "" || Like(row.sql, pattern))
    && (user == "" || row.user == Some(user))
  }

  lemma MatchedGone(before: map<string, Stored>, after: map<string, Stored>, t: Table)
    requires t != ""
    requires forall k :: k in after <==> k in before && !Condemned(before[k], t, "")
    requires forall k | k in after :: after[k] == before[k]
    ensures after == Unmatched(before, {t})
  {
    assert forall k | k in before :: (exists x | x in {t} :: Like(before[k].sql, x)) <==> Like(before[k].sql, t);
  }

  lemma Smaller<T>(a: set<T>, b: set<T>)
    requires a <= b
    ensures |a| <= |b|
  {
    assert b == a + (b - a);
  }

  lemma {:induction false} FilteredOne(order: seq<string>, keys: set<string>, k: string)
    requires Distinct(order)
    ensures Without(Filtered(order, keys), k) == Filtered(order, keys + {k})
  {
    if order != [] {
      DistinctRest(order);
      FilteredOne(order[1..], keys, k);
      FilteredFirst(order, keys);
      FilteredFirst(order, keys + {k});
      if order[0] !in keys {
        WithoutFirst(order[0], Filtered(order[1..], keys), k);
        if order[0] == k { NothingFiltered(order[1..], keys, k); }
      }
    }
  }

  lemma FilteredFirst(order: seq<string>, keys: set<string>)
    requires order != []
    ensures var rest := Filtered(order[1..], keys);
            Filtered(order, keys) == if order[0] in keys then rest else [order[0]] + rest
  {
  }

  lemma DistinctRest(order: seq<string>)
    requires Distinct(order) && order != []
    ensures Distinct(order[1..]) && order[0] !in order[1..]
  {
    assert forall i | 0 <= i < |order[1..]| :: order[1..][i] == order[i + 1];
  }

  lemma WithoutFirst(x: string, rest: seq<string>, k: string)
    ensures Without([x] + rest, k) == if x == k then rest else [x] + Without(rest, k)
  {
    assert ([x] + rest)[1..] == rest;
  }

  lemma {:induction false} NothingFiltered(order: seq<string>, keys: set<string>, k: string)
    requires k !in order
    ensures Filtered(order, keys) == Filtered(order, keys + {k})
  {
    if order != [] {
      NothingFiltered(order[1..], keys, k);
    }
  }

  lemma FilteredNone(order: seq<string>)
    ensures Filtered(order, {}) == order
  {
  }

  lemma FilteredIn(order: seq<string>, keys: set<string>, k: string)
    ensures k in Filtered(order, keys) <==> k in order && k !in keys
  {
  }

  lemma DroppedOne(c: Cache<seq<Row>>, dropped: set<string>, k: string)
    requires Valid(c)
    ensures LruCache.Step(DropKeys(c, dropped), InvalidateOp(k)) == DropKeys(c, dropped + {k})
  {
    FilteredOne(c.order, dropped, k);
    if k !in c.entries || k in dropped {
      FilteredIn(c.order, dropped, k);
      WithoutAbsent(Filtered(c.order, dropped), k);
    }
    assert c.entries - dropped - {k} == c.entries - (dropped + {k});
  }

  /** The coordinator: L1, L2 and the index between keys and tables. */
  class QueryCacheCoordinator {
    const l1: LRUQueryCache<seq<Row>>
    const l2: QueryResultCache
    var keyTables: map<string, set<Table>>
    var tableKeys: map<Table, set<string>>

    function IndexOf(): Index
      reads this
    {
      Index(keyTables, tableKeys)
    }

    constructor (maxSize: nat)
      ensures fresh(l1) && fresh(l2)
      ensures l1.Model() == New(maxSize) && l2.rows == map[] && IndexOf() == NO_INDEX
    {
      l1 := new LRUQueryCache(maxSize);
      l2 := new QueryResultCache();
      keyTables, tableKeys := map[], map[];
    }

    method TagTables(key: string, tables: set<Table>)
      modifies `keyTables, `tableKeys
      ensures IndexOf() == Tagged(old(IndexOf()), key, tables)
    {
      if tables == {} {
        return;
      }
      keyTables := keyTables[key := tables];
      var todo := tables;
      ListedNone(old(IndexOf()), key);
      assert tables - todo == {};
      while todo != {}
        modifies `tableKeys
        invariant todo <= tables && tableKeys == Listed(old(IndexOf()), key, tables - todo)
        decreases todo
      {
        var t :| t in todo;
        ListedMore(old(IndexOf()), key, tables - todo, t);
        assert tables - todo + {t} == tables - (todo - {t});
        tableKeys := tableKeys[t := (if t in tableKeys then tableKeys[t] else {}) + {key}];
        todo := todo - {t};
      }
      assert tables - {} == tables;
    }

    /** The locked block of `invalidate_tables`: pops the tables, then the keys found. */
    method PopTables(tables: set<Table>) returns (keysToDrop: set<string>)
      modifies `keyTables, `tableKeys
      ensures keysToDrop == KeysOf(old(IndexOf()), tables) && IndexOf() == Untagged(old(IndexOf()), tables)
    {
      keysToDrop := {};
      var todo := tables;
      while todo != {}
        modifies `tableKeys
        invariant todo <= tables && tableKeys == old(tableKeys) - (tables - todo)
        invariant keysToDrop == KeysOf(old(IndexOf()), tables - todo)
        decreases todo
      {
        var t :| t in todo;
        keysToDrop := keysToDrop + if t in tableKeys then tableKeys[t] else {};
        tableKeys := tableKeys - {t};
        KeysOfMore(old(IndexOf()), tables - todo, t);
        todo := todo - {t};
        assert tables - todo == tables - (todo + {t}) + {t};
      }
      assert tables - {} == tables;
      var keys := keysToDrop;
      while keys != {}
        modifies `keyTables
        invariant keys <= keysToDrop && keyTables == old(keyTables) - (keysToDrop - keys)
        decreases keys
      {
        var k :| k in keys;
        keyTables := keyTables - {k};
        keys := keys - {k};
      }
    }

    /** `invalidate_tables`: the answer says whether anything was found; if not, only the
        index has changed and the caller clears everything. */
    method InvalidateTables(tables: set<Table>) returns (scoped: bool)
      requires Valid(l1.Model()) && "" !in tables
      modifies this, l1, l2
      ensures scoped == (KeysOf(old(IndexOf()), tables) != {})
      ensures scoped ==>
                && IndexOf() == Untagged(old(IndexOf()), tables)
                && l1.Model() == DropKeys(old(l1.Model()), KeysOf(old(IndexOf()), tables))
                && l2.rows == Unmatched(old(l2.rows), tables)
      ensures !scoped ==>
                && IndexOf() == (if tables == {} then old(IndexOf()) else Untagged(old(IndexOf()), tables))
                && l1.Model() == old(l1.Model()) && l2.rows == old(l2.rows)
    {
      if tables == {} {
        return false;
      }
      var keysToDrop := PopTables(tables);
      if keysToDrop == {} {
        return false;
      }
      DropFromL1(keysToDrop);
      DropFromL2(tables);
      return true;
    }

    method DropFromL1(keysToDrop: set<string>)
      requires Valid(l1.Model())
      modifies l1
      ensures l1.Model() == DropKeys(old(l1.Model()), keysToDrop)
    {
      var keys := keysToDrop;
      ghost var c := l1.Model();
      FilteredNone(c.order);
      assert keysToDrop - keys == {} && c.entries - {} == c.entries;
      while keys != {}
        modifies l1
        invariant keys <= keysToDrop && l1.Model() == DropKeys(c, keysToDrop - keys)
        decreases keys
      {
        var k :| k in keys;
        ghost var dropped := keysToDrop - keys;
        DroppedOne(c, dropped, k);
        l1.Invalidate(k);
        keys := keys - {k};
        assert keysToDrop - keys == dropped + {k};
      }
      assert keysToDrop - keys == keysToDrop;
    }

    method DropFromL2(tables: set<Table>)
      requires "" !in tables
      modifies l2
      ensures l2.rows == Unmatched(old(l2.rows), tables)
    {
      var todo := tables;
      while todo != {}
        modifies l2
        invariant todo <= tables && l2.rows == Unmatched(old(l2.rows), tables - todo)
        decreases todo
      {
        var t :| t in todo;
        UnmatchedMore(old(l2.rows), tables - todo, t);
        ghost var before := l2.rows;
        var n := l2.InvalidateCache(t, "");
        MatchedGone(before, l2.rows, t);
        todo := todo - {t};
        assert tables - todo == tables - (todo + {t}) + {t};
      }
    }

    method ClearAll()
      modifies this, l1, l2
      ensures IndexOf() == NO_INDEX && l1.Model() == New(l1.maxSize) && l2.rows == map[]
    {
      keyTables, tableKeys := map[], map[];
      l1.Clear();
      var n := l2.ClearAll();
    }
  }

  /** The key listed under these tables too. */
  function Listed(ix: Index, key: string, tables: set<Table>): map<Table, set<string>> {
    map t | t in ix.tableKeys.Keys + tables :: KeysOfTable(ix, t) + if t in tables then {key} else {}
  }

  lemma ListedMore(ix: Index, key: string, tables: set<Table>, t: Table)
    ensures var listed := Listed(ix, key, tables);
            Listed(ix, key, tables + {t}) == listed[t := (if t in listed then listed[t] else {}) + {key}]
  {
    var listed, more := Listed(ix, key, tables), Listed(ix, key, tables + {t});
    var one := listed[t := (if t in listed then listed[t] else {}) + {key}];
    assert more.Keys == one.Keys;
    forall x | x in more ensures more[x] == one[x] {
    }
  }

  lemma ListedNone(ix: Index, key: string)
    ensures Listed(ix, key, {}) == ix.tableKeys
  {
    forall t | t in ix.tableKeys ensures Listed(ix, key, {})[t] == ix.tableKeys[t] {
    }
  }

  lemma WithoutAbsent(keys: seq<string>, k: string)
    requires k !in keys
    ensures Without(keys, k) == keys
  {
  }

  lemma KeysOfMore(ix: Index, tables: set<Table>, t: Table)
    ensures KeysOf(ix, tables + {t}) == KeysOf(ix, tables) + KeysOfTable(ix, t)
  {
  }

  lemma UnmatchedMore(rows: map<string, Stored>, tables: set<Table>, t: Table)
    ensures Unmatched(Unmatched(rows, tables), {t}) == Unmatched(rows, tables + {t})
  {
  }

  /** Rows per `FETCH`. */
  const BATCH_SIZE: nat := 500

  /** The orchestrator of one request. */
  class QueryService {
    const cache: QueryCacheCoordinator
    const precise: bool
    var db: Db
    var limits: Limits

    function Model(): Service
      reads this, cache, cache.l1, cache.l2
    {
      Service(db, cache.l1.Model(), cache.IndexOf(), cache.l2.rows, limits, precise)
    }

    constructor (db: Db, maxSize: nat, limits: Limits, precise: bool)
      ensures fresh(cache) && fresh(cache.l1) && fresh(cache.l2)
      ensures Model() == Start(db, maxSize, limits, precise)
    {
      cache := new QueryCacheCoordinator(maxSize);
      this.db, this.limits, this.precise := db, limits, precise;
    }

    method FillL1(key: string, data: seq<Row>, tables: set<Table>, now: real)
      requires Valid(Model().l1)
      modifies cache, cache.l1
      ensures Model() == Fill(old(Model()), key, data, tables, now)
    {
      var ok := cache.l1.PutEntry(key, data, Some(TTL_SECONDS as real), now);
      cache.TagTables(key, tables);
    }

    method Resolve(e: Engine, q: Query, now: real, persisted: Job) returns (found: Found)
      requires Valid(Model().l1)
      modifies cache, cache.l1, cache.l2
      ensures (Model(), found) == Resolved(e, old(Model()), q, now, persisted)
    {
      var key, tables := e.key(q), e.tables(q.sql);
      var row := cache.l2.GetCachedResult(key, now);
      if row.Some? {
        found := Found(row.value.data, FromL2, false);
        FillL1(key, found.data, tables, now);
      } else {
        var data, cut := FetchBounded(e.eval(db, q), e.size, limits, BATCH_SIZE);
        found := Found(data, Fresh, cut);
        FillL1(key, data, tables, now);
        if persisted.DoneFor? && data != [] {
          cache.l2.CacheResult(key, q.sql, data, now, persisted.user);
        }
      }
    }

    method RunRead(e: Engine, q: Query, now: real, persisted: Job) returns (o: Outcome)
      requires Valid(Model().l1)
      modifies cache, cache.l1, cache.l2
      ensures (Model(), o) == Read(e, old(Model()), q, now, persisted)
    {
      var key := e.key(q);
      StepKeepsValid(cache.l1.Model(), GetOp(key, now));
      var cached := cache.l1.Get(key, now);
      var found;
      if cached.Some? {
        found := Found(cached.value, FromL1, false);
      } else {
        found := Resolve(e, q, now, persisted);
      }
      var out, cut := ApplyResultLimits(found.data, e.size, limits);
      o := Rows(out, found.source, found.cut || cut);
    }

    /** Executes, and invalidates if that succeeds. The rows a write returns are bounded too. */
    method RunWrite(e: Engine, q: Query) returns (o: Outcome)
      requires Valid(Model().l1) && "" !in e.tables(q.sql)
      modifies this, cache, cache.l1, cache.l2
      ensures (Model(), o) == Write(e, old(Model()), q, true)
    {
      var done := e.exec(db, q);
      if done.None? {
        return WriteFailed;
      }
      var (after, result) := done.value;
      var data, cut := FetchBounded(result, e.size, limits, BATCH_SIZE);
      db := after;
      InvalidateAfterWrite(e.tables(q.sql));
      return Written(data, cut);
    }

    method InvalidateAfterWrite(tables: set<Table>)
      requires Valid(Model().l1) && "" !in tables
      modifies cache, cache.l1, cache.l2
      ensures Model() == Invalidated(old(Model()), tables)
    {
      if precise {
        var scoped := cache.InvalidateTables(tables);
        if scoped {
          return;
        }
      }
      cache.ClearAll();
    }

    method RunQuery(e: Engine, q: Query, now: real, mayWrite: bool, persisted: Job) returns (o: Outcome)
      requires Valid(Model().l1) && "" !in e.tables(q.sql)
      modifies this, cache, cache.l1, cache.l2
      ensures (Model(), o) == QueryCaching.Run(e, old(Model()), q, now, mayWrite, persisted)
    {
      if e.isRead(q.sql) {
        o := RunRead(e, q, now, persisted);
      } else if !mayWrite {
        o := Refused;
      } else {
        o := RunWrite(e, q);
      }
    }
  }
}
