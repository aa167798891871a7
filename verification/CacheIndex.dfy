/** The two-way index between cache keys and the tables they were filled from. */
module CacheIndex {
  type Table = string

  /** `_key_tables` and `_table_keys`. */
  datatype Index = Index(keyTables: map<string, set<Table>>, tableKeys: map<Table, set<string>>)

  const NO_INDEX: Index := Index(map[], map[])

  function KeysOfTable(ix: Index, t: Table): set<string> {
    if t in ix.tableKeys then ix.tableKeys[t] else {}
  }

  /** The keys tagged with one of the tables. */
  function KeysOf(ix: Index, tables: set<Table>): set<string> {
    set t, k | t in tables && k in KeysOfTable(ix, t) :: k
  }

  /** `_tag_tables`. */
  function Tagged(ix: Index, key: string, tables: set<Table>): Index {
    if tables == {} then ix
    else Index(ix.keyTables[key := tables],
               map t | t in ix.tableKeys.Keys + tables :: KeysOfTable(ix, t) + if t in tables then {key} else {})
  }

  /** The locked block of `invalidate_tables`. */
  function Untagged(ix: Index, tables: set<Table>): Index {
    Index(ix.keyTables - KeysOf(ix, tables), ix.tableKeys - tables)
  }

  /** Every tag can be found from its table. */
  ghost predicate Sound(ix: Index) {
    forall k, t | k in ix.keyTables && t in ix.keyTables[k] :: k in KeysOfTable(ix, t)
  }

  lemma TaggingKeepsSound(ix: Index, key: string, tables: set<Table>)
    requires Sound(ix)
    ensures Sound(Tagged(ix, key, tables))
    ensures tables != {} ==> forall t | t in tables :: key in KeysOfTable(Tagged(ix, key, tables), t)
    ensures forall t, k | k in KeysOfTable(ix, t) :: k in KeysOfTable(Tagged(ix, key, tables), t)
  {
    var u := Tagged(ix, key, tables);
    forall k, t | k in u.keyTables && t in u.keyTables[k] ensures k in KeysOfTable(u, t) {
      if tables == {} || k != key {
        assert k in KeysOfTable(ix, t);
      }
    }
  }

  lemma UntaggingKeepsSound(ix: Index, tables: set<Table>)
    requires Sound(ix)
    ensures Sound(Untagged(ix, tables))
    ensures forall k | k in Untagged(ix, tables).keyTables :: Untagged(ix, tables).keyTables[k] !! tables
  {
    var u := Untagged(ix, tables);
    forall k, t | k in u.keyTables && t in u.keyTables[k] ensures k in KeysOfTable(u, t) && t !in tables {
      assert k in KeysOfTable(ix, t) && k !in KeysOf(ix, tables);
    }
  }
}
