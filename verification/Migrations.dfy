/** The migration runner: numbered files applied in order, each recorded with its checksum
    once all its statements have succeeded, and rerun in full after a failure. */
module Migrations {
  import opened Sorting
  import opened Wrappers

  // ---------------------------------------------------------------- loading

  /** A file found in the directory: its name parsed, if it matches the pattern. */
  datatype File = File(version: Option<int>, statements: seq<Statement>, checksum: string)

  /** A statement, by its effect on the schema: the objects it adds where absent. */
  type Statement = map<string, string>

  datatype Migration = Migration(version: int, statements: seq<Statement>, checksum: string)

  datatype LoadError = BadName | DuplicateVersion

  function ByVersion(): Migration -> real {
    (m: Migration) => m.version as real
  }

  predicate Parsed(files: seq<File>) {
    forall i | 0 <= i < |files| :: files[i].version.Some?
  }

  function Loaded(f: File): Migration
    requires f.version.Some?
  {
    Migration(f.version.value, f.statements, f.checksum)
  }

  predicate Ascending(ms: seq<Migration>) {
    forall i, j | 0 <= i < j < |ms| :: ms[i].version < ms[j].version
  }

  ghost predicate ComesFrom(files: seq<File>, m: Migration) {
    exists i :: 0 <= i < |files| && files[i].version.Some? && m == Loaded(files[i])
  }

  /** Every name matches and no version repeats. */
  ghost predicate Loadable(files: seq<File>) {
    Parsed(files) && forall i, j | 0 <= i < j < |files| :: files[i].version != files[j].version
  }

  /** `load_migrations`, on the files in name order: it lists all files by version, strictly
      rising, or reports what is wrong with the first file that has something wrong. */
  method LoadMigrations(files: seq<File>) returns (r: Result<seq<Migration>, LoadError>)
    ensures r.Ok? <==> Loadable(files)
    ensures r.Ok? ==> Ascending(r.value) && |r.value| == |files|
    ensures r.Ok? ==> forall m :: m in r.value <==> ComesFrom(files, m)
    ensures r.Err? ==> exists i ::
              && 0 <= i < |files| && Loadable(files[..i])
              && match r.error
                 case BadName => files[i].version.None?
                 case DuplicateVersion =>
                   files[i].version.Some? && exists j :: 0 <= j < i && files[j].version == files[i].version
  {
    var migrations: seq<Migration> := [];
    var seenVersions: set<int> := {};
    for i := 0 to |files|
      invariant |migrations| == i && Loadable(files[..i])
      invariant forall j | 0 <= j < i :: files[j].version.Some? && migrations[j] == Loaded(files[j])
      invariant forall v :: v in seenVersions <==> exists j :: 0 <= j < i && files[j].version == Some(v)
    {
      if files[i].version.None? {
        return Err(BadName);
      }
      var version := files[i].version.value;
      if version in seenVersions {
        return Err(DuplicateVersion);
      }
      LoadsOneMore(files, i);
      seenVersions := seenVersions + {version};
      migrations := migrations + [Loaded(files[i])];
    }
    assert files[..|files|] == files;
    r := Ok(SortedByVersion(files, migrations));
  }

  lemma LoadsOneMore(files: seq<File>, i: nat)
    requires i < |files| && Loadable(files[..i]) && files[i].version.Some?
    requires forall j | 0 <= j < i :: files[j].version != files[i].version
    ensures Loadable(files[..i + 1])
  {
  }

  function SortedByVersion(files: seq<File>, migrations: seq<Migration>): (r: seq<Migration>)
    requires |migrations| == |files| && Loadable(files)
    requires forall j | 0 <= j < |files| :: migrations[j] == Loaded(files[j])
    ensures Ascending(r) && |r| == |files|
    ensures forall m :: m in r <==> ComesFrom(files, m)
  {
    SortLoaded(files, migrations);
    Sort(migrations, ByVersion())
  }

  lemma SortLoaded(files: seq<File>, migrations: seq<Migration>)
    requires |migrations| == |files| && Loadable(files)
    requires forall j | 0 <= j < |files| :: migrations[j] == Loaded(files[j])
    ensures var r := Sort(migrations, ByVersion());
            && Ascending(r) && |r| == |files|
            && forall m :: m in r <==> ComesFrom(files, m)
  {
    var sorted := Sort(migrations, ByVersion());
    SortedStrictly(migrations, sorted);
    assert |sorted| == |multiset(sorted)|;
    forall m ensures m in sorted <==> ComesFrom(files, m) {
      assert m in sorted <==> m in multiset(migrations);
      if m in migrations {
        var i :| 0 <= i < |migrations| && migrations[i] == m;
        assert m == Loaded(files[i]);
      }
    }
  }

  /** Distinct versions sort strictly. */
  lemma SortedStrictly(ms: seq<Migration>, sorted: seq<Migration>)
    requires forall i, j | 0 <= i < j < |ms| :: ms[i].version != ms[j].version
    requires multiset(sorted) == multiset(ms) && Sorted(sorted, ByVersion())
    ensures Ascending(sorted)
  {
    forall i, j | 0 <= i < j < |sorted| ensures sorted[i].version < sorted[j].version {
      assert ByVersion()(sorted[i]) <= ByVersion()(sorted[j]);
      assert sorted[i] in multiset(ms) && sorted[j] in multiset(ms);
      assert sorted[i] in ms && sorted[j] in ms;
      AtMostOnce(ms, sorted[i]);
      if sorted[i] == sorted[j] { AtLeastTwice(sorted, i, j); }
    }
  }

  lemma {:induction false} AtMostOnce(ms: seq<Migration>, m: Migration)
    requires forall i, j | 0 <= i < j < |ms| :: ms[i].version != ms[j].version
    ensures multiset(ms)[m] <= 1
  {
    if ms != [] {
      AtMostOnce(ms[1..], m);
      assert ms == [ms[0]] + ms[1..];
      assert m == ms[0] ==> m !in ms[1..];
    }
  }

  lemma AtLeastTwice(ms: seq<Migration>, i: nat, j: nat)
    requires i < j < |ms| && ms[i] == ms[j]
    ensures multiset(ms)[ms[i]] >= 2
  {
    assert ms == ms[..j] + ms[j..];
    assert ms[..j][i] == ms[i] && ms[j..][0] == ms[i];
    assert ms[i] in multiset(ms[..j]) && ms[i] in multiset(ms[j..]);
  }

  // ---------------------------------------------------------------- running

  type Schema = map<string, string>

  /** A row of `schema_migrations`. Rows from before checksums were kept have none. */
  datatype Row = Row(version: int, checksum: Option<string>)

  /** The database: its objects, and the tracking table in insertion order. */
  datatype Db = Db(schema: Schema, rows: seq<Row>)

  datatype Outcome = Done | Failed | ChecksumMismatch

  /** Every object the statement names that is absent is added; present ones stay. */
  function Execute(s: Schema, st: Statement): Schema {
    st + s
  }

  function ExecuteAll(s: Schema, sts: seq<Statement>): Schema
    decreases |sts|
  {
    if sts == [] then s else ExecuteAll(Execute(s, sts[0]), sts[1..])
  }

  /** The first row for a version. */
  function Find(rows: seq<Row>, v: int): Option<Row> {
    if rows == [] then None else if rows[0].version == v then Some(rows[0]) else Find(rows[1..], v)
  }

  /** `UPDATE schema_migrations SET checksum = ... WHERE version = v`. */
  function Backfilled(rows: seq<Row>, v: int, checksum: string): (r: seq<Row>)
    ensures |r| == |rows|
    ensures forall i | 0 <= i < |r| :: r[i] == if rows[i].version == v then Row(v, Some(checksum)) else rows[i]
  {
    if rows == [] then []
    else [if rows[0].version == v then Row(v, Some(checksum)) else rows[0]] + Backfilled(rows[1..], v, checksum)
  }

  /** A run that can make `fuel` more calls to the database before one fails, or never fails
      if the fuel lasts. It returns the fuel left. */
  function RunFile(m: Migration, db: Db, fuel: nat): (Db, Outcome, nat) {
    var row := Find(db.rows, m.version);
    if row.Some? then
      if row.value.checksum.Some? then
        (db, if row.value.checksum.value == m.checksum then Done else ChecksumMismatch, fuel)
      else if fuel == 0 then (db, Failed, 0)
      else (db.(rows := Backfilled(db.rows, m.version, m.checksum)), Done, fuel - 1)
    else if fuel <= |m.statements| then
      (db.(schema := ExecuteAll(db.schema, m.statements[..fuel])), Failed, 0)
    else
      (Db(ExecuteAll(db.schema, m.statements), db.rows + [Row(m.version, Some(m.checksum))]), Done,
       fuel - |m.statements| - 1)
  }

  function Run(ms: seq<Migration>, db: Db, fuel: nat): (Db, Outcome) {
    if ms == [] then (db, Done)
    else
      var (after, outcome, left) := RunFile(ms[0], db, fuel);
      if outcome == Done then Run(ms[1..], after, left) else (after, outcome)
  }

  /** How many calls a run of files can make at most. */
  function Calls(ms: seq<Migration>): nat {
    if ms == [] then 0 else |ms[0].statements| + 1 + Calls(ms[1..])
  }

  /** A run in which no call to the database fails. */
  function CleanRun(ms: seq<Migration>, db: Db): (Db, Outcome) {
    Run(ms, db, Calls(ms))
  }

  /** Any number of runs, each failing wherever its fuel ends. */
  function Retries(ms: seq<Migration>, db: Db, fuels: seq<nat>): Db {
    if fuels == [] then db else Run(ms, Retries(ms, db, fuels[..|fuels| - 1]), fuels[|fuels| - 1]).0
  }

  // ---------------------------------------------------------------- statements repeat safely

  /** The schema has all the statement's objects. */
  predicate Covers(s: Schema, st: Statement) {
    st.Keys <= s.Keys
  }

  lemma {:induction false} ExecutedCovers(s: Schema, sts: seq<Statement>)
    ensures s.Keys <= ExecuteAll(s, sts).Keys
    decreases |sts|
    ensures forall i | 0 <= i < |sts| :: Covers(ExecuteAll(s, sts), sts[i])
  {
    if sts != [] {
      ExecutedCovers(Execute(s, sts[0]), sts[1..]);
      forall i | 0 <= i < |sts| ensures Covers(ExecuteAll(s, sts), sts[i]) {
        if i > 0 { assert sts[i] == sts[1..][i - 1]; }
      }
    }
  }

  lemma {:induction false} CoveredChangesNothing(s: Schema, sts: seq<Statement>)
    requires forall i | 0 <= i < |sts| :: Covers(s, sts[i])
    ensures ExecuteAll(s, sts) == s
  {
    if sts != [] {
      assert Covers(s, sts[0]);
      assert Execute(s, sts[0]) == s;
      assert forall i | 0 <= i < |sts| - 1 :: sts[1..][i] == sts[i + 1];
      CoveredChangesNothing(s, sts[1..]);
    }
  }

  lemma {:induction false} ExecuteAppended(s: Schema, a: seq<Statement>, b: seq<Statement>)
    ensures ExecuteAll(s, a + b) == ExecuteAll(ExecuteAll(s, a), b)
    decreases |a|
  {
    if a == [] {
      assert a + b == b;
    } else {
      ExecuteAppended(Execute(s, a[0]), a[1..], b);
      assert (a + b)[1..] == a[1..] + b;
    }
  }

  /** Running a file again after a part of it has run does what running it once does. */
  lemma RepeatIsOnce(s: Schema, sts: seq<Statement>, k: nat)
    requires k <= |sts|
    ensures ExecuteAll(ExecuteAll(s, sts[..k]), sts) == ExecuteAll(s, sts)
  {
    var part := ExecuteAll(s, sts[..k]);
    ExecutedCovers(s, sts[..k]);
    assert forall i | 0 <= i < k :: sts[..k][i] == sts[i] && Covers(part, sts[..k][i]);
    CoveredChangesNothing(part, sts[..k]);
    assert sts == sts[..k] + sts[k..];
    ExecuteAppended(part, sts[..k], sts[k..]);
    ExecuteAppended(s, sts[..k], sts[k..]);
  }

  // ---------------------------------------------------------------- rows

  lemma {:induction false} FindAppended(rows: seq<Row>, r: Row, v: int)
    ensures Find(rows + [r], v)
            == if Find(rows, v).Some? then Find(rows, v) else if r.version == v then Some(r) else None
  {
    if rows == [] {
      assert rows + [r] == [r];
    } else {
      FindAppended(rows[1..], r, v);
      assert (rows + [r])[1..] == rows[1..] + [r];
    }
  }

  lemma {:induction false} FindBackfilled(rows: seq<Row>, u: int, checksum: string, v: int)
    ensures Find(Backfilled(rows, u, checksum), v)
            == if u == v && Find(rows, v).Some? then Some(Row(v, Some(checksum))) else Find(rows, v)
  {
    if rows != [] {
      FindBackfilled(rows[1..], u, checksum, v);
    }
  }

  /** A version is settled once it is recorded with the checksum of its file. */
  predicate Settled(db: Db, m: Migration) {
    Find(db.rows, m.version) == Some(Row(m.version, Some(m.checksum)))
  }

  /** Running other files leaves a version's row alone. */
  lemma {:induction false} RowKept(ms: seq<Migration>, db: Db, fuel: nat, v: int)
    requires forall i | 0 <= i < |ms| :: ms[i].version != v
    ensures Find(Run(ms, db, fuel).0.rows, v) == Find(db.rows, v)
  {
    if ms != [] {
      var (after, outcome, left) := RunFile(ms[0], db, fuel);
      FindBackfilled(db.rows, ms[0].version, ms[0].checksum, v);
      FindAppended(db.rows, Row(ms[0].version, Some(ms[0].checksum)), v);
      if outcome == Done {
        RowKept(ms[1..], after, left, v);
      }
    }
  }

  /** A file that ran through is settled. */
  lemma DoneSettles(m: Migration, db: Db, fuel: nat)
    requires RunFile(m, db, fuel).1 == Done
    requires forall v :: Find(db.rows, v).Some? ==> Find(db.rows, v).value.version == v
    ensures Settled(RunFile(m, db, fuel).0, m)
  {
    FindBackfilled(db.rows, m.version, m.checksum, m.version);
    FindAppended(db.rows, Row(m.version, Some(m.checksum)), m.version);
  }

  lemma {:induction false} FindsItself(rows: seq<Row>, v: int)
    ensures Find(rows, v).Some? ==> Find(rows, v).value.version == v
  {
    if rows != [] { FindsItself(rows[1..], v); }
  }

  /** More fuel than a run can use makes no difference. */
  lemma {:induction false} EnoughFuel(ms: seq<Migration>, db: Db, fuel: nat)
    requires fuel >= Calls(ms)
    ensures Run(ms, db, fuel) == CleanRun(ms, db)
  {
    if ms != [] {
      var (after, outcome, left) := RunFile(ms[0], db, fuel);
      var (after', outcome', left') := RunFile(ms[0], db, Calls(ms));
      if outcome == Done {
        EnoughFuel(ms[1..], after, left);
        EnoughFuel(ms[1..], after', left');
      }
    }
  }

  // ---------------------------------------------------------------- convergence

  /** After one run that failed anywhere, a clean run ends as it would have from the start. */
  lemma {:induction false} OneFailureConverges(ms: seq<Migration>, db: Db, fuel: nat)
    requires Ascending(ms)
    ensures CleanRun(ms, Run(ms, db, fuel).0) == CleanRun(ms, db)
    decreases |ms|, 1
  {
    if ms != [] {
      var m, rest := ms[0], ms[1..];
      var (after, outcome, left) := RunFile(m, db, fuel);
      if outcome == Done {
        FinishedFile(ms, db, fuel);
      } else {
        BrokenFile(ms, db, fuel);
      }
    }
  }

  /** The run broke off inside its first file. */
  lemma BrokenFile(ms: seq<Migration>, db: Db, fuel: nat)
    requires ms != [] && RunFile(ms[0], db, fuel).1 != Done
    ensures CleanRun(ms, Run(ms, db, fuel).0) == CleanRun(ms, db)
  {
    var m := ms[0];
    if Find(db.rows, m.version).None? {
      RepeatIsOnce(db.schema, m.statements, fuel);
    }
  }

  /** The run got through its first file. */
  lemma FinishedFile(ms: seq<Migration>, db: Db, fuel: nat)
    requires ms != [] && Ascending(ms) && RunFile(ms[0], db, fuel).1 == Done
    ensures CleanRun(ms, Run(ms, db, fuel).0) == CleanRun(ms, db)
    decreases |ms|, 0
  {
    var m, rest := ms[0], ms[1..];
    var (after, outcome, left) := RunFile(m, db, fuel);
    var later := Run(rest, after, left).0;
    forall v ensures Find(db.rows, v).Some? ==> Find(db.rows, v).value.version == v { FindsItself(db.rows, v); }
    DoneSettles(m, db, fuel);
    assert forall i | 0 <= i < |rest| :: rest[i] == ms[i + 1];
    RowKept(rest, after, left, m.version);
    OneFailureConverges(rest, after, left);
    EnoughFuel(rest, later, Calls(ms));
    EnoughFuel(rest, after, RunFile(m, db, Calls(ms)).2);
  }

  lemma {:induction false} RetriesConverge(ms: seq<Migration>, db: Db, fuels: seq<nat>)
    requires Ascending(ms)
    ensures CleanRun(ms, Retries(ms, db, fuels)) == CleanRun(ms, db)
  {
    if fuels != [] {
      RetriesConverge(ms, db, fuels[..|fuels| - 1]);
      OneFailureConverges(ms, Retries(ms, db, fuels[..|fuels| - 1]), fuels[|fuels| - 1]);
    }
  }

  lemma {:induction false} DoneIsClean(ms: seq<Migration>, db: Db, fuel: nat)
    requires Run(ms, db, fuel).1 == Done
    ensures Run(ms, db, fuel) == CleanRun(ms, db)
  {
    if ms != [] {
      var (after, outcome, left) := RunFile(ms[0], db, fuel);
      var (after', outcome', left') := RunFile(ms[0], db, Calls(ms));
      DoneIsClean(ms[1..], after, left);
      EnoughFuel(ms[1..], after', left');
    }
  }

  /** Retry convergence: any number of runs that fail at arbitrary statements, followed by
      one that succeeds, end in the schema and the records of one clean run. */
  lemma RetryConvergence(ms: seq<Migration>, db: Db, fuels: seq<nat>, fuel: nat)
    requires Ascending(ms) && Run(ms, Retries(ms, db, fuels), fuel).1 == Done
    ensures Run(ms, Retries(ms, db, fuels), fuel) == CleanRun(ms, db)
  {
    DoneIsClean(ms, Retries(ms, db, fuels), fuel);
    RetriesConverge(ms, db, fuels);
  }

  /** Which file the records contradict. */
  predicate Contradicted(rows: seq<Row>, m: Migration) {
    var row := Find(rows, m.version);
    row.Some? && row.value.checksum.Some? && row.value.checksum.value != m.checksum
  }

  /** A clean run succeeds exactly when no file differs from what was recorded for it, and
      otherwise reports the mismatch. */
  lemma {:induction false} SucceedsExactlyWhen(ms: seq<Migration>, db: Db)
    requires Ascending(ms)
    ensures CleanRun(ms, db).1 == Done <==> forall i | 0 <= i < |ms| :: !Contradicted(db.rows, ms[i])
    ensures CleanRun(ms, db).1 != Failed
  {
    if ms != [] {
      var m, rest := ms[0], ms[1..];
      var (after, outcome, left) := RunFile(m, db, Calls(ms));
      assert forall i | 0 <= i < |rest| :: rest[i] == ms[i + 1];
      if outcome == Done {
        forall i | 0 <= i < |rest| ensures Contradicted(after.rows, rest[i]) <==> Contradicted(db.rows, rest[i]) {
          FindBackfilled(db.rows, m.version, m.checksum, rest[i].version);
          FindAppended(db.rows, Row(m.version, Some(m.checksum)), rest[i].version);
        }
        SucceedsExactlyWhen(rest, after);
        EnoughFuel(rest, after, left);
        assert !Contradicted(db.rows, ms[0]);
        assert forall i | 0 < i < |ms| :: ms[i] == rest[i - 1];
      } else {
        assert Contradicted(db.rows, ms[0]);
      }
    }
  }

  /** A run over settled files makes no call and changes nothing. */
  lemma {:induction false} SettledRunsIdle(ms: seq<Migration>, db: Db, fuel: nat)
    requires forall i | 0 <= i < |ms| :: Settled(db, ms[i])
    ensures Run(ms, db, fuel) == (db, Done)
  {
    if ms != [] {
      assert Settled(db, ms[0]);
      assert forall i | 0 <= i < |ms| - 1 :: ms[1..][i] == ms[i + 1];
      SettledRunsIdle(ms[1..], db, fuel);
    }
  }

  lemma {:induction false} SuccessSettles(ms: seq<Migration>, db: Db, fuel: nat)
    requires Ascending(ms) && Run(ms, db, fuel).1 == Done
    ensures forall i | 0 <= i < |ms| :: Settled(Run(ms, db, fuel).0, ms[i])
  {
    if ms != [] {
      var (after, outcome, left) := RunFile(ms[0], db, fuel);
      forall v ensures Find(db.rows, v).Some? ==> Find(db.rows, v).value.version == v { FindsItself(db.rows, v); }
      DoneSettles(ms[0], db, fuel);
      assert forall i | 0 <= i < |ms| - 1 :: ms[1..][i] == ms[i + 1];
      RowKept(ms[1..], after, left, ms[0].version);
      SuccessSettles(ms[1..], after, left);
      assert forall i | 0 < i < |ms| :: ms[i] == ms[1..][i - 1];
    }
  }

  /** After a success, a further run changes nothing, even if no call to the database
      would succeed. */
  lemma FurtherRunChangesNothing(ms: seq<Migration>, db: Db, fuel: nat, more: nat)
    requires Ascending(ms) && Run(ms, db, fuel).1 == Done
    ensures Run(ms, Run(ms, db, fuel).0, more) == (Run(ms, db, fuel).0, Done)
  {
    SuccessSettles(ms, db, fuel);
    SettledRunsIdle(ms, Run(ms, db, fuel).0, more);
  }

  /** What a new database holds after a success: every statement's effect in file order, and
      one row per file, in ascending order of version. */
  function Records(ms: seq<Migration>): seq<Row> {
    if ms == [] then [] else [Row(ms[0].version, Some(ms[0].checksum))] + Records(ms[1..])
  }

  function AllStatements(ms: seq<Migration>): seq<Statement> {
    if ms == [] then [] else ms[0].statements + AllStatements(ms[1..])
  }

  ghost predicate Unrecorded(ms: seq<Migration>, rows: seq<Row>) {
    forall i | 0 <= i < |ms| :: Find(rows, ms[i].version).None?
  }

  /** Recording the first file leaves the later ones unrecorded. */
  lemma FreshRest(ms: seq<Migration>, rows: seq<Row>, row: Row)
    requires Ascending(ms) && ms != [] && row.version == ms[0].version && Unrecorded(ms, rows)
    ensures Ascending(ms[1..]) && Unrecorded(ms[1..], rows + [row])
  {
    forall i | 0 <= i < |ms[1..]| ensures Find(rows + [row], ms[1..][i].version).None? {
      assert ms[1..][i] == ms[i + 1];
      FindAppended(rows, row, ms[i + 1].version);
    }
  }

  lemma {:induction false} FreshRun(ms: seq<Migration>, db: Db)
    requires Ascending(ms) && Unrecorded(ms, db.rows)
    ensures CleanRun(ms, db) == (Db(ExecuteAll(db.schema, AllStatements(ms)), db.rows + Records(ms)), Done)
  {
    if ms == [] {
      assert db.rows + [] == db.rows;
    } else {
      var m, rest := ms[0], ms[1..];
      var row := Row(m.version, Some(m.checksum));
      var after := Db(ExecuteAll(db.schema, m.statements), db.rows + [row]);
      assert CleanRun(ms, db) == Run(rest, after, Calls(rest)) by {
        assert RunFile(m, db, Calls(ms)) == (after, Done, Calls(rest));
      }
      FreshRest(ms, db.rows, row);
      FreshRun(rest, after);
      FirstOfAll(ms, db, row);
    }
  }

  lemma {:induction false} FirstOfAll(ms: seq<Migration>, db: Db, row: Row)
    requires ms != [] && row == Row(ms[0].version, Some(ms[0].checksum))
    ensures ExecuteAll(ExecuteAll(db.schema, ms[0].statements), AllStatements(ms[1..]))
            == ExecuteAll(db.schema, AllStatements(ms))
    ensures db.rows + [row] + Records(ms[1..]) == db.rows + Records(ms)
  {
    ExecuteAppended(db.schema, ms[0].statements, AllStatements(ms[1..]));
    assert Records(ms) == [row] + Records(ms[1..]);
    assert db.rows + [row] + Records(ms[1..]) == db.rows + ([row] + Records(ms[1..]));
  }

  lemma {:induction false} RecordsAscend(ms: seq<Migration>)
    requires Ascending(ms)
    ensures |Records(ms)| == |ms|
    ensures forall i | 0 <= i < |ms| :: Records(ms)[i] == Row(ms[i].version, Some(ms[i].checksum))
    ensures forall i, j | 0 <= i < j < |ms| :: Records(ms)[i].version < Records(ms)[j].version
  {
    if ms != [] {
      RecordsAscend(ms[1..]);
    }
  }

  /** The whole claim for a new database, whatever fails on the way. */
  lemma NewDatabaseConverges(ms: seq<Migration>, schema: Schema, fuels: seq<nat>, fuel: nat)
    requires Ascending(ms) && Run(ms, Retries(ms, Db(schema, []), fuels), fuel).1 == Done
    ensures Run(ms, Retries(ms, Db(schema, []), fuels), fuel).0
            == Db(ExecuteAll(schema, AllStatements(ms)), Records(ms))
  {
    RetryConvergence(ms, Db(schema, []), fuels, fuel);
    FreshRun(ms, Db(schema, []));
    assert [] + Records(ms) == Records(ms);
  }

  // ---------------------------------------------------------------- call by call

  /** A call to the database. */
  datatype DbCall = ExecuteOne(st: Statement) | Record(row: Row) | Backfill(version: int, checksum: string)

  function Made(db: Db, c: DbCall): Db {
    match c
    case ExecuteOne(st) => db.(schema := Execute(db.schema, st))
    case Record(row) => db.(rows := db.rows + [row])
    case Backfill(version, checksum) => db.(rows := Backfilled(db.rows, version, checksum))
  }

  function MadeAll(db: Db, calls: seq<DbCall>): Db
    decreases |calls|
  {
    if calls == [] then db else MadeAll(Made(db, calls[0]), calls[1..])
  }

  function Executions(sts: seq<Statement>): (r: seq<DbCall>)
    ensures |r| == |sts| && forall i | 0 <= i < |r| :: r[i] == ExecuteOne(sts[i])
  {
    seq(|sts|, i requires 0 <= i < |sts| => ExecuteOne(sts[i]))
  }

  /** The calls of a run on these records: an unrecorded file is executed and then recorded, one
      recorded without a checksum gets it, one recorded with its own needs nothing, and at one
      recorded with another the run stops. */
  function Planned(ms: seq<Migration>, rows: seq<Row>): seq<DbCall> {
    if ms == [] then []
    else
      var m, row := ms[0], Find(rows, ms[0].version);
      if row.None? then
        Executions(m.statements) + [Record(Row(m.version, Some(m.checksum)))] + Planned(ms[1..], rows)
      else if row.value.checksum.None? then [Backfill(m.version, m.checksum)] + Planned(ms[1..], rows)
      else if row.value.checksum.value == m.checksum then Planned(ms[1..], rows)
      else []
  }

  lemma {:induction false} MadeAppended(db: Db, a: seq<DbCall>, b: seq<DbCall>)
    ensures MadeAll(db, a + b) == MadeAll(MadeAll(db, a), b)
    decreases |a|
  {
    if a == [] {
      assert a + b == b;
    } else {
      MadeAppended(Made(db, a[0]), a[1..], b);
      assert (a + b)[1..] == a[1..] + b;
    }
  }

  lemma {:induction false} ExecutionsMade(db: Db, sts: seq<Statement>)
    ensures MadeAll(db, Executions(sts)) == db.(schema := ExecuteAll(db.schema, sts))
    decreases |sts|
  {
    if sts != [] {
      assert Executions(sts)[1..] == Executions(sts[1..]);
      ExecutionsMade(db.(schema := Execute(db.schema, sts[0])), sts[1..]);
    }
  }

  lemma {:induction false} PlannedSame(ms: seq<Migration>, rows: seq<Row>, others: seq<Row>)
    requires forall i | 0 <= i < |ms| :: Find(rows, ms[i].version) == Find(others, ms[i].version)
    ensures Planned(ms, rows) == Planned(ms, others)
    ensures forall i | 0 <= i < |ms| :: Contradicted(rows, ms[i]) == Contradicted(others, ms[i])
  {
    if ms != [] {
      assert forall i | 0 <= i < |ms[1..]| :: ms[1..][i] == ms[i + 1];
      PlannedSame(ms[1..], rows, others);
    }
  }

  /** One file is done: the rest of the plan stands. */
  lemma RestPlanned(ms: seq<Migration>, db: Db, fuel: nat)
    requires ms != [] && Ascending(ms) && RunFile(ms[0], db, fuel).1 == Done
    ensures var rows := RunFile(ms[0], db, fuel).0.rows;
            && Planned(ms[1..], rows) == Planned(ms[1..], db.rows)
            && forall i | 0 <= i < |ms[1..]| :: Contradicted(rows, ms[1..][i]) == Contradicted(db.rows, ms[1..][i])
  {
    var m, rest := ms[0], ms[1..];
    var rows := RunFile(m, db, fuel).0.rows;
    forall i | 0 <= i < |rest| ensures Find(rows, rest[i].version) == Find(db.rows, rest[i].version) {
      assert rest[i] == ms[i + 1];
      FindBackfilled(db.rows, m.version, m.checksum, rest[i].version);
      FindAppended(db.rows, Row(m.version, Some(m.checksum)), rest[i].version);
    }
    PlannedSame(rest, rows, db.rows);
  }

  /** The part of the plan that belongs to one file. */
  function PlannedOne(m: Migration, rows: seq<Row>): seq<DbCall> {
    var row := Find(rows, m.version);
    if row.None? then Executions(m.statements) + [Record(Row(m.version, Some(m.checksum)))]
    else if row.value.checksum.None? then [Backfill(m.version, m.checksum)]
    else []
  }

  lemma FileMade(m: Migration, db: Db, fuel: nat)
    ensures var (after, outcome, left) := RunFile(m, db, fuel);
            var plan := PlannedOne(m, db.rows);
            if fuel < |plan| then after == MadeAll(db, plan[..fuel]) && outcome == Failed
            else after == MadeAll(db, plan) && left == fuel - |plan|
                 && outcome == if Contradicted(db.rows, m) then ChecksumMismatch else Done
  {
    var plan := PlannedOne(m, db.rows);
    if Find(db.rows, m.version).None? {
      var record := Record(Row(m.version, Some(m.checksum)));
      if fuel <= |m.statements| {
        assert plan[..fuel] == Executions(m.statements[..fuel]);
        ExecutionsMade(db, m.statements[..fuel]);
      } else {
        ExecutionsMade(db, m.statements);
        MadeAppended(db, Executions(m.statements), [record]);
        OneMade(db.(schema := ExecuteAll(db.schema, m.statements)), record);
      }
    } else if Find(db.rows, m.version).value.checksum.None? {
      OneMade(db, Backfill(m.version, m.checksum));
    }
  }

  lemma OneMade(db: Db, c: DbCall)
    ensures MadeAll(db, [c]) == Made(db, c) && MadeAll(db, []) == db
  {
    assert [c][1..] == [];
  }

  /** Whatever has been recorded and wherever the database fails, a run makes the first calls of
      its plan, as many as succeed. It fails if that leaves any; else it ends, at a mismatch if
      some file contradicts its record. */
  lemma {:induction false} RunIsItsCalls(ms: seq<Migration>, db: Db, fuel: nat)
    requires Ascending(ms)
    ensures var plan := Planned(ms, db.rows);
            if fuel < |plan| then Run(ms, db, fuel) == (MadeAll(db, plan[..fuel]), Failed)
            else Run(ms, db, fuel)
                 == (MadeAll(db, plan),
                     if exists i :: 0 <= i < |ms| && Contradicted(db.rows, ms[i]) then ChecksumMismatch else Done)
  {
    if ms != [] {
      var m, rest, plan := ms[0], ms[1..], PlannedOne(ms[0], db.rows);
      FileMade(m, db, fuel);
      var (after, outcome, left) := RunFile(m, db, fuel);
      if outcome == Done {
        assert Planned(ms, db.rows) == plan + Planned(rest, db.rows);
        RestPlanned(ms, db, fuel);
        assert Ascending(rest);
        RunIsItsCalls(rest, after, left);
        GoesOn(ms, db.rows, after.rows);
        var more := Planned(rest, db.rows);
        if left < |more| {
          assert (plan + more)[..fuel] == plan + more[..left];
          MadeAppended(db, plan, more[..left]);
        } else {
          MadeAppended(db, plan, more);
        }
      } else if fuel < |plan| {
        assert Planned(ms, db.rows)[..fuel] == plan[..fuel];
      }
    }
  }

  lemma GoesOn(ms: seq<Migration>, rows: seq<Row>, others: seq<Row>)
    requires ms != [] && !Contradicted(rows, ms[0])
    requires forall i | 0 <= i < |ms[1..]| :: Contradicted(others, ms[1..][i]) == Contradicted(rows, ms[1..][i])
    ensures (exists i :: 0 <= i < |ms[1..]| && Contradicted(others, ms[1..][i]))
            <==> exists i :: 0 <= i < |ms| && Contradicted(rows, ms[i])
  {
    if i :| 0 <= i < |ms| && Contradicted(rows, ms[i]) {
      assert ms[1..][i - 1] == ms[i];
    }
    if i :| 0 <= i < |ms[1..]| && Contradicted(others, ms[1..][i]) {
      assert ms[i + 1] == ms[1..][i];
    }
  }

  // ---------------------------------------------------------------- the runner

  /** The primary key of the tracking table. */
  predicate UniqueVersions(rows: seq<Row>) {
    forall i, j | 0 <= i < j < |rows| :: rows[i].version != rows[j].version
  }

  lemma {:induction false} FindAt(rows: seq<Row>, i: nat)
    requires UniqueVersions(rows) && i < |rows|
    ensures Find(rows, rows[i].version) == Some(rows[i])
  {
    if i > 0 {
      assert rows[1..][i - 1] == rows[i];
      FindAt(rows[1..], i - 1);
    }
  }

  lemma {:induction false} FindNothing(rows: seq<Row>, v: int)
    requires forall i | 0 <= i < |rows| :: rows[i].version != v
    ensures Find(rows, v).None?
  {
    if rows != [] {
      FindNothing(rows[1..], v);
    }
  }

  /** What the dictionary says of a version. */
  function Recorded(applied: map<int, Option<string>>, v: int): Option<Row> {
    if v in applied then Some(Row(v, applied[v])) else None
  }

  /** The versions of the files that are not recorded, in order. */
  function Missing(ms: seq<Migration>, rows: seq<Row>): seq<int> {
    if ms == [] then []
    else (if Find(rows, ms[0].version).None? then [ms[0].version] else []) + Missing(ms[1..], rows)
  }

  lemma {:induction false} MissingSame(ms: seq<Migration>, rows: seq<Row>, others: seq<Row>)
    requires forall i | 0 <= i < |ms| :: Find(rows, ms[i].version) == Find(others, ms[i].version)
    ensures Missing(ms, rows) == Missing(ms, others)
  {
    if ms != [] {
      MissingSame(ms[1..], rows, others);
    }
  }

  class Runner {
    var schema: Schema
    var rows: seq<Row>

    ghost function Model(): Db
      reads this
    {
      Db(schema, rows)
    }

    /** The tracking table as the dictionary the runner reads once, before it starts. */
    method AppliedChecksums() returns (applied: map<int, Option<string>>)
      requires UniqueVersions(rows)
      ensures forall v :: Recorded(applied, v) == Find(rows, v)
    {
      applied := map[];
      for i := 0 to |rows|
        invariant forall v :: v in applied <==> exists j :: 0 <= j < i && rows[j].version == v
        invariant forall j | 0 <= j < i :: applied[rows[j].version] == rows[j].checksum
      {
        applied := applied[rows[i].version := rows[i].checksum];
      }
      forall v ensures Recorded(applied, v) == Find(rows, v) {
        if v in applied {
          var j :| 0 <= j < |rows| && rows[j].version == v;
          FindAt(rows, j);
        } else {
          FindNothing(rows, v);
        }
      }
    }

    /** `apply_migrations_async`, when the database fails the call after `fuel` successful
        ones. Decisions are taken on the records read at the start. A run that succeeds
        returns the files it applied. */
    method Apply(ms: seq<Migration>, fuel: nat) returns (outcome: Outcome, newlyApplied: seq<int>)
      requires Ascending(ms) && UniqueVersions(rows)
      modifies this
      ensures (Model(), outcome) == Run(ms, old(Model()), fuel)
      ensures outcome == Done ==> newlyApplied == Missing(ms, old(rows))
    {
      newlyApplied := [];
      var applied := AppliedChecksums();
      var left := fuel;
      for i := 0 to |ms|
        invariant Run(ms[i..], Model(), left) == Run(ms, old(Model()), fuel)
        invariant Agrees(rows, ms, i, applied)
        invariant newlyApplied + Missing(ms[i..], rows) == Missing(ms, old(rows))
      {
        RunFrom(ms, i, Model(), left);
        ghost var before := rows;
        outcome, left := ApplyFile(ms[i], applied, left);
        if outcome != Done {
          return outcome, [];
        }
        RestSame(before, rows, ms, i);
        var more := if ms[i].version in applied then [] else [ms[i].version];
        assert Missing(ms[i..], before) == more + Missing(ms[i + 1..], rows);
        Associates(newlyApplied, more, Missing(ms[i + 1..], rows));
        newlyApplied := newlyApplied + more;
      }
      assert ms[|ms|..] == [];
      return Done, newlyApplied;
    }

    /** One turn of the loop. */
    method ApplyFile(m: Migration, applied: map<int, Option<string>>, fuel: nat) returns (outcome: Outcome, left: nat)
      requires Find(rows, m.version) == Recorded(applied, m.version)
      modifies this
      ensures (Model(), outcome, left) == RunFile(m, old(Model()), fuel)
      ensures rows == old(rows) || rows == Backfilled(old(rows), m.version, m.checksum)
              || rows == old(rows) + [Row(m.version, Some(m.checksum))]
    {
      left := fuel;
      if m.version in applied {
        var checksum := applied[m.version];
        if checksum.Some? && checksum.value != m.checksum {
          return ChecksumMismatch, left;
        }
        if checksum.None? {
          if left == 0 {
            return Failed, 0;
          }
          left := left - 1;
          rows := Backfilled(rows, m.version, m.checksum);
        }
        return Done, left;
      }
      var ok;
      ok, left := ExecuteStatements(m.statements, left);
      if !ok || left == 0 {
        assert m.statements[..|m.statements|] == m.statements;
        return Failed, 0;
      }
      rows := rows + [Row(m.version, Some(m.checksum))];
      return Done, left - 1;
    }

    /** The statements of one file, until one fails. */
    method ExecuteStatements(statements: seq<Statement>, fuel: nat) returns (ok: bool, left: nat)
      modifies `schema
      ensures ok == (fuel >= |statements|)
      ensures ok ==> left == fuel - |statements| && schema == ExecuteAll(old(schema), statements)
      ensures !ok ==> left == 0 && schema == ExecuteAll(old(schema), statements[..fuel])
    {
      left := fuel;
      for i := 0 to |statements|
        invariant i + left == fuel
        invariant schema == ExecuteAll(old(schema), statements[..i])
      {
        if left == 0 {
          return false, 0;
        }
        ExecuteAppended(old(schema), statements[..i], [statements[i]]);
        assert statements[..i + 1] == statements[..i] + [statements[i]];
        schema := Execute(schema, statements[i]);
        left := left - 1;
      }
      assert statements[..|statements|] == statements;
      return true, left;
    }
  }

  /** What was read at the start still holds of the files from `i` on. */
  ghost predicate Agrees(rows: seq<Row>, ms: seq<Migration>, i: nat, applied: map<int, Option<string>>) {
    forall n | i <= n < |ms| :: Find(rows, ms[n].version) == Recorded(applied, ms[n].version)
  }

  lemma Associates<T>(a: seq<T>, b: seq<T>, c: seq<T>)
    ensures (a + b) + c == a + (b + c)
  {
  }

  lemma RunFrom(ms: seq<Migration>, i: nat, db: Db, fuel: nat)
    requires i < |ms|
    ensures var (after, outcome, left) := RunFile(ms[i], db, fuel);
            Run(ms[i..], db, fuel) == if outcome == Done then Run(ms[i + 1..], after, left) else (after, outcome)
  {
    assert ms[i..][1..] == ms[i + 1..];
  }

  /** Recording one file changes nothing for later ones. */
  lemma RestSame(rows: seq<Row>, others: seq<Row>, ms: seq<Migration>, i: nat)
    requires Ascending(ms) && i < |ms|
    requires others == rows || others == Backfilled(rows, ms[i].version, ms[i].checksum)
             || others == rows + [Row(ms[i].version, Some(ms[i].checksum))]
    ensures forall n | i < n < |ms| :: Find(others, ms[n].version) == Find(rows, ms[n].version)
    ensures Missing(ms[i..], rows)
            == (if Find(rows, ms[i].version).None? then [ms[i].version] else []) + Missing(ms[i + 1..], others)
  {
    forall n | i < n < |ms| ensures Find(others, ms[n].version) == Find(rows, ms[n].version) {
      FindBackfilled(rows, ms[i].version, ms[i].checksum, ms[n].version);
      FindAppended(rows, Row(ms[i].version, Some(ms[i].checksum)), ms[n].version);
    }
    MissingSame(ms[i + 1..], rows, others);
    assert ms[i..][1..] == ms[i + 1..];
  }
}
