/**
 The migration that drains the legacy calendar tables into `release_calendar_entries`.

 One SQL statement is one atomic step over a shared database. Any number of runners may be
 inside the migration at once, interleaved in any order, and any of them may stop for ever
 at any point (a crash is a runner that is never scheduled again).
*/
module CalendarDrain {
  import opened Wrappers

  /** The tables drained, in the order in which they are drained. */
  const LEGACY_TABLES: seq<string> := ["expected_issues", "expected_issues_new"]

  // ---------------------------------------------------------------- rows and tables

  /** What identifies a release: the columns of the unique index `ux_rce_identity`. */
  datatype Identity = Identity(provider: string, externalId: string)

  /** The columns that every statement copies verbatim. */
  datatype Details = Details(
    number: Option<string>, title: Option<string>, coverUrl: Option<string>,
    releaseDate: Option<string>, createdAt: string)

  datatype Release = Release(
    seriesId: Option<string>, seriesName: Option<string>, seriesExternalId: Option<string>,
    key: Identity, details: Details)

  /** `hasSeriesName` is the schema of the table; `rows` is keyed by its integer primary key. */
  datatype LegacyTable = LegacyTable(hasSeriesName: bool, rows: map<nat, Release>)

  datatype Db = Db(
    calendar: Option<seq<Release>>, identityIndex: bool, legacy: map<string, LegacyTable>)

  /** The first entry stored under a key. */
  function Lookup(entries: seq<Release>, key: Identity): Option<Release> {
    if entries == [] then None
    else if entries[0].key == key then Some(entries[0])
    else Lookup(entries[1..], key)
  }

  ghost predicate DistinctKeys(entries: seq<Release>) {
    forall i, j :: 0 <= i < j < |entries| ==> entries[i].key != entries[j].key
  }

  // ------------------------------------------------------------------ the SELECT side

  /** `CASE WHEN series_id IN (SELECT id FROM series) THEN series_id END`, and the columns a
      narrow table does not have. */
  function Projected(row: Release, wide: bool, series: set<string>): Release {
    var bound := if row.seriesId.Some? && row.seriesId.value in series then row.seriesId else None;
    if wide then row.(seriesId := bound)
    else row.(seriesId := bound, seriesName := None, seriesExternalId := None)
  }

  /** What becomes of a legacy row, column by column: a series id that resolves is kept and any other
      is NULL, the labels are kept if the table has them, and everything else is copied. */
  ghost predicate CarriedOver(entry: Release, row: Release, wide: bool, series: set<string>) {
    && entry.key == row.key && entry.details == row.details
    && (forall id :: entry.seriesId == Some(id) <==> row.seriesId == Some(id) && id in series)
    && entry.seriesName == (if wide then row.seriesName else None)
    && entry.seriesExternalId == (if wide then row.seriesExternalId else None)
  }

  /** The entry found under a key, if any, carries over this row. */
  ghost predicate FoundCarriedOver(found: Option<Release>, row: Release, wide: bool, series: set<string>) {
    found.Some? && CarriedOver(found.value, row, wide, series)
  }

  predicate IsLeast(least: nat, ids: set<nat>) {
    least in ids && forall id :: id in ids ==> least <= id
  }

  lemma LeastOf(ids: set<nat>) returns (least: nat)
    requires ids != {}
    ensures IsLeast(least, ids)
  {
    var first :| first in ids;
    var rest := ids - {first};
    least := first;
    if rest != {} {
      var other := LeastOf(rest);
      least := if other < first then other else first;
    }
    forall id | id in ids ensures least <= id {
      assert id == first || id in rest;
    }
  }

  lemma LeastExists(ids: set<nat>)
    requires ids != {}
    ensures exists least :: IsLeast(least, ids)
  {
    var least := LeastOf(ids);
  }

  /** The smallest primary key of a table. */
  function LeastId(rows: map<nat, Release>): (least: nat)
    requires rows != map[]
    ensures least in rows && forall id :: id in rows ==> least <= id
  {
    assert rows.Keys != {} by {
      var id :| id in rows;
    }
    LeastExists(rows.Keys);
    var least :| IsLeast(least, rows.Keys);
    least
  }

  /** `SELECT ... ORDER BY id`. */
  function SelectOrderById(rows: map<nat, Release>, wide: bool, series: set<string>): seq<Release>
    decreases |rows|
  {
    if rows == map[] then []
    else
      var id := LeastId(rows);
      [Projected(rows[id], wide, series)] + SelectOrderById(rows - {id}, wide, series)
  }

  // ------------------------------------------------------------------ the INSERT side

  /** `INSERT OR IGNORE` of one row, against the unique index when it is there. */
  function InsertRow(calendar: seq<Release>, unique: bool, row: Release): seq<Release> {
    if unique && Lookup(calendar, row.key).Some? then calendar else calendar + [row]
  }

  function InsertRows(calendar: seq<Release>, unique: bool, rows: seq<Release>): seq<Release>
    decreases |rows|
  {
    if rows == [] then calendar
    else InsertRows(InsertRow(calendar, unique, rows[0]), unique, rows[1..])
  }

  // -------------------------------------------------------------------- the statements

  /** A statement either takes effect or raises an error and changes nothing. */
  type Executed = Option<Db>

  function CreateCalendar(db: Db): Db {
    if db.calendar.None? then db.(calendar := Some([])) else db
  }

  /** Building a unique index fails on a missing table and on duplicate keys. */
  ghost function CreateIdentityIndex(db: Db): Executed {
    if db.identityIndex then Some(db)
    else if db.calendar.Some? && DistinctKeys(db.calendar.value) then Some(db.(identityIndex := true))
    else None
  }

  function HasSeriesName(db: Db, table: string): bool {
    table in db.legacy && db.legacy[table].hasSeriesName
  }

  /** Fails when either table is missing, or when a column is asked of a table without it. */
  function InsertSelect(db: Db, table: string, wide: bool, series: set<string>): Executed {
    if db.calendar.None? || table !in db.legacy then None
    else if wide && !db.legacy[table].hasSeriesName then None
    else
      var rows := SelectOrderById(db.legacy[table].rows, wide, series);
      Some(db.(calendar := Some(InsertRows(db.calendar.value, db.identityIndex, rows))))
  }

  function DropTable(db: Db, table: string): Db {
    db.(legacy := db.legacy - {table})
  }

  // ------------------------------------------------------------ runners as step systems

  /** Where a runner of `up` has got to; `k` counts the legacy tables. */
  datatype Pc =
    | CreatingTable
    | CreatingIndex
    | CheckingTable(k: nat)
    | CheckingColumn(k: nat)
    | Inserting(k: nat, wide: bool)
    | Dropping(k: nat)
    | Done
    | Aborted(k: nat)

  datatype System = System(db: Db, runners: seq<Pc>)

  function After(k: nat): Pc {
    if k + 1 < |LEGACY_TABLES| then CheckingTable(k + 1) else Done
  }

  predicate Halted(pc: Pc) {
    pc.Done? || pc.Aborted?
  }

  predicate Draining(pc: Pc) {
    pc.CheckingTable? || pc.CheckingColumn? || pc.Inserting? || pc.Dropping?
  }

  predicate InRange(pc: Pc) {
    Draining(pc) || pc.Aborted? ==> pc.k < |LEGACY_TABLES|
  }

  /** One statement of one runner. */
  ghost function StepOf(db: Db, pc: Pc, series: set<string>): (Db, Pc)
    requires !Halted(pc) && InRange(pc)
  {
    match pc
    case CreatingTable => (CreateCalendar(db), CreatingIndex)
    case CreatingIndex =>
      var done := CreateIdentityIndex(db);
      if done.Some? then (done.value, CheckingTable(0)) else (db, Aborted(0))
    case CheckingTable(k) =>
      (db, if LEGACY_TABLES[k] in db.legacy then CheckingColumn(k) else After(k))
    case CheckingColumn(k) => (db, Inserting(k, HasSeriesName(db, LEGACY_TABLES[k])))
    case Inserting(k, wide) =>
      var done := InsertSelect(db, LEGACY_TABLES[k], wide, series);
      if done.Some? then (done.value, Dropping(k)) else (db, Aborted(k))
    case Dropping(k) => (DropTable(db, LEGACY_TABLES[k]), After(k))
  }

  ghost predicate StepBy(s: System, s': System, r: nat, series: set<string>) {
    && r < |s.runners|
    && !Halted(s.runners[r]) && InRange(s.runners[r])
    && var (db, pc) := StepOf(s.db, s.runners[r], series);
       s' == System(db, s.runners[r := pc])
  }

  ghost predicate Step(s: System, s': System, series: set<string>) {
    exists r: nat :: StepBy(s, s', r, series)
  }

  /** A database on which the migration may be entered: the new table is absent, or its
      identities are already unique. */
  ghost predicate Migratable(db: Db) {
    if db.calendar.None? then !db.identityIndex else DistinctKeys(db.calendar.value)
  }

  ghost predicate Initial(s: System) {
    Migratable(s.db) && forall r :: 0 <= r < |s.runners| ==> s.runners[r] == CreatingTable
  }

  /** Any number of runners, any interleaving of their statements, any length. */
  ghost predicate IsRun(run: seq<System>, series: set<string>) {
    && 0 < |run|
    && Initial(run[0])
    && forall i :: 0 <= i < |run| - 1 ==> Step(run[i], run[i + 1], series)
  }

  // -------------------------------------------------- what a single runner would produce

  function Base(db: Db): seq<Release> {
    if db.calendar.Some? then db.calendar.value else []
  }

  function LegacyRows(db: Db, k: nat, series: set<string>): seq<Release>
    requires k < |LEGACY_TABLES|
  {
    var table := LEGACY_TABLES[k];
    if table in db.legacy then SelectOrderById(db.legacy[table].rows, db.legacy[table].hasSeriesName, series) else []
  }

  /** The calendar once the first `j` legacy tables have been drained one after the other. */
  function DrainedThrough(db: Db, j: nat, series: set<string>): seq<Release>
    requires j <= |LEGACY_TABLES|
  {
    if j == 0 then Base(db)
    else InsertRows(DrainedThrough(db, j - 1, series), true, LegacyRows(db, j - 1, series))
  }

  function SingleRunnerResult(db: Db, series: set<string>): seq<Release> {
    DrainedThrough(db, |LEGACY_TABLES|, series)
  }

  // ----------------------------------------------------------------- lemmas on inserting

  lemma {:induction false} LookupAppend(a: seq<Release>, b: seq<Release>, key: Identity)
    ensures Lookup(a + b, key) == if Lookup(a, key).Some? then Lookup(a, key) else Lookup(b, key)
  {
    if a == [] {
      assert a + b == b;
    } else {
      assert (a + b)[1..] == a[1..] + b;
      LookupAppend(a[1..], b, key);
    }
  }

  lemma {:induction false} LookupFinds(entries: seq<Release>, key: Identity)
    ensures Lookup(entries, key).Some? <==> exists i :: 0 <= i < |entries| && entries[i].key == key
    ensures Lookup(entries, key).Some? ==> Lookup(entries, key).value in entries && Lookup(entries, key).value.key == key
  {
    if entries != [] {
      LookupFinds(entries[1..], key);
      assert entries == [entries[0]] + entries[1..];
    }
  }

  /** An insert never displaces what is there, and adds the first row of each new identity. */
  lemma {:induction false} InsertRowsLookup(calendar: seq<Release>, rows: seq<Release>, key: Identity)
    ensures Lookup(InsertRows(calendar, true, rows), key)
         == if Lookup(calendar, key).Some? then Lookup(calendar, key) else Lookup(rows, key)
    decreases |rows|
  {
    if rows != [] {
      var next := InsertRow(calendar, true, rows[0]);
      InsertRowsLookup(next, rows[1..], key);
      LookupAppend(calendar, [rows[0]], key);
    }
  }

  lemma {:induction false} InsertRowsDistinct(calendar: seq<Release>, rows: seq<Release>)
    requires DistinctKeys(calendar)
    ensures DistinctKeys(InsertRows(calendar, true, rows))
    decreases |rows|
  {
    if rows != [] {
      LookupFinds(calendar, rows[0].key);
      InsertRowsDistinct(InsertRow(calendar, true, rows[0]), rows[1..]);
    }
  }

  /** Inserting rows whose identities are all present changes nothing. */
  lemma {:induction false} InsertRowsIdempotent(calendar: seq<Release>, rows: seq<Release>)
    requires forall i :: 0 <= i < |rows| ==> Lookup(calendar, rows[i].key).Some?
    ensures InsertRows(calendar, true, rows) == calendar
    decreases |rows|
  {
    if rows != [] {
      InsertRowsIdempotent(calendar, rows[1..]);
    }
  }

  lemma {:induction false} DrainedDistinct(db: Db, j: nat, series: set<string>)
    requires Migratable(db) && j <= |LEGACY_TABLES|
    ensures DistinctKeys(DrainedThrough(db, j, series))
  {
    if j > 0 {
      DrainedDistinct(db, j - 1, series);
      InsertRowsDistinct(DrainedThrough(db, j - 1, series), LegacyRows(db, j - 1, series));
    }
  }

  /** Whatever an earlier drain put in the calendar stays in it. */
  lemma {:induction false} DrainedKeeps(db: Db, i: nat, j: nat, series: set<string>, key: Identity)
    requires i <= j <= |LEGACY_TABLES|
    requires Lookup(DrainedThrough(db, i, series), key).Some?
    ensures Lookup(DrainedThrough(db, j, series), key) == Lookup(DrainedThrough(db, i, series), key)
    decreases j - i
  {
    if i < j {
      DrainedKeeps(db, i, j - 1, series, key);
      InsertRowsLookup(DrainedThrough(db, j - 1, series), LegacyRows(db, j - 1, series), key);
    }
  }

  lemma DrainedCovers(db: Db, k: nat, j: nat, series: set<string>, key: Identity)
    requires k < j <= |LEGACY_TABLES|
    requires Lookup(LegacyRows(db, k, series), key).Some?
    ensures Lookup(DrainedThrough(db, j, series), key).Some?
  {
    InsertRowsLookup(DrainedThrough(db, k, series), LegacyRows(db, k, series), key);
    DrainedKeeps(db, k + 1, j, series, key);
  }

  /** Draining a table a second time changes nothing. */
  lemma RedrainIsIdempotent(db: Db, k: nat, j: nat, series: set<string>)
    requires k < j <= |LEGACY_TABLES|
    ensures InsertRows(DrainedThrough(db, j, series), true, LegacyRows(db, k, series)) == DrainedThrough(db, j, series)
  {
    var rows := LegacyRows(db, k, series);
    forall i | 0 <= i < |rows|
      ensures Lookup(DrainedThrough(db, j, series), rows[i].key).Some?
    {
      LookupFinds(rows, rows[i].key);
      DrainedCovers(db, k, j, series, rows[i].key);
    }
    InsertRowsIdempotent(DrainedThrough(db, j, series), rows);
  }

  /** Draining tables that do not exist changes nothing. */
  lemma {:induction false} SkippingAbsentTables(db: Db, i: nat, j: nat, series: set<string>)
    requires i <= j <= |LEGACY_TABLES|
    requires forall k :: i <= k < j ==> LEGACY_TABLES[k] !in db.legacy
    ensures DrainedThrough(db, i, series) == DrainedThrough(db, j, series)
    decreases j - i
  {
    if i < j {
      SkippingAbsentTables(db, i, j - 1, series);
    }
  }

  // ------------------------------------------------------------------------- invariants

  /** How many legacy tables a runner is known to be past. */
  function Progress(pc: Pc): nat {
    match pc
    case CreatingTable => 0
    case CreatingIndex => 0
    case CheckingTable(k) => k
    case CheckingColumn(k) => k
    case Inserting(k, _) => k
    case Dropping(k) => k
    case Done => |LEGACY_TABLES|
    case Aborted(k) => k
  }

  ghost predicate DbOk(db0: Db, db: Db, j: nat, series: set<string>) {
    && j <= |LEGACY_TABLES|
    && (db.calendar.None? ==> !db.identityIndex && j == 0 && db0.calendar.None?)
    && (db.calendar.Some? ==> db.calendar.value == DrainedThrough(db0, j, series))
    && db.legacy.Keys <= db0.legacy.Keys
    && (forall t :: t in db.legacy ==> db.legacy[t] == db0.legacy[t])
    && (forall t :: t in db0.legacy && t !in LEGACY_TABLES ==> t in db.legacy)
    && (forall i :: j <= i < |LEGACY_TABLES| && LEGACY_TABLES[i] in db0.legacy ==> LEGACY_TABLES[i] in db.legacy)
  }

  ghost predicate RunnerOk(db0: Db, db: Db, j: nat, pc: Pc) {
    && InRange(pc)
    && (pc.CreatingIndex? ==> db.calendar.Some?)
    && (Draining(pc) || pc.Done? ==>
         && db.calendar.Some? && db.identityIndex
         && forall i :: 0 <= i < Progress(pc) ==> LEGACY_TABLES[i] !in db.legacy)
    && (pc.CheckingColumn? || pc.Inserting? || pc.Dropping? || pc.Aborted? ==> LEGACY_TABLES[pc.k] in db0.legacy)
    && (pc.Inserting? && LEGACY_TABLES[pc.k] in db.legacy ==> pc.wide == db0.legacy[LEGACY_TABLES[pc.k]].hasSeriesName)
    && (pc.Dropping? ==> pc.k < j)
    && (pc.Aborted? ==> LEGACY_TABLES[pc.k] !in db.legacy)
  }

  /** Some runner is past every table that has disappeared. */
  ghost predicate Witnessed(db0: Db, s: System, i: nat)
    requires i < |LEGACY_TABLES|
  {
    LEGACY_TABLES[i] in db0.legacy && LEGACY_TABLES[i] !in s.db.legacy ==>
      exists r :: 0 <= r < |s.runners| && i < Progress(s.runners[r])
  }

  /** `j` legacy tables have been copied into the calendar so far. */
  ghost predicate Inv(db0: Db, s: System, j: nat, series: set<string>) {
    && Migratable(db0)
    && DbOk(db0, s.db, j, series)
    && (forall r :: 0 <= r < |s.runners| ==> RunnerOk(db0, s.db, j, s.runners[r]))
    && (forall i :: 0 <= i < |LEGACY_TABLES| ==> Witnessed(db0, s, i))
  }

  /** The number of drained tables after one more statement. */
  function NextCount(db: Db, j: nat, pc: Pc): nat {
    if pc.Inserting? && pc.k < |LEGACY_TABLES| && LEGACY_TABLES[pc.k] in db.legacy && j <= pc.k then pc.k + 1 else j
  }

  /** Nothing a statement does takes away what the other runners rely on. */
  ghost predicate Onward(db: Db, db': Db) {
    && db'.legacy.Keys <= db.legacy.Keys
    && (db.identityIndex ==> db'.identityIndex)
    && (db.calendar.Some? ==> db'.calendar.Some?)
  }

  ghost predicate StepOk(db0: Db, db: Db, j: nat, pc: Pc, db': Db, pc': Pc, series: set<string>) {
    && DbOk(db0, db', NextCount(db, j, pc), series)
    && RunnerOk(db0, db', NextCount(db, j, pc), pc')
    && Progress(pc) <= Progress(pc')
    && Onward(db, db')
  }

  lemma CreatingKeeps(db0: Db, db: Db, j: nat, pc: Pc, series: set<string>)
    requires Migratable(db0) && DbOk(db0, db, j, series) && RunnerOk(db0, db, j, pc)
    requires pc.CreatingTable? || pc.CreatingIndex?
    ensures var (db', pc') := StepOf(db, pc, series); StepOk(db0, db, j, pc, db', pc', series)
  {
    DrainedDistinct(db0, j, series);
  }

  lemma CheckingKeeps(db0: Db, db: Db, j: nat, pc: Pc, series: set<string>)
    requires DbOk(db0, db, j, series) && RunnerOk(db0, db, j, pc)
    requires pc.CheckingTable? || pc.CheckingColumn?
    ensures var (db', pc') := StepOf(db, pc, series); StepOk(db0, db, j, pc, db', pc', series)
  {
  }

  lemma InsertingKeeps(db0: Db, db: Db, j: nat, pc: Pc, series: set<string>)
    requires DbOk(db0, db, j, series) && RunnerOk(db0, db, j, pc)
    requires pc.Inserting?
    ensures var (db', pc') := StepOf(db, pc, series); StepOk(db0, db, j, pc, db', pc', series)
  {
    if LEGACY_TABLES[pc.k] in db.legacy {
      if pc.k < j {
        RedrainIsIdempotent(db0, pc.k, j, series);
      } else {
        SkippingAbsentTables(db0, j, pc.k, series);
      }
    }
  }

  lemma DroppingKeeps(db0: Db, db: Db, j: nat, pc: Pc, series: set<string>)
    requires DbOk(db0, db, j, series) && RunnerOk(db0, db, j, pc)
    requires pc.Dropping?
    ensures var (db', pc') := StepOf(db, pc, series); StepOk(db0, db, j, pc, db', pc', series) && pc.k < Progress(pc')
  {
  }

  lemma StepKeepsDb(db0: Db, db: Db, j: nat, pc: Pc, series: set<string>)
    requires Migratable(db0) && DbOk(db0, db, j, series) && RunnerOk(db0, db, j, pc)
    requires !Halted(pc)
    ensures var (db', pc') := StepOf(db, pc, series); StepOk(db0, db, j, pc, db', pc', series)
    ensures pc.Dropping? ==> pc.k < Progress(StepOf(db, pc, series).1)
  {
    match pc
    case CreatingTable => CreatingKeeps(db0, db, j, pc, series);
    case CreatingIndex => CreatingKeeps(db0, db, j, pc, series);
    case CheckingTable(_) => CheckingKeeps(db0, db, j, pc, series);
    case CheckingColumn(_) => CheckingKeeps(db0, db, j, pc, series);
    case Inserting(_, _) => InsertingKeeps(db0, db, j, pc, series);
    case Dropping(_) => DroppingKeeps(db0, db, j, pc, series);
  }

  /** A runner's facts survive another runner's statement. */
  lemma OthersKeep(db0: Db, db: Db, db': Db, j: nat, j': nat, pc: Pc)
    requires RunnerOk(db0, db, j, pc) && j <= j'
    requires Onward(db, db')
    ensures RunnerOk(db0, db', j', pc)
  {
  }

  lemma StepKeepsInv(db0: Db, s: System, s': System, r: nat, j: nat, series: set<string>)
    requires Inv(db0, s, j, series) && StepBy(s, s', r, series)
    ensures Inv(db0, s', NextCount(s.db, j, s.runners[r]), series)
  {
    var pc := s.runners[r];
    var j' := NextCount(s.db, j, pc);
    StepKeepsDb(db0, s.db, j, pc, series);
    forall q | 0 <= q < |s'.runners| ensures RunnerOk(db0, s'.db, j', s'.runners[q]) {
      if q != r {
        OthersKeep(db0, s.db, s'.db, j, j', s.runners[q]);
      }
    }
    forall i | 0 <= i < |LEGACY_TABLES| ensures Witnessed(db0, s', i) {
      if LEGACY_TABLES[i] in db0.legacy && LEGACY_TABLES[i] !in s'.db.legacy {
        if LEGACY_TABLES[i] in s.db.legacy {
          assert i < Progress(s'.runners[r]);
        } else {
          assert Witnessed(db0, s, i);
          var q :| 0 <= q < |s.runners| && i < Progress(s.runners[q]);
          assert i < Progress(s'.runners[q]);
        }
      }
    }
  }

  lemma {:induction false} RunKeepsInv(run: seq<System>, series: set<string>, i: nat) returns (j: nat)
    requires IsRun(run, series) && i < |run|
    ensures Inv(run[0].db, run[i], j, series)
    ensures |run[i].runners| == |run[0].runners|
  {
    if i == 0 {
      j := 0;
    } else {
      var before := RunKeepsInv(run, series, i - 1);
      assert Step(run[i - 1], run[(i - 1) + 1], series);
      var r: nat :| StepBy(run[i - 1], run[i], r, series);
      StepKeepsInv(run[0].db, run[i - 1], run[i], r, before, series);
      j := NextCount(run[i - 1].db, before, run[i - 1].runners[r]);
    }
  }

  // -------------------------------------------------------- theorems over every run

  lemma {:induction false} SelectFinds(rows: map<nat, Release>, wide: bool, series: set<string>, id: nat)
    requires id in rows
    ensures Lookup(SelectOrderById(rows, wide, series), rows[id].key).Some?
    decreases |rows|
  {
    var least := LeastId(rows);
    if rows[least].key != rows[id].key {
      SelectFinds(rows - {least}, wide, series, id);
    }
  }

  /** In every state of every run, each legacy row is still in its own table, unchanged, or
      its identity is already in the new table. */
  lemma NoReleaseIsEverLost(run: seq<System>, series: set<string>, i: nat, k: nat, id: nat)
    requires IsRun(run, series) && i < |run| && k < |LEGACY_TABLES|
    requires LEGACY_TABLES[k] in run[0].db.legacy && id in run[0].db.legacy[LEGACY_TABLES[k]].rows
    ensures
      var row := run[0].db.legacy[LEGACY_TABLES[k]].rows[id];
      || (LEGACY_TABLES[k] in run[i].db.legacy && run[i].db.legacy[LEGACY_TABLES[k]] == run[0].db.legacy[LEGACY_TABLES[k]])
      || (run[i].db.calendar.Some? && Lookup(run[i].db.calendar.value, row.key).Some?)
  {
    var j := RunKeepsInv(run, series, i);
    var table := run[0].db.legacy[LEGACY_TABLES[k]];
    if LEGACY_TABLES[k] !in run[i].db.legacy {
      SelectFinds(table.rows, table.hasSeriesName, series, id);
      DrainedCovers(run[0].db, k, j, series, table.rows[id].key);
      assert Witnessed(run[0].db, run[i], k);
    }
  }

  /** The calendar only ever holds one entry an identity, and what is in it stays as it is. */
  lemma CalendarOnlyGrows(run: seq<System>, series: set<string>, i: nat, key: Identity)
    requires IsRun(run, series) && i + 1 < |run|
    requires run[i].db.calendar.Some?
    ensures DistinctKeys(run[i].db.calendar.value)
    ensures run[i + 1].db.calendar.Some?
    ensures Lookup(run[i].db.calendar.value, key).Some? ==>
              Lookup(run[i + 1].db.calendar.value, key) == Lookup(run[i].db.calendar.value, key)
  {
    var j := RunKeepsInv(run, series, i);
    assert Step(run[i], run[i + 1], series);
    var r: nat :| StepBy(run[i], run[i + 1], r, series);
    StepKeepsInv(run[0].db, run[i], run[i + 1], r, j, series);
    StepKeepsDb(run[0].db, run[i].db, j, run[i].runners[r], series);
    DrainedDistinct(run[0].db, j, series);
    if Lookup(run[i].db.calendar.value, key).Some? {
      DrainedKeeps(run[0].db, j, NextCount(run[i].db, j, run[i].runners[r]), series, key);
    }
  }

  /** As soon as any runner finishes, the calendar is what one runner alone would have made
      of it, no legacy table is left, and no other table has been touched. */
  lemma FinishedRunnerMeansSingleRunnerResult(run: seq<System>, series: set<string>, i: nat, r: nat)
    requires IsRun(run, series) && i < |run| && r < |run[i].runners|
    requires run[i].runners[r] == Done
    ensures run[i].db.calendar == Some(SingleRunnerResult(run[0].db, series))
    ensures run[i].db.identityIndex
    ensures run[i].db.legacy == run[0].db.legacy - (set t | t in LEGACY_TABLES)
  {
    var j := RunKeepsInv(run, series, i);
    assert RunnerOk(run[0].db, run[i].db, j, run[i].runners[r]);
    AllDrained(run[0].db, run[i].db, j, series);
  }

  /** The runner, among the first `n`, that is past the most tables. */
  lemma {:induction false} Furthest(runners: seq<Pc>, n: nat) returns (best: nat)
    requires 0 < n <= |runners|
    ensures best < n && forall r :: 0 <= r < n ==> Progress(runners[r]) <= Progress(runners[best])
  {
    if n == 1 {
      best := 0;
    } else {
      best := Furthest(runners, n - 1);
      if Progress(runners[best]) < Progress(runners[n - 1]) {
        best := n - 1;
      }
    }
  }

  /** A vanished table aborts some runners, never all of them: once every runner has halted,
      one of them has finished. */
  lemma SomeRunnerFinishes(run: seq<System>, series: set<string>, i: nat)
    requires IsRun(run, series) && i < |run| && 0 < |run[i].runners|
    requires forall r :: 0 <= r < |run[i].runners| ==> Halted(run[i].runners[r])
    ensures exists r :: 0 <= r < |run[i].runners| && run[i].runners[r] == Done
  {
    var j := RunKeepsInv(run, series, i);
    var best := Furthest(run[i].runners, |run[i].runners|);
    assert RunnerOk(run[0].db, run[i].db, j, run[i].runners[best]);
    assert run[i].runners[best].Aborted? ==> Witnessed(run[0].db, run[i], run[i].runners[best].k);
    if run[i].runners[best].Aborted? {
      assert false;
    }
  }

  // ------------------------------------------------------------------------ termination

  const MAX_STATEMENTS: nat := 2 + 4 * |LEGACY_TABLES|

  /** How many statements a runner can still execute. */
  function Remaining(pc: Pc): nat {
    var n := |LEGACY_TABLES|;
    match pc
    case CreatingTable => MAX_STATEMENTS
    case CreatingIndex => MAX_STATEMENTS - 1
    case CheckingTable(k) => if k < n then 4 * (n - k) else 0
    case CheckingColumn(k) => if k < n then 4 * (n - k) - 1 else 0
    case Inserting(k, _) => if k < n then 4 * (n - k) - 2 else 0
    case Dropping(k) => if k < n then 4 * (n - k) - 3 else 0
    case Done => 0
    case Aborted(_) => 0
  }

  function TotalRemaining(runners: seq<Pc>): nat {
    if runners == [] then 0 else Remaining(runners[0]) + TotalRemaining(runners[1..])
  }

  lemma {:induction false} TotalRemainingUpdate(runners: seq<Pc>, r: nat, pc: Pc)
    requires r < |runners|
    ensures TotalRemaining(runners[r := pc]) == TotalRemaining(runners) - Remaining(runners[r]) + Remaining(pc)
  {
    if r == 0 {
      assert runners[r := pc][1..] == runners[1..];
    } else {
      assert runners[r := pc][1..] == runners[1..][r - 1 := pc];
      TotalRemainingUpdate(runners[1..], r - 1, pc);
    }
  }

  lemma {:induction false} TotalRemainingAtStart(runners: seq<Pc>)
    requires forall r :: 0 <= r < |runners| ==> runners[r] == CreatingTable
    ensures TotalRemaining(runners) == MAX_STATEMENTS * |runners|
  {
    if runners != [] {
      TotalRemainingAtStart(runners[1..]);
    }
  }

  lemma {:induction false} RunUsesUpStatements(run: seq<System>, series: set<string>, i: nat)
    requires IsRun(run, series) && i < |run|
    ensures TotalRemaining(run[i].runners) + i <= MAX_STATEMENTS * |run[0].runners|
  {
    if i == 0 {
      TotalRemainingAtStart(run[0].runners);
    } else {
      RunUsesUpStatements(run, series, i - 1);
      assert Step(run[i - 1], run[(i - 1) + 1], series);
      StepUsesUpOne(run[i - 1], run[i], series);
    }
  }

  lemma StepUsesUpOne(s: System, s': System, series: set<string>)
    requires Step(s, s', series)
    ensures TotalRemaining(s'.runners) + 1 <= TotalRemaining(s.runners) && |s'.runners| == |s.runners|
  {
    var r: nat :| StepBy(s, s', r, series);
    var pc := StepOf(s.db, s.runners[r], series).1;
    FewerRemain(s.db, s.runners[r], series);
    TotalRemainingUpdate(s.runners, r, pc);
    assert s'.runners == s.runners[r := pc];
  }

  lemma FewerRemain(db: Db, pc: Pc, series: set<string>)
    requires !Halted(pc) && InRange(pc)
    ensures Remaining(StepOf(db, pc, series).1) < Remaining(pc)
  {
  }

  /** Whatever the interleaving, the runners stop: a run has at most ten statements a runner. */
  lemma EveryRunEnds(run: seq<System>, series: set<string>)
    requires IsRun(run, series)
    ensures |run| <= 1 + 10 * |run[0].runners|
  {
    RunUsesUpStatements(run, series, |run| - 1);
  }

  // ----------------------------------------------------------- what the result contains

  /** The row of a table that `ORDER BY id` puts first among those with this identity. */
  ghost predicate IsLowest(rows: map<nat, Release>, id: nat, key: Identity) {
    && id in rows && rows[id].key == key
    && forall other :: other in rows && rows[other].key == key ==> id <= other
  }

  lemma {:induction false} SelectTakesLowestId(rows: map<nat, Release>, wide: bool, series: set<string>, key: Identity)
    ensures Lookup(SelectOrderById(rows, wide, series), key).None? <==> forall id :: id in rows ==> rows[id].key != key
    ensures forall id :: IsLowest(rows, id, key) ==>
              FoundCarriedOver(Lookup(SelectOrderById(rows, wide, series), key), rows[id], wide, series)
    decreases |rows|
  {
    if rows != map[] {
      var least := LeastId(rows);
      var rest := rows - {least};
      SelectTakesLowestId(rest, wide, series, key);
      if rows[least].key != key {
        assert forall id :: id in rows && rows[id].key == key ==> id in rest && rest[id] == rows[id];
        assert forall id :: IsLowest(rows, id, key) ==> IsLowest(rest, id, key);
      }
    }
  }

  /** Entry by entry, the result: what the calendar already had wins, then `expected_issues`,
      then `expected_issues_new`; within a table the lowest id wins; a dangling series id
      becomes NULL; and nothing else is in it. */
  lemma SingleRunnerResultEntries(db: Db, series: set<string>, key: Identity)
    ensures
      var found := Lookup(SingleRunnerResult(db, series), key);
      var first := LegacyRows(db, 0, series);
      var second := LegacyRows(db, 1, series);
      && (Lookup(Base(db), key).Some? ==> found == Lookup(Base(db), key))
      && (Lookup(Base(db), key).None? && Lookup(first, key).Some? ==> found == Lookup(first, key))
      && (Lookup(Base(db), key).None? && Lookup(first, key).None? ==> found == Lookup(second, key))
    ensures forall k: nat :: k < |LEGACY_TABLES| && LEGACY_TABLES[k] in db.legacy ==>
      var table := db.legacy[LEGACY_TABLES[k]];
      && (Lookup(LegacyRows(db, k, series), key).None? <==> forall id :: id in table.rows ==> table.rows[id].key != key)
      && (forall id :: IsLowest(table.rows, id, key) ==>
           FoundCarriedOver(Lookup(LegacyRows(db, k, series), key), table.rows[id], table.hasSeriesName, series))
    ensures LEGACY_TABLES[0] == "expected_issues" && LEGACY_TABLES[1] == "expected_issues_new" && |LEGACY_TABLES| == 2
    ensures Migratable(db) ==> DistinctKeys(SingleRunnerResult(db, series))
  {
    InsertRowsLookup(DrainedThrough(db, 0, series), LegacyRows(db, 0, series), key);
    InsertRowsLookup(DrainedThrough(db, 1, series), LegacyRows(db, 1, series), key);
    assert SingleRunnerResult(db, series) == InsertRows(DrainedThrough(db, 1, series), true, LegacyRows(db, 1, series));
    assert DrainedThrough(db, 1, series) == InsertRows(DrainedThrough(db, 0, series), true, LegacyRows(db, 0, series));
    forall k: nat | k < |LEGACY_TABLES| && LEGACY_TABLES[k] in db.legacy
      ensures
        var table := db.legacy[LEGACY_TABLES[k]];
        && (Lookup(LegacyRows(db, k, series), key).None? <==> forall id :: id in table.rows ==> table.rows[id].key != key)
        && (forall id :: IsLowest(table.rows, id, key) ==>
             FoundCarriedOver(Lookup(LegacyRows(db, k, series), key), table.rows[id], table.hasSeriesName, series))
    {
      SelectTakesLowestId(db.legacy[LEGACY_TABLES[k]].rows, db.legacy[LEGACY_TABLES[k]].hasSeriesName, series, key);
    }
    if Migratable(db) {
      DrainedDistinct(db, |LEGACY_TABLES|, series);
    }
  }

  /** Draining the next table takes the count past it. */
  lemma DrainAdvances(db0: Db, db: Db, k: nat, j: nat, series: set<string>) returns (next: nat)
    requires DbOk(db0, db, j, series) && db.calendar.Some? && k < |LEGACY_TABLES|
    requires forall i :: 0 <= i < k ==> LEGACY_TABLES[i] !in db.legacy
    ensures DbOk(db0,
      db.(calendar := Some(InsertRows(db.calendar.value, true, LegacyRows(db, k, series))),
          legacy := db.legacy - {LEGACY_TABLES[k]}), next, series)
  {
    next := j;
    if LEGACY_TABLES[k] in db.legacy {
      if k < j {
        RedrainIsIdempotent(db0, k, j, series);
      } else {
        SkippingAbsentTables(db0, j, k, series);
        next := k + 1;
      }
    }
  }

  lemma AllDrained(db0: Db, db: Db, j: nat, series: set<string>)
    requires DbOk(db0, db, j, series) && db.calendar.Some?
    requires forall i :: 0 <= i < |LEGACY_TABLES| ==> LEGACY_TABLES[i] !in db.legacy
    ensures db.calendar == Some(SingleRunnerResult(db0, series))
    ensures db.legacy == db0.legacy - (set t | t in LEGACY_TABLES)
  {
    assert forall t :: t in LEGACY_TABLES ==> exists k :: 0 <= k < |LEGACY_TABLES| && LEGACY_TABLES[k] == t;
    SkippingAbsentTables(db0, j, |LEGACY_TABLES|, series);
  }

  // ---------------------------------------------------------------------- the way back

  /** `down` on a migrated database: the bound releases go back into a fresh, narrow
      `expected_issues`, and the calendar is dropped. Row ids follow the entries' order. */
  function Down(db: Db): Db
    requires db.calendar.Some?
  {
    var entries := db.calendar.value;
    var bound := map id: nat | id < |entries| && entries[id].seriesId.Some? ::
      entries[id].(seriesName := None, seriesExternalId := None);
    Db(None, false, db.legacy[LEGACY_TABLES[0] := LegacyTable(false, bound)])
  }

  /** Rolling back and migrating again keeps exactly the bound releases, without the series
      labels; a release whose series has gone meanwhile comes back unbound. */
  lemma DownThenUpKeepsBoundReleases(db: Db, series: set<string>, key: Identity)
    requires db.calendar.Some? && DistinctKeys(db.calendar.value)
    requires forall k :: 0 <= k < |LEGACY_TABLES| ==> LEGACY_TABLES[k] !in db.legacy
    ensures Migratable(Down(db))
    ensures
      var before := Lookup(db.calendar.value, key);
      var again := Lookup(SingleRunnerResult(Down(db), series), key);
      if before.Some? && before.value.seriesId.Some? then FoundCarriedOver(again, before.value, false, series)
      else again == None
  {
    var entries := db.calendar.value;
    var rows := Down(db).legacy[LEGACY_TABLES[0]].rows;
    SingleRunnerResultEntries(Down(db), series, key);
    assert LEGACY_TABLES[1] !in Down(db).legacy;
    LookupFinds(entries, key);
    if before: nat :| before < |entries| && entries[before].key == key {
      LookupAt(entries, before);
      if entries[before].seriesId.Some? {
        assert IsLowest(rows, before, key);
      }
    }
  }

  lemma {:induction false} LookupAt(entries: seq<Release>, i: nat)
    requires DistinctKeys(entries) && i < |entries|
    ensures Lookup(entries, entries[i].key) == Some(entries[i])
  {
    if i > 0 {
      LookupAt(entries[1..], i - 1);
    }
  }

  // ------------------------------------------------------- one runner, statement by statement

  /** The live database as one runner of `up` sees it when no other is inside the migration. */
  class Database {
    var calendar: Option<seq<Release>>
    var identityIndex: bool
    var legacy: map<string, LegacyTable>
    const series: set<string>

    constructor (db: Db, series: set<string>)
      ensures Value() == db && this.series == series
    {
      calendar, identityIndex, legacy := db.calendar, db.identityIndex, db.legacy;
      this.series := series;
    }

    function Value(): Db
      reads this
    {
      Db(calendar, identityIndex, legacy)
    }

    /** `INSERT OR IGNORE INTO ... SELECT ... FROM table ORDER BY id`, row by row. */
    method ExecuteInsertSelect(table: string, wide: bool) returns (ok: bool)
      modifies this
      ensures ok <==> InsertSelect(old(Value()), table, wide, series).Some?
      ensures Value() == if ok then InsertSelect(old(Value()), table, wide, series).value else old(Value())
    {
      if calendar.None? || table !in legacy || (wide && !legacy[table].hasSeriesName) {
        return false;
      }
      var remaining := legacy[table].rows;
      var entries := calendar.value;
      ghost var target := InsertRows(entries, identityIndex, SelectOrderById(remaining, wide, series));
      while remaining != map[]
        invariant InsertRows(entries, identityIndex, SelectOrderById(remaining, wide, series)) == target
        decreases |remaining|
      {
        var id := LeastId(remaining);
        var row := Projected(remaining[id], wide, series);
        assert SelectOrderById(remaining, wide, series)[1..] == SelectOrderById(remaining - {id}, wide, series);
        entries := InsertRow(entries, identityIndex, row);
        remaining := remaining - {id};
      }
      calendar := Some(entries);
      ok := true;
    }

    /** `drain_legacy_table`: a no-op on an absent table, else insert and drop. */
    method DrainLegacyTable(k: nat) returns (ok: bool)
      requires k < |LEGACY_TABLES| && calendar.Some? && identityIndex
      modifies this
      ensures ok && identityIndex
      ensures calendar == Some(InsertRows(old(calendar.value), true, LegacyRows(old(Value()), k, series)))
      ensures legacy == old(legacy) - {LEGACY_TABLES[k]}
    {
      var table := LEGACY_TABLES[k];
      if table !in legacy {
        return true;
      }
      var wide := HasSeriesName(Value(), table);
      ok := ExecuteInsertSelect(table, wide);
      if !ok {
        return;
      }
      legacy := legacy - {table};
    }

    /**
     `up` run alone, on a database in whatever state other runners left it when they crashed
     or aborted (`run` is what they did): it succeeds, and completes the migration that the
     first of them began.
    */
    method Up(ghost run: seq<System>, ghost i: nat) returns (ok: bool)
      requires IsRun(run, series) && i < |run| && run[i].db == Value()
      modifies this
      ensures ok
      ensures calendar == Some(SingleRunnerResult(run[0].db, series))
      ensures identityIndex
      ensures legacy == run[0].db.legacy - (set t | t in LEGACY_TABLES)
    {
      ghost var db0 := run[0].db;
      ghost var j := RunKeepsInv(run, series, i);
      if calendar.None? {
        calendar := Some([]);
      }
      DrainedDistinct(db0, j, series);
      if !identityIndex {
        identityIndex := true;
      }
      ghost var drained: nat := j;
      for k := 0 to |LEGACY_TABLES|
        invariant identityIndex && calendar.Some?
        invariant DbOk(db0, Value(), drained, series)
        invariant forall i :: 0 <= i < k ==> LEGACY_TABLES[i] !in legacy
      {
        drained := DrainAdvances(db0, Value(), k, drained, series);
        ok := DrainLegacyTable(k);
      }
      AllDrained(db0, Value(), drained, series);
      ok := true;
    }
  }
}
