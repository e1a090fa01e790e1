/**
 The schema inspection: compares what the database holds with a required snapshot and collects the
 incompatible differences. Identifiers are taken as already normalised, and what the source extracts
 from SQL text (constraint signatures, unique constraints, index columns) is part of the input.
 */
module SchemaDrift {
  import opened Prelude

  // ----- what the database holds

  datatype Column = Column(name: string, typ: string, notNull: bool, defaulted: bool, pk: nat)
  datatype IndexColumn = IndexColumn(name: string, descending: bool)
  datatype IndexRow = IndexRow(name: string, unique: bool, partiality: bool, origin: string)
  datatype UniqueDefinition = UniqueDefinition(columns: seq<string>, policy: string)
  datatype TableObject = TableObject(restrictions: seq<string>, columns: seq<Column>,
                                     indexList: seq<IndexRow>, uniques: seq<UniqueDefinition>)
  datatype IndexObject = IndexObject(table: string)
  datatype TriggerObject = TriggerObject(table: string, sql: string)
  datatype Schema = Schema(tables: map<string, TableObject>,
                           indexes: map<string, IndexObject>,
                           triggers: map<string, TriggerObject>,
                           indexColumns: map<string, seq<IndexColumn>>)

  // ----- what a snapshot requires

  datatype RequiredColumn = RequiredColumn(name: string, typ: string, notNull: bool, primaryKey: bool)
  datatype RequiredTable = RequiredTable(name: string, restrictions: seq<string>, columns: seq<RequiredColumn>,
                                         primaryKey: seq<string>, uniques: seq<UniqueDefinition>)
  datatype RequiredIndex = RequiredIndex(name: string, table: string, columns: seq<IndexColumn>)
  datatype RequiredTrigger = RequiredTrigger(name: string, table: string, sql: string)
  datatype Snapshot = Snapshot(tables: seq<RequiredTable>, indexes: seq<RequiredIndex>, triggers: seq<RequiredTrigger>)
  datatype Options = Options(secondary: bool, extras: bool, allowMissingSecondary: bool)

  datatype Mismatch = TypeMismatch | NotNullMismatch | PrimaryKeyMismatch
  datatype Drift = TableMissing(table: string)
                 | RestrictiveConstraints(table: string)
                 | PrimaryKeyDefinition(table: string)
                 | ColumnMissing(table: string, column: string)
                 | ColumnMismatch(table: string, column: string, kind: Mismatch)
                 | RequiredExtra(table: string, column: string)
                 | UniqueMissing(table: string, columns: seq<string>)
                 | ConflictPolicy(table: string, columns: seq<string>)
                 | IndexMissing(index: string)
                 | IndexWrongTable(index: string)
                 | IndexDefinition(index: string)
                 | UnexpectedUnique(index: string)
                 | TriggerMissing(trigger: string)
                 | TriggerWrongTable(trigger: string)
                 | TriggerDefinition(trigger: string)
                 | UnexpectedTrigger(trigger: string)

  // ----- lookups

  function FindColumn(columns: seq<Column>, name: string): (found: Option<Column>)
    ensures found.Some? ==> found.value in columns && found.value.name == name
    ensures found.None? ==> forall c :: c in columns ==> c.name != name
  {
    if columns == [] then None
    else if columns[0].name == name then Some(columns[0])
    else FindColumn(columns[1..], name)
  }

  function FindIndex(rows: seq<IndexRow>, name: string): (found: Option<IndexRow>)
    ensures found.Some? ==> found.value in rows && found.value.name == name
    ensures found.None? ==> forall r :: r in rows ==> r.name != name
  {
    if rows == [] then None
    else if rows[0].name == name then Some(rows[0])
    else FindIndex(rows[1..], name)
  }

  function ColumnsOfIndex(s: Schema, name: string): seq<IndexColumn> {
    if name in s.indexColumns then s.indexColumns[name] else []
  }

  function KeyColumns(columns: seq<Column>): seq<Column> {
    if columns == [] then []
    else if columns[0].pk > 0 then [columns[0]] + KeyColumns(columns[1..])
    else KeyColumns(columns[1..])
  }

  function InsertByPk(column: Column, sorted: seq<Column>): seq<Column> {
    if sorted == [] || column.pk <= sorted[0].pk then [column] + sorted
    else [sorted[0]] + InsertByPk(column, sorted[1..])
  }

  function SortByPk(columns: seq<Column>): seq<Column> {
    if columns == [] then [] else InsertByPk(columns[0], SortByPk(columns[1..]))
  }

  function Names(columns: seq<Column>): seq<string> {
    seq(|columns|, i requires 0 <= i < |columns| => columns[i].name)
  }

  function PrimaryKey(columns: seq<Column>): seq<string> {
    Names(SortByPk(KeyColumns(columns)))
  }

  function Ascending(columns: seq<string>): seq<IndexColumn> {
    seq(|columns|, i requires 0 <= i < |columns| => IndexColumn(columns[i], false))
  }

  /** The first full unique index over exactly these columns. */
  function UniqueIndexOver(s: Schema, rows: seq<IndexRow>, columns: seq<string>): Option<IndexRow> {
    if rows == [] then None
    else if rows[0].unique && !rows[0].partiality && ColumnsOfIndex(s, rows[0].name) == Ascending(columns) then Some(rows[0])
    else UniqueIndexOver(s, rows[1..], columns)
  }

  predicate IgnoredObject(name: string) {
    "sqlite_" <= name || "_cf_" <= name || name == "d1_migrations"
  }

  predicate RequiresTable(snapshot: Snapshot, name: string) {
    exists i :: 0 <= i < |snapshot.tables| && snapshot.tables[i].name == name
  }

  predicate RequiresIndex(snapshot: Snapshot, name: string) {
    exists i :: 0 <= i < |snapshot.indexes| && snapshot.indexes[i].name == name
  }

  predicate RequiresTrigger(snapshot: Snapshot, name: string) {
    exists i :: 0 <= i < |snapshot.triggers| && snapshot.triggers[i].name == name
  }

  predicate RequiresColumn(t: RequiredTable, name: string) {
    exists i :: 0 <= i < |t.columns| && t.columns[i].name == name
  }

  /** Index lists are read for the required tables that exist. */
  function IndexListOf(s: Schema, snapshot: Snapshot, table: string): seq<IndexRow> {
    if RequiresTable(snapshot, table) && table in s.tables then s.tables[table].indexList else []
  }

  // ----- single checks

  function Flag(bad: bool, drift: Drift): Option<Drift> {
    if bad then Some(drift) else None
  }

  function ColumnCheck(a: TableObject, t: RequiredTable, required: RequiredColumn): Option<Drift> {
    match FindColumn(a.columns, required.name)
    case None => Some(ColumnMissing(t.name, required.name))
    case Some(actual) =>
      if actual.typ != required.typ then Some(ColumnMismatch(t.name, required.name, TypeMismatch))
      else if actual.notNull != required.notNull then Some(ColumnMismatch(t.name, required.name, NotNullMismatch))
      else if (actual.pk > 0) != required.primaryKey then Some(ColumnMismatch(t.name, required.name, PrimaryKeyMismatch))
      else None
  }

  function ExtraColumnCheck(t: RequiredTable, actual: Column): Option<Drift> {
    Flag(!RequiresColumn(t, actual.name) && actual.notNull && !actual.defaulted && actual.pk == 0,
         RequiredExtra(t.name, actual.name))
  }

  function UniqueCheck(s: Schema, a: TableObject, t: RequiredTable, required: UniqueDefinition): Option<Drift> {
    match UniqueIndexOver(s, a.indexList, required.columns)
    case None => Some(UniqueMissing(t.name, required.columns))
    case Some(candidate) =>
      var conflicting := exists i :: 0 <= i < |a.uniques| && a.uniques[i].columns == required.columns && a.uniques[i].policy != required.policy;
      var matched := exists i :: 0 <= i < |a.uniques| && a.uniques[i].columns == required.columns;
      Flag(conflicting || (!matched && candidate.origin != "c"), ConflictPolicy(t.name, required.columns))
  }

  function IndexCheck(s: Schema, snapshot: Snapshot, o: Options, required: RequiredIndex): Option<Drift> {
    if required.name !in s.indexes then Flag(!o.allowMissingSecondary, IndexMissing(required.name))
    else if s.indexes[required.name].table != required.table then Some(IndexWrongTable(required.name))
    else
      var listed := FindIndex(IndexListOf(s, snapshot, required.table), required.name);
      Flag(listed.None? || listed.value.unique || listed.value.partiality || ColumnsOfIndex(s, required.name) != required.columns,
           IndexDefinition(required.name))
  }

  function TriggerCheck(s: Schema, o: Options, required: RequiredTrigger): Option<Drift> {
    if required.name !in s.triggers then Flag(!o.allowMissingSecondary, TriggerMissing(required.name))
    else if s.triggers[required.name].table != required.table then Some(TriggerWrongTable(required.name))
    else Flag(s.triggers[required.name].sql != required.sql, TriggerDefinition(required.name))
  }

  predicate BadExtraIndex(s: Schema, snapshot: Snapshot, name: string)
    requires name in s.indexes
  {
    && !RequiresIndex(snapshot, name) && !IgnoredObject(name)
    && RequiresTable(snapshot, s.indexes[name].table)
    && var listed := FindIndex(IndexListOf(s, snapshot, s.indexes[name].table), name);
       listed.Some? && listed.value.unique
  }

  predicate BadExtraTrigger(s: Schema, snapshot: Snapshot, name: string)
    requires name in s.triggers
  {
    !RequiresTrigger(snapshot, name) && !IgnoredObject(name) && RequiresTable(snapshot, s.triggers[name].table)
  }

  // ----- the incompatible set

  function Found(checks: seq<Option<Drift>>): set<Drift> {
    set i | 0 <= i < |checks| && checks[i].Some? :: checks[i].value
  }

  function ShapeChecks(a: TableObject, t: RequiredTable): seq<Option<Drift>> {
    [Flag(a.restrictions != t.restrictions, RestrictiveConstraints(t.name)),
     Flag(PrimaryKey(a.columns) != t.primaryKey, PrimaryKeyDefinition(t.name))]
  }

  function ColumnChecks(a: TableObject, t: RequiredTable): seq<Option<Drift>> {
    seq(|t.columns|, i requires 0 <= i < |t.columns| => ColumnCheck(a, t, t.columns[i]))
  }

  function ExtraColumnChecks(a: TableObject, t: RequiredTable): seq<Option<Drift>> {
    seq(|a.columns|, i requires 0 <= i < |a.columns| => ExtraColumnCheck(t, a.columns[i]))
  }

  function UniqueChecks(s: Schema, a: TableObject, t: RequiredTable): seq<Option<Drift>> {
    seq(|t.uniques|, i requires 0 <= i < |t.uniques| => UniqueCheck(s, a, t, t.uniques[i]))
  }

  function TableDrift(s: Schema, t: RequiredTable): set<Drift> {
    if t.name !in s.tables then {TableMissing(t.name)}
    else
      var a := s.tables[t.name];
      Found(ShapeChecks(a, t)) + Found(ColumnChecks(a, t)) + Found(ExtraColumnChecks(a, t)) + Found(UniqueChecks(s, a, t))
  }

  function TablesDrift(s: Schema, tables: seq<RequiredTable>): set<Drift> {
    if tables == [] then {} else TablesDrift(s, tables[..|tables| - 1]) + TableDrift(s, tables[|tables| - 1])
  }

  function IndexChecks(s: Schema, snapshot: Snapshot, o: Options): seq<Option<Drift>> {
    seq(|snapshot.indexes|, i requires 0 <= i < |snapshot.indexes| => IndexCheck(s, snapshot, o, snapshot.indexes[i]))
  }

  function TriggerChecks(s: Schema, snapshot: Snapshot, o: Options): seq<Option<Drift>> {
    seq(|snapshot.triggers|, i requires 0 <= i < |snapshot.triggers| => TriggerCheck(s, o, snapshot.triggers[i]))
  }

  function ExtraIndexDrift(s: Schema, snapshot: Snapshot): set<Drift> {
    set name | name in s.indexes && BadExtraIndex(s, snapshot, name) :: UnexpectedUnique(name)
  }

  function ExtraTriggerDrift(s: Schema, snapshot: Snapshot): set<Drift> {
    set name | name in s.triggers && BadExtraTrigger(s, snapshot, name) :: UnexpectedTrigger(name)
  }

  function Incompatible(s: Schema, snapshot: Snapshot, o: Options): set<Drift> {
    TablesDrift(s, snapshot.tables)
    + (if o.secondary then Found(IndexChecks(s, snapshot, o)) + Found(TriggerChecks(s, snapshot, o)) else {})
    + (if o.extras then ExtraIndexDrift(s, snapshot) + ExtraTriggerDrift(s, snapshot) else {})
  }

  // ----- the inspection as the loops it is

  lemma FoundNext(checks: seq<Option<Drift>>, i: nat)
    requires i < |checks|
    ensures Found(checks[..i + 1]) == Found(checks[..i]) + if checks[i].Some? then {checks[i].value} else {}
  {
    assert checks[..i + 1] == checks[..i] + [checks[i]];
    assert forall k :: 0 <= k < i ==> checks[..i + 1][k] == checks[..i][k];
    if checks[i].Some? {
      assert checks[..i + 1][i] == checks[i];
    }
  }

  /** Collects the results of a list of checks. */
  method Collect(checks: seq<Option<Drift>>, soFar: set<Drift>) returns (incompatible: set<Drift>)
    ensures incompatible == soFar + Found(checks)
  {
    incompatible := soFar;
    var i := 0;
    while i < |checks|
      invariant 0 <= i <= |checks|
      invariant incompatible == soFar + Found(checks[..i])
    {
      FoundNext(checks, i);
      if checks[i].Some? {
        incompatible := incompatible + {checks[i].value};
      }
      i := i + 1;
    }
    assert checks[..|checks|] == checks;
  }

  method InspectTable(s: Schema, t: RequiredTable, soFar: set<Drift>) returns (incompatible: set<Drift>)
    ensures incompatible == soFar + TableDrift(s, t)
  {
    if t.name !in s.tables {
      return soFar + {TableMissing(t.name)};
    }
    var a := s.tables[t.name];
    incompatible := Collect(ShapeChecks(a, t), soFar);
    incompatible := Collect(ColumnChecks(a, t), incompatible);
    incompatible := Collect(ExtraColumnChecks(a, t), incompatible);
    incompatible := Collect(UniqueChecks(s, a, t), incompatible);
  }

  method InspectExtras(s: Schema, snapshot: Snapshot, soFar: set<Drift>) returns (incompatible: set<Drift>)
    ensures incompatible == soFar + ExtraIndexDrift(s, snapshot) + ExtraTriggerDrift(s, snapshot)
  {
    incompatible := soFar;
    var names := s.indexes.Keys;
    while names != {}
      invariant names <= s.indexes.Keys
      invariant incompatible == soFar + set n | n in s.indexes && n !in names && BadExtraIndex(s, snapshot, n) :: UnexpectedUnique(n)
      decreases names
    {
      var name :| name in names;
      if BadExtraIndex(s, snapshot, name) {
        incompatible := incompatible + {UnexpectedUnique(name)};
      }
      names := names - {name};
    }
    ghost var withIndexes := incompatible;
    names := s.triggers.Keys;
    while names != {}
      invariant names <= s.triggers.Keys
      invariant incompatible == withIndexes + set n | n in s.triggers && n !in names && BadExtraTrigger(s, snapshot, n) :: UnexpectedTrigger(n)
      decreases names
    {
      var name :| name in names;
      if BadExtraTrigger(s, snapshot, name) {
        incompatible := incompatible + {UnexpectedTrigger(name)};
      }
      names := names - {name};
    }
  }

  method InspectSnapshot(s: Schema, snapshot: Snapshot, o: Options) returns (incompatible: set<Drift>)
    ensures incompatible == Incompatible(s, snapshot, o)
  {
    incompatible := {};
    var i := 0;
    while i < |snapshot.tables|
      invariant 0 <= i <= |snapshot.tables|
      invariant incompatible == TablesDrift(s, snapshot.tables[..i])
    {
      incompatible := InspectTable(s, snapshot.tables[i], incompatible);
      assert snapshot.tables[..i + 1][..i] == snapshot.tables[..i];
      i := i + 1;
    }
    assert snapshot.tables[..|snapshot.tables|] == snapshot.tables;
    if o.secondary {
      incompatible := Collect(IndexChecks(s, snapshot, o), incompatible);
      incompatible := Collect(TriggerChecks(s, snapshot, o), incompatible);
    }
    if o.extras {
      incompatible := InspectExtras(s, snapshot, incompatible);
    }
  }

  // ----- additions that stay compatible

  predicate BenignColumn(c: Column) {
    c.pk == 0 && (!c.notNull || c.defaulted)
  }

  /** A required table gains columns at the end and non-unique indexes at the head of its index list, nothing else. */
  predicate BenignTable(before: TableObject, after: TableObject, t: RequiredTable, newIndexes: set<string>) {
    && after.restrictions == before.restrictions && after.uniques == before.uniques
    && before.columns <= after.columns
    && (forall i :: |before.columns| <= i < |after.columns| ==>
          BenignColumn(after.columns[i]) && !RequiresColumn(t, after.columns[i].name))
    && |before.indexList| <= |after.indexList|
    && var added := |after.indexList| - |before.indexList|;
       && after.indexList[added..] == before.indexList
       && (forall i :: 0 <= i < added ==> !after.indexList[i].unique && after.indexList[i].name in newIndexes)
       && (forall i :: 0 <= i < |before.indexList| ==> before.indexList[i].name !in newIndexes)
  }

  /**
   Any number of additions at once: tables that are not required, nullable or defaulted non-key
   columns without constraints, non-unique indexes, and triggers on tables that are not required.
   Tables that are not required may also change freely.
   */
  ghost predicate BenignGrowth(s: Schema, s': Schema, snapshot: Snapshot) {
    var newIndexes := s'.indexes.Keys - s.indexes.Keys;
    && (forall i :: 0 <= i < |snapshot.tables| ==>
          var t := snapshot.tables[i];
          && (t.name in s.tables <==> t.name in s'.tables)
          && (t.name in s.tables ==> BenignTable(s.tables[t.name], s'.tables[t.name], t, newIndexes)))
    && s.indexes.Keys <= s'.indexes.Keys && s.triggers.Keys <= s'.triggers.Keys
    && (forall n :: n in s.indexes ==> s'.indexes[n] == s.indexes[n])
    && (forall n :: n in s.triggers ==> s'.triggers[n] == s.triggers[n])
    && (forall n :: n !in newIndexes ==> ColumnsOfIndex(s', n) == ColumnsOfIndex(s, n))
    && (forall n :: n in newIndexes ==> !RequiresIndex(snapshot, n))
    && (forall n :: n in newIndexes && RequiresTable(snapshot, s'.indexes[n].table) && s'.indexes[n].table in s'.tables ==>
          exists i :: 0 <= i < |s'.tables[s'.indexes[n].table].indexList| && s'.tables[s'.indexes[n].table].indexList[i].name == n)
    && (forall n :: n in s'.triggers && n !in s.triggers ==>
          !RequiresTrigger(snapshot, n) && !RequiresTable(snapshot, s'.triggers[n].table))
  }

  lemma {:induction false} FindColumnAppended(columns: seq<Column>, extra: seq<Column>, name: string)
    requires forall c :: c in extra ==> c.name != name
    ensures FindColumn(columns + extra, name) == FindColumn(columns, name)
  {
    if columns == [] {
      assert columns + extra == extra;
    } else {
      FindColumnAppended(columns[1..], extra, name);
      assert (columns + extra)[1..] == columns[1..] + extra;
    }
  }

  lemma {:induction false} KeyColumnsAppended(columns: seq<Column>, extra: seq<Column>)
    requires forall c :: c in extra ==> c.pk == 0
    ensures KeyColumns(columns + extra) == KeyColumns(columns)
  {
    if columns == [] {
      assert columns + extra == extra;
      if extra != [] {
        KeyColumnsAppended([], extra[1..]);
        assert [] + extra[1..] == extra[1..];
      }
    } else {
      KeyColumnsAppended(columns[1..], extra);
      assert (columns + extra)[1..] == columns[1..] + extra;
    }
  }

  lemma {:induction false} UniqueIndexPrepended(s: Schema, s': Schema, added: seq<IndexRow>, rows: seq<IndexRow>, columns: seq<string>)
    requires forall i :: 0 <= i < |added| ==> !added[i].unique
    requires forall i :: 0 <= i < |rows| ==> ColumnsOfIndex(s', rows[i].name) == ColumnsOfIndex(s, rows[i].name)
    ensures UniqueIndexOver(s', added + rows, columns) == UniqueIndexOver(s, rows, columns)
  {
    if added != [] {
      UniqueIndexPrepended(s, s', added[1..], rows, columns);
      assert (added + rows)[1..] == added[1..] + rows;
    } else {
      assert added + rows == rows;
      if rows != [] {
        UniqueIndexPrepended(s, s', [], rows[1..], columns);
        assert [] + rows[1..] == rows[1..];
      }
    }
  }

  lemma {:induction false} FindIndexPrepended(added: seq<IndexRow>, rows: seq<IndexRow>, name: string)
    requires forall i :: 0 <= i < |added| ==> added[i].name != name
    ensures FindIndex(added + rows, name) == FindIndex(rows, name)
  {
    if added != [] {
      FindIndexPrepended(added[1..], rows, name);
      assert (added + rows)[1..] == added[1..] + rows;
    } else {
      assert added + rows == rows;
    }
  }

  /** Checks that report nothing do not add to what is found. */
  lemma FoundPadded(checks: seq<Option<Drift>>, padded: seq<Option<Drift>>)
    requires checks <= padded
    requires forall i :: |checks| <= i < |padded| ==> padded[i].None?
    ensures Found(padded) == Found(checks)
  {
    forall d | d in Found(padded) ensures d in Found(checks) {
      var i :| 0 <= i < |padded| && padded[i].Some? && padded[i].value == d;
      assert checks[i] == padded[i];
    }
    forall d | d in Found(checks) ensures d in Found(padded) {
      var i :| 0 <= i < |checks| && checks[i].Some? && checks[i].value == d;
      assert checks[i] == padded[i];
    }
  }

  lemma ColumnChecksKept(a: TableObject, a': TableObject, t: RequiredTable, newNames: set<string>)
    requires BenignTable(a, a', t, newNames)
    ensures ShapeChecks(a', t) == ShapeChecks(a, t)
    ensures ColumnChecks(a', t) == ColumnChecks(a, t)
    ensures Found(ExtraColumnChecks(a', t)) == Found(ExtraColumnChecks(a, t))
  {
    var extra := a'.columns[|a.columns|..];
    assert a'.columns == a.columns + extra;
    forall c | c in extra ensures BenignColumn(c) && !RequiresColumn(t, c.name) {
      var i :| 0 <= i < |extra| && extra[i] == c;
      assert a'.columns[|a.columns| + i] == c;
    }
    KeyColumnsAppended(a.columns, extra);
    forall i | 0 <= i < |t.columns| ensures ColumnCheck(a', t, t.columns[i]) == ColumnCheck(a, t, t.columns[i]) {
      FindColumnAppended(a.columns, extra, t.columns[i].name);
    }
    FoundPadded(ExtraColumnChecks(a, t), ExtraColumnChecks(a', t));
  }

  lemma UniqueChecksKept(s: Schema, s': Schema, a: TableObject, a': TableObject, t: RequiredTable, newNames: set<string>)
    requires BenignTable(a, a', t, newNames)
    requires forall n :: n !in newNames ==> ColumnsOfIndex(s', n) == ColumnsOfIndex(s, n)
    ensures UniqueChecks(s', a', t) == UniqueChecks(s, a, t)
  {
    var added := a'.indexList[..|a'.indexList| - |a.indexList|];
    assert a'.indexList == added + a.indexList;
    forall i | 0 <= i < |t.uniques| ensures UniqueCheck(s', a', t, t.uniques[i]) == UniqueCheck(s, a, t, t.uniques[i]) {
      UniqueIndexPrepended(s, s', added, a.indexList, t.uniques[i].columns);
    }
  }

  lemma {:induction false} TablesDriftKept(s: Schema, s': Schema, snapshot: Snapshot, n: nat)
    requires BenignGrowth(s, s', snapshot) && n <= |snapshot.tables|
    ensures TablesDrift(s', snapshot.tables[..n]) == TablesDrift(s, snapshot.tables[..n])
  {
    if n > 0 {
      TablesDriftKept(s, s', snapshot, n - 1);
      assert snapshot.tables[..n][..n - 1] == snapshot.tables[..n - 1];
      var t := snapshot.tables[n - 1];
      if t.name in s.tables {
        var newIndexes := s'.indexes.Keys - s.indexes.Keys;
        ColumnChecksKept(s.tables[t.name], s'.tables[t.name], t, newIndexes);
        UniqueChecksKept(s, s', s.tables[t.name], s'.tables[t.name], t, newIndexes);
      }
    }
  }

  lemma ListedKept(s: Schema, s': Schema, snapshot: Snapshot, table: string, name: string)
    requires BenignGrowth(s, s', snapshot) && name !in s'.indexes.Keys - s.indexes.Keys
    ensures FindIndex(IndexListOf(s', snapshot, table), name) == FindIndex(IndexListOf(s, snapshot, table), name)
  {
    if RequiresTable(snapshot, table) && table in s.tables {
      var i :| 0 <= i < |snapshot.tables| && snapshot.tables[i].name == table;
      var a, a' := s.tables[table], s'.tables[table];
      assert BenignTable(a, a', snapshot.tables[i], s'.indexes.Keys - s.indexes.Keys);
      var added := a'.indexList[..|a'.indexList| - |a.indexList|];
      assert a'.indexList == added + a.indexList;
      FindIndexPrepended(added, a.indexList, name);
    }
  }

  /** A new index is listed as not unique, so it is no drift. */
  lemma NewIndexIsHarmless(s: Schema, s': Schema, snapshot: Snapshot, name: string)
    requires BenignGrowth(s, s', snapshot) && name in s'.indexes && name !in s.indexes
    ensures !BadExtraIndex(s', snapshot, name)
  {
    var table := s'.indexes[name].table;
    var newIndexes := s'.indexes.Keys - s.indexes.Keys;
    if RequiresTable(snapshot, table) && table in s'.tables {
      var i :| 0 <= i < |snapshot.tables| && snapshot.tables[i].name == table;
      assert BenignTable(s.tables[table], s'.tables[table], snapshot.tables[i], newIndexes);
      var rows := s'.tables[table].indexList;
      var added := |rows| - |s.tables[table].indexList|;
      var listed := FindIndex(rows, name);
      if listed.Some? {
        var k :| 0 <= k < |rows| && rows[k] == listed.value;
        assert k < added;
      }
    }
  }

  lemma SecondaryKept(s: Schema, s': Schema, snapshot: Snapshot, o: Options)
    requires BenignGrowth(s, s', snapshot)
    ensures IndexChecks(s', snapshot, o) == IndexChecks(s, snapshot, o)
    ensures TriggerChecks(s', snapshot, o) == TriggerChecks(s, snapshot, o)
  {
    IndexesKept(s, s', snapshot, o);
    TriggersKept(s, s', snapshot, o);
  }

  lemma IndexesKept(s: Schema, s': Schema, snapshot: Snapshot, o: Options)
    requires BenignGrowth(s, s', snapshot)
    ensures IndexChecks(s', snapshot, o) == IndexChecks(s, snapshot, o)
  {
    forall i | 0 <= i < |snapshot.indexes| ensures IndexCheck(s', snapshot, o, snapshot.indexes[i]) == IndexCheck(s, snapshot, o, snapshot.indexes[i]) {
      IndexKept(s, s', snapshot, o, i);
    }
  }

  lemma IndexKept(s: Schema, s': Schema, snapshot: Snapshot, o: Options, i: nat)
    requires BenignGrowth(s, s', snapshot) && i < |snapshot.indexes|
    ensures IndexCheck(s', snapshot, o, snapshot.indexes[i]) == IndexCheck(s, snapshot, o, snapshot.indexes[i])
  {
    var r := snapshot.indexes[i];
    assert RequiresIndex(snapshot, r.name);
    ListedKept(s, s', snapshot, r.table, r.name);
  }

  lemma TriggersKept(s: Schema, s': Schema, snapshot: Snapshot, o: Options)
    requires BenignGrowth(s, s', snapshot)
    ensures TriggerChecks(s', snapshot, o) == TriggerChecks(s, snapshot, o)
  {
    forall i | 0 <= i < |snapshot.triggers| ensures TriggerCheck(s', o, snapshot.triggers[i]) == TriggerCheck(s, o, snapshot.triggers[i]) {
      assert RequiresTrigger(snapshot, snapshot.triggers[i].name);
    }
  }

  lemma ExtrasKept(s: Schema, s': Schema, snapshot: Snapshot)
    requires BenignGrowth(s, s', snapshot)
    ensures ExtraIndexDrift(s', snapshot) == ExtraIndexDrift(s, snapshot)
    ensures ExtraTriggerDrift(s', snapshot) == ExtraTriggerDrift(s, snapshot)
  {
    forall n | n in s'.indexes
      ensures BadExtraIndex(s', snapshot, n) <==> n in s.indexes && BadExtraIndex(s, snapshot, n)
    {
      if n in s.indexes {
        ListedKept(s, s', snapshot, s.indexes[n].table, n);
      } else {
        NewIndexIsHarmless(s, s', snapshot, n);
      }
    }
    forall n | n in s'.triggers
      ensures BadExtraTrigger(s', snapshot, n) <==> n in s.triggers && BadExtraTrigger(s, snapshot, n)
    {
    }
  }

  /** Benign additions never change the incompatible set, under any options. */
  lemma BenignGrowthIsInvisible(s: Schema, s': Schema, snapshot: Snapshot, o: Options)
    requires BenignGrowth(s, s', snapshot)
    ensures Incompatible(s', snapshot, o) == Incompatible(s, snapshot, o)
  {
    TablesDriftKept(s, s', snapshot, |snapshot.tables|);
    assert snapshot.tables[..|snapshot.tables|] == snapshot.tables;
    SecondaryKept(s, s', snapshot, o);
    ExtrasKept(s, s', snapshot);
  }

  // ----- removals

  lemma {:induction false} TableDriftIncluded(s: Schema, tables: seq<RequiredTable>, i: nat)
    requires i < |tables|
    ensures TableDrift(s, tables[i]) <= TablesDrift(s, tables)
  {
    if i < |tables| - 1 {
      TableDriftIncluded(s, tables[..|tables| - 1], i);
    }
  }

  lemma {:induction false} TablesDriftComesFrom(s: Schema, tables: seq<RequiredTable>, d: Drift)
    requires d in TablesDrift(s, tables)
    ensures exists i :: 0 <= i < |tables| && d in TableDrift(s, tables[i])
  {
    if d !in TableDrift(s, tables[|tables| - 1]) {
      TablesDriftComesFrom(s, tables[..|tables| - 1], d);
      var i :| 0 <= i < |tables| - 1 && d in TableDrift(s, tables[..|tables| - 1][i]);
      assert d in TableDrift(s, tables[i]);
    }
  }

  lemma FoundComesFrom(checks: seq<Option<Drift>>, d: Drift)
    ensures d in Found(checks) <==> Some(d) in checks
  {
    if Some(d) in checks {
      var i :| 0 <= i < |checks| && checks[i] == Some(d);
      assert checks[i].value == d;
    }
  }

  /** The drift kinds of one table check, by what they stand for. */
  lemma TableDriftMeans(s: Schema, t: RequiredTable, d: Drift)
    requires d in TableDrift(s, t)
    ensures d.TableMissing? ==> (d.table == t.name && t.name !in s.tables)
    ensures d.ColumnMissing? ==> (d.table == t.name && t.name in s.tables && FindColumn(s.tables[t.name].columns, d.column).None?)
    ensures !d.IndexMissing? && !d.TriggerMissing?
  {
    if t.name in s.tables {
      var a := s.tables[t.name];
      if d in Found(ShapeChecks(a, t)) {
        FoundComesFrom(ShapeChecks(a, t), d);
      } else if d in Found(ColumnChecks(a, t)) {
        FoundComesFrom(ColumnChecks(a, t), d);
      } else if d in Found(ExtraColumnChecks(a, t)) {
        FoundComesFrom(ExtraColumnChecks(a, t), d);
      } else {
        FoundComesFrom(UniqueChecks(s, a, t), d);
      }
    }
  }

  lemma NotSecondary(s: Schema, snapshot: Snapshot, o: Options, d: Drift)
    requires d.TableMissing? || d.ColumnMissing?
    ensures d in Incompatible(s, snapshot, o) <==> d in TablesDrift(s, snapshot.tables)
  {
    FoundComesFrom(IndexChecks(s, snapshot, o), d);
    FoundComesFrom(TriggerChecks(s, snapshot, o), d);
  }

  lemma NotFromTables(s: Schema, snapshot: Snapshot, d: Drift)
    requires d.IndexMissing? || d.TriggerMissing?
    ensures d !in TablesDrift(s, snapshot.tables)
  {
    if d in TablesDrift(s, snapshot.tables) {
      TablesDriftComesFrom(s, snapshot.tables, d);
      var k :| 0 <= k < |snapshot.tables| && d in TableDrift(s, snapshot.tables[k]);
      TableDriftMeans(s, snapshot.tables[k], d);
    }
  }

  /** A table is reported missing exactly when it is required and not there. */
  lemma TableMissingExactly(s: Schema, snapshot: Snapshot, o: Options, name: string)
    ensures TableMissing(name) in Incompatible(s, snapshot, o) <==> RequiresTable(snapshot, name) && name !in s.tables
  {
    var d := TableMissing(name);
    NotSecondary(s, snapshot, o, d);
    if RequiresTable(snapshot, name) && name !in s.tables {
      var i :| 0 <= i < |snapshot.tables| && snapshot.tables[i].name == name;
      TableDriftIncluded(s, snapshot.tables, i);
    }
    if d in TablesDrift(s, snapshot.tables) {
      TablesDriftComesFrom(s, snapshot.tables, d);
      var k :| 0 <= k < |snapshot.tables| && d in TableDrift(s, snapshot.tables[k]);
      TableDriftMeans(s, snapshot.tables[k], d);
    }
  }

  /** A required column of table number `i`. */
  predicate RequiresColumnOf(snapshot: Snapshot, i: nat, table: string, column: string)
    requires i < |snapshot.tables|
  {
    snapshot.tables[i].name == table && RequiresColumn(snapshot.tables[i], column)
  }

  predicate LacksColumn(s: Schema, table: string, column: string) {
    table in s.tables && FindColumn(s.tables[table].columns, column).None?
  }

  /** A column is reported missing exactly when an existing table is required to have it and does not. */
  lemma ColumnMissingExactly(s: Schema, snapshot: Snapshot, o: Options, table: string, column: string)
    ensures ColumnMissing(table, column) in Incompatible(s, snapshot, o)
       <==> LacksColumn(s, table, column) && exists i :: 0 <= i < |snapshot.tables| && RequiresColumnOf(snapshot, i, table, column)
  {
    var d := ColumnMissing(table, column);
    NotSecondary(s, snapshot, o, d);
    if LacksColumn(s, table, column) && exists i :: 0 <= i < |snapshot.tables| && RequiresColumnOf(snapshot, i, table, column) {
      var i :| 0 <= i < |snapshot.tables| && RequiresColumnOf(snapshot, i, table, column);
      LackingIsReported(s, snapshot.tables[i], column);
      TableDriftIncluded(s, snapshot.tables, i);
    }
    if d in TablesDrift(s, snapshot.tables) {
      TablesDriftComesFrom(s, snapshot.tables, d);
      var k :| 0 <= k < |snapshot.tables| && d in TableDrift(s, snapshot.tables[k]);
      MissingIsRequired(s, snapshot.tables[k], d);
      assert RequiresColumnOf(snapshot, k, table, column);
    }
  }

  lemma LackingIsReported(s: Schema, t: RequiredTable, column: string)
    requires LacksColumn(s, t.name, column) && RequiresColumn(t, column)
    ensures ColumnMissing(t.name, column) in TableDrift(s, t)
  {
    var a := s.tables[t.name];
    var c :| 0 <= c < |t.columns| && t.columns[c].name == column;
    assert ColumnChecks(a, t)[c] == Some(ColumnMissing(t.name, column));
    FoundComesFrom(ColumnChecks(a, t), ColumnMissing(t.name, column));
  }

  lemma OnlyColumnChecks(s: Schema, t: RequiredTable, d: Drift)
    requires t.name in s.tables && d in TableDrift(s, t) && d.ColumnMissing?
    ensures Some(d) in ColumnChecks(s.tables[t.name], t)
  {
    var a := s.tables[t.name];
    if d in Found(ShapeChecks(a, t)) {
      FoundComesFrom(ShapeChecks(a, t), d);
    } else if d in Found(ExtraColumnChecks(a, t)) {
      FoundComesFrom(ExtraColumnChecks(a, t), d);
    } else if d in Found(UniqueChecks(s, a, t)) {
      FoundComesFrom(UniqueChecks(s, a, t), d);
    } else {
      FoundComesFrom(ColumnChecks(a, t), d);
    }
  }

  lemma MissingIsRequired(s: Schema, t: RequiredTable, d: Drift)
    requires d in TableDrift(s, t) && d.ColumnMissing?
    ensures d.table == t.name && LacksColumn(s, t.name, d.column) && RequiresColumn(t, d.column)
  {
    TableDriftMeans(s, t, d);
    var a := s.tables[t.name];
    OnlyColumnChecks(s, t, d);
    var c :| 0 <= c < |t.columns| && ColumnChecks(a, t)[c] == Some(d);
    assert t.columns[c].name == d.column;
  }

  /** An index is reported missing exactly when it is required, absent, and secondary objects must exist. */
  lemma IndexMissingExactly(s: Schema, snapshot: Snapshot, o: Options, name: string)
    ensures IndexMissing(name) in Incompatible(s, snapshot, o)
       <==> o.secondary && !o.allowMissingSecondary && RequiresIndex(snapshot, name) && name !in s.indexes
  {
    var d := IndexMissing(name);
    NotFromTables(s, snapshot, d);
    FoundComesFrom(IndexChecks(s, snapshot, o), d);
    FoundComesFrom(TriggerChecks(s, snapshot, o), d);
    if !o.allowMissingSecondary && RequiresIndex(snapshot, name) && name !in s.indexes {
      var i :| 0 <= i < |snapshot.indexes| && snapshot.indexes[i].name == name;
      assert IndexChecks(s, snapshot, o)[i] == Some(d);
    }
    if Some(d) in IndexChecks(s, snapshot, o) {
      var i :| 0 <= i < |snapshot.indexes| && IndexChecks(s, snapshot, o)[i] == Some(d);
      assert snapshot.indexes[i].name == name;
    }
  }

  lemma TriggerMissingExactly(s: Schema, snapshot: Snapshot, o: Options, name: string)
    ensures TriggerMissing(name) in Incompatible(s, snapshot, o)
       <==> o.secondary && !o.allowMissingSecondary && RequiresTrigger(snapshot, name) && name !in s.triggers
  {
    var d := TriggerMissing(name);
    NotFromTables(s, snapshot, d);
    FoundComesFrom(IndexChecks(s, snapshot, o), d);
    FoundComesFrom(TriggerChecks(s, snapshot, o), d);
    if !o.allowMissingSecondary && RequiresTrigger(snapshot, name) && name !in s.triggers {
      var i :| 0 <= i < |snapshot.triggers| && snapshot.triggers[i].name == name;
      assert TriggerChecks(s, snapshot, o)[i] == Some(d);
    }
    if Some(d) in TriggerChecks(s, snapshot, o) {
      var i :| 0 <= i < |snapshot.triggers| && TriggerChecks(s, snapshot, o)[i] == Some(d);
      assert snapshot.triggers[i].name == name;
    }
  }

  /** Losing a required object is a new incompatibility, under the default options whatever the object is. */
  lemma RemovalIsReported(s: Schema, s': Schema, snapshot: Snapshot, o: Options, table: string, name: string)
    ensures RequiresTable(snapshot, name) && name in s.tables && name !in s'.tables ==>
              TableMissing(name) in Incompatible(s', snapshot, o) - Incompatible(s, snapshot, o)
    ensures (exists i :: 0 <= i < |snapshot.tables| && RequiresColumnOf(snapshot, i, table, name))
            && !LacksColumn(s, table, name) && LacksColumn(s', table, name) ==>
              ColumnMissing(table, name) in Incompatible(s', snapshot, o) - Incompatible(s, snapshot, o)
    ensures o.secondary && !o.allowMissingSecondary && RequiresIndex(snapshot, name) && name in s.indexes && name !in s'.indexes ==>
              IndexMissing(name) in Incompatible(s', snapshot, o) - Incompatible(s, snapshot, o)
    ensures o.secondary && !o.allowMissingSecondary && RequiresTrigger(snapshot, name) && name in s.triggers && name !in s'.triggers ==>
              TriggerMissing(name) in Incompatible(s', snapshot, o) - Incompatible(s, snapshot, o)
  {
    TableMissingExactly(s, snapshot, o, name);
    TableMissingExactly(s', snapshot, o, name);
    ColumnMissingExactly(s, snapshot, o, table, name);
    ColumnMissingExactly(s', snapshot, o, table, name);
    IndexMissingExactly(s, snapshot, o, name);
    IndexMissingExactly(s', snapshot, o, name);
    TriggerMissingExactly(s, snapshot, o, name);
    TriggerMissingExactly(s', snapshot, o, name);
  }
}
