/**
 What the inspection reports, stated of the database and the snapshot alone: every kind of difference
 is reported exactly when it is there.
 */
module SchemaReports {
  import opened Prelude
  import opened SchemaDrift

  // ----- lookups find the first match

  predicate FirstColumn(columns: seq<Column>, k: int, name: string) {
    0 <= k < |columns| && columns[k].name == name && forall j :: 0 <= j < k ==> columns[j].name != name
  }

  predicate FirstRow(rows: seq<IndexRow>, k: int, name: string) {
    0 <= k < |rows| && rows[k].name == name && forall j :: 0 <= j < k ==> rows[j].name != name
  }

  /** A full unique index over exactly these columns, each ascending. */
  predicate Covers(s: Schema, row: IndexRow, columns: seq<string>) {
    && row.unique && !row.partiality
    && (row.name in s.indexColumns || columns == [])
    && |ColumnsOfIndex(s, row.name)| == |columns|
    && forall i :: 0 <= i < |columns| ==> ColumnsOfIndex(s, row.name)[i] == IndexColumn(columns[i], false)
  }

  predicate FirstCover(s: Schema, rows: seq<IndexRow>, k: int, columns: seq<string>) {
    0 <= k < |rows| && Covers(s, rows[k], columns) && forall j :: 0 <= j < k ==> !Covers(s, rows[j], columns)
  }

  lemma {:induction false} FindColumnIsFirst(columns: seq<Column>, name: string) returns (k: nat)
    ensures match FindColumn(columns, name)
            case None => forall j :: 0 <= j < |columns| ==> columns[j].name != name
            case Some(found) => FirstColumn(columns, k, name) && columns[k] == found
  {
    k := 0;
    if columns != [] && columns[0].name != name {
      var j := FindColumnIsFirst(columns[1..], name);
      k := j + 1;
      assert forall i :: 0 < i < |columns| ==> columns[i] == columns[1..][i - 1];
    }
  }

  lemma {:induction false} FindIndexIsFirst(rows: seq<IndexRow>, name: string) returns (k: nat)
    ensures match FindIndex(rows, name)
            case None => forall j :: 0 <= j < |rows| ==> rows[j].name != name
            case Some(found) => FirstRow(rows, k, name) && rows[k] == found
  {
    k := 0;
    if rows != [] && rows[0].name != name {
      var j := FindIndexIsFirst(rows[1..], name);
      k := j + 1;
      assert forall i :: 0 < i < |rows| ==> rows[i] == rows[1..][i - 1];
    }
  }

  lemma CoversMeans(s: Schema, row: IndexRow, columns: seq<string>)
    ensures Covers(s, row, columns) <==> row.unique && !row.partiality && ColumnsOfIndex(s, row.name) == Ascending(columns)
  {
    if row.unique && !row.partiality && ColumnsOfIndex(s, row.name) == Ascending(columns) && columns != [] {
      assert |Ascending(columns)| == |columns|;
    }
  }

  lemma {:induction false} UniqueIndexIsFirst(s: Schema, rows: seq<IndexRow>, columns: seq<string>) returns (k: nat)
    ensures match UniqueIndexOver(s, rows, columns)
            case None => forall j :: 0 <= j < |rows| ==> !Covers(s, rows[j], columns)
            case Some(found) => FirstCover(s, rows, k, columns) && rows[k] == found
  {
    k := 0;
    if rows != [] {
      CoversMeans(s, rows[0], columns);
      if !Covers(s, rows[0], columns) {
        var j := UniqueIndexIsFirst(s, rows[1..], columns);
        k := j + 1;
        assert forall i :: 0 < i < |rows| ==> rows[i] == rows[1..][i - 1];
      }
    }
  }

  // ----- the primary key

  /** Key column `i` comes before key column `j`: a smaller position in the key, or listed earlier at the same one. */
  predicate KeyBefore(columns: seq<Column>, i: nat, j: nat)
    requires i < |columns| && j < |columns|
  {
    columns[i].pk < columns[j].pk || (columns[i].pk == columns[j].pk && i < j)
  }

  /** The indices of all key columns, in key order. */
  predicate KeyOrder(columns: seq<Column>, order: seq<nat>) {
    && (forall k :: 0 <= k < |order| ==> order[k] < |columns| && columns[order[k]].pk > 0)
    && (forall i :: 0 <= i < |columns| && columns[i].pk > 0 ==> i in order)
    && (forall j, k :: 0 <= j < k < |order| ==> KeyBefore(columns, order[j], order[k]))
  }

  function ColumnsAt(columns: seq<Column>, order: seq<nat>): (r: seq<Column>)
    requires IndicesOf(columns, order)
    ensures |r| == |order|
  {
    seq(|order|, k requires 0 <= k < |order| => columns[order[k]])
  }

  function Shifted(order: seq<nat>): (r: seq<nat>)
    ensures |r| == |order| && forall k :: 0 <= k < |r| ==> r[k] == order[k] + 1
  {
    seq(|order|, k requires 0 <= k < |order| => order[k] + 1)
  }

  predicate IndicesOf(columns: seq<Column>, order: seq<nat>) {
    forall k :: 0 <= k < |order| ==> order[k] < |columns|
  }

  predicate Increasing(columns: seq<Column>, order: seq<nat>)
    requires IndicesOf(columns, order)
  {
    forall j, k :: 0 <= j < k < |order| ==> KeyBefore(columns, order[j], order[k])
  }

  /** The first column goes before the first one with no smaller position. */
  function InsertFirst(columns: seq<Column>, order: seq<nat>): (r: seq<nat>)
    requires columns != [] && IndicesOf(columns, order)
    ensures IndicesOf(columns, r) && forall i :: i in r <==> i == 0 || i in order
  {
    if order == [] || columns[0].pk <= columns[order[0]].pk then [0] + order
    else
      var rest := InsertFirst(columns, order[1..]);
      assert order == [order[0]] + order[1..];
      [order[0]] + rest
  }

  lemma {:induction false} InsertFirstInserts(columns: seq<Column>, order: seq<nat>)
    requires columns != [] && IndicesOf(columns, order)
    ensures ColumnsAt(columns, InsertFirst(columns, order)) == InsertByPk(columns[0], ColumnsAt(columns, order))
  {
    var sorted := ColumnsAt(columns, order);
    if order == [] || columns[0].pk <= columns[order[0]].pk {
      assert ColumnsAt(columns, [0] + order) == [columns[0]] + sorted;
    } else {
      InsertFirstInserts(columns, order[1..]);
      assert ColumnsAt(columns, order[1..]) == sorted[1..];
      var rest := InsertFirst(columns, order[1..]);
      assert ColumnsAt(columns, [order[0]] + rest) == [sorted[0]] + ColumnsAt(columns, rest);
    }
  }

  lemma IncreasingWith(columns: seq<Column>, i: nat, rest: seq<nat>)
    requires i < |columns| && IndicesOf(columns, rest) && Increasing(columns, rest)
    requires forall j :: j in rest ==> KeyBefore(columns, i, j)
    ensures IndicesOf(columns, [i] + rest) && Increasing(columns, [i] + rest)
  {
    var all := [i] + rest;
    forall j, k | 0 <= j < k < |all| ensures KeyBefore(columns, all[j], all[k]) {
      assert all[k] == rest[k - 1];
      if j > 0 {
        assert all[j] == rest[j - 1];
      }
    }
  }

  lemma {:induction false} InsertFirstIncreasing(columns: seq<Column>, order: seq<nat>)
    requires columns != [] && IndicesOf(columns, order) && Increasing(columns, order) && 0 !in order
    ensures Increasing(columns, InsertFirst(columns, order))
  {
    if order == [] || columns[0].pk <= columns[order[0]].pk {
      forall j | j in order ensures KeyBefore(columns, 0, j) {
        var k :| 0 <= k < |order| && order[k] == j;
        assert k > 0 ==> KeyBefore(columns, order[0], order[k]);
      }
      IncreasingWith(columns, 0, order);
    } else {
      InsertFirstIncreasing(columns, order[1..]);
      forall j | j in InsertFirst(columns, order[1..]) ensures KeyBefore(columns, order[0], j) {
        if j != 0 {
          var k :| 0 <= k < |order[1..]| && order[1..][k] == j;
          assert KeyBefore(columns, order[0], order[k + 1]);
        }
      }
      IncreasingWith(columns, order[0], InsertFirst(columns, order[1..]));
    }
  }

  /** The order of the later columns, as indices into all of them. */
  lemma ShiftedMembers(columns: seq<Column>, later: seq<nat>, i: nat)
    requires columns != [] && KeyOrder(columns[1..], later)
    ensures i in Shifted(later) <==> 0 < i < |columns| && columns[i].pk > 0
  {
    var order := Shifted(later);
    if 0 < i < |columns| && columns[i].pk > 0 {
      assert columns[1..][i - 1].pk > 0;
      var k :| 0 <= k < |later| && later[k] == i - 1;
      assert order[k] == i;
    }
    if i in order {
      var k :| 0 <= k < |order| && order[k] == i;
      assert columns[1..][later[k]].pk > 0;
    }
  }

  lemma ShiftedIncreasing(columns: seq<Column>, later: seq<nat>)
    requires columns != [] && KeyOrder(columns[1..], later)
    ensures IndicesOf(columns, Shifted(later)) && Increasing(columns, Shifted(later))
  {
    forall j, k | 0 <= j < k < |later| ensures KeyBefore(columns, later[j] + 1, later[k] + 1) {
      assert KeyBefore(columns[1..], later[j], later[k]);
    }
  }

  lemma ShiftedOrder(columns: seq<Column>, later: seq<nat>)
    requires columns != [] && KeyOrder(columns[1..], later)
    ensures var order := Shifted(later);
            && IndicesOf(columns, order) && Increasing(columns, order)
            && (forall i :: i in order <==> 0 < i < |columns| && columns[i].pk > 0)
            && ColumnsAt(columns, order) == ColumnsAt(columns[1..], later)
  {
    ShiftedIncreasing(columns, later);
    forall i ensures i in Shifted(later) <==> 0 < i < |columns| && columns[i].pk > 0 {
      if i >= 0 {
        ShiftedMembers(columns, later, i);
      }
    }
  }

  lemma {:induction false} SortedInOrder(columns: seq<Column>) returns (order: seq<nat>)
    ensures KeyOrder(columns, order) && ColumnsAt(columns, order) == SortByPk(KeyColumns(columns))
  {
    if columns == [] {
      order := [];
    } else {
      var later := SortedInOrder(columns[1..]);
      ShiftedOrder(columns, later);
      order := Shifted(later);
      if columns[0].pk > 0 {
        InsertFirstIncreasing(columns, order);
        InsertFirstInserts(columns, order);
        order := InsertFirst(columns, order);
      }
    }
  }

  /** The primary key read off the columns names every key column once, in key order. */
  lemma PrimaryKeyInOrder(columns: seq<Column>) returns (order: seq<nat>)
    ensures KeyOrder(columns, order)
    ensures |PrimaryKey(columns)| == |order|
    ensures forall k :: 0 <= k < |order| ==> PrimaryKey(columns)[k] == columns[order[k]].name
  {
    order := SortedInOrder(columns);
    assert PrimaryKey(columns) == Names(ColumnsAt(columns, order));
  }

  // ----- one table

  /** How a column differs from what is required; the first difference counts. */
  predicate Differs(required: RequiredColumn, actual: Column, kind: Mismatch) {
    match kind
    case TypeMismatch => actual.typ != required.typ
    case NotNullMismatch => actual.typ == required.typ && actual.notNull != required.notNull
    case PrimaryKeyMismatch => actual.typ == required.typ && actual.notNull == required.notNull && (required.primaryKey <==> actual.pk == 0)
  }

  predicate DiffersAt(a: TableObject, t: RequiredTable, i: int, k: int, column: string, kind: Mismatch) {
    0 <= i < |t.columns| && t.columns[i].name == column && FirstColumn(a.columns, k, column) && Differs(t.columns[i], a.columns[k], kind)
  }

  /** The actual unique definitions over the columns disagree with the required policy, or there is none and no index stands in for it. */
  predicate Conflicts(a: TableObject, required: UniqueDefinition, candidate: IndexRow) {
    || (exists d :: d in a.uniques && d.columns == required.columns && d.policy != required.policy)
    || (candidate.origin != "c" && forall d :: d in a.uniques ==> d.columns != required.columns)
  }

  ghost predicate TableReport(s: Schema, t: RequiredTable, d: Drift) {
    if t.name !in s.tables then d == TableMissing(t.name)
    else
      var a := s.tables[t.name];
      match d
      case RestrictiveConstraints(table) => table == t.name && a.restrictions != t.restrictions
      case PrimaryKeyDefinition(table) => table == t.name && PrimaryKey(a.columns) != t.primaryKey
      case ColumnMissing(table, column) =>
        table == t.name && RequiresColumn(t, column) && forall c :: c in a.columns ==> c.name != column
      case ColumnMismatch(table, column, kind) => table == t.name && exists i, k :: DiffersAt(a, t, i, k, column, kind)
      case RequiredExtra(table, column) =>
        && table == t.name && !RequiresColumn(t, column)
        && exists c :: c in a.columns && c.name == column && c.notNull && !c.defaulted && c.pk == 0
      case UniqueMissing(table, columns) =>
        && table == t.name && (exists u :: u in t.uniques && u.columns == columns)
        && forall row :: row in a.indexList ==> !Covers(s, row, columns)
      case ConflictPolicy(table, columns) =>
        && table == t.name
        && exists u, k :: u in t.uniques && u.columns == columns && FirstCover(s, a.indexList, k, columns) && Conflicts(a, u, a.indexList[k])
      case _ => false
  }

  lemma ColumnReports(s: Schema, t: RequiredTable, d: Drift)
    requires t.name in s.tables
    ensures d in Found(ColumnChecks(s.tables[t.name], t)) <==> (d.ColumnMissing? || d.ColumnMismatch?) && TableReport(s, t, d)
  {
    var a := s.tables[t.name];
    FoundComesFrom(ColumnChecks(a, t), d);
    forall i | 0 <= i < |t.columns|
      ensures ColumnCheck(a, t, t.columns[i]) == Some(d) ==> (d.ColumnMissing? || d.ColumnMismatch?) && TableReport(s, t, d)
    {
      var k := FindColumnIsFirst(a.columns, t.columns[i].name);
      if ColumnCheck(a, t, t.columns[i]) == Some(d) && d.ColumnMismatch? {
        assert DiffersAt(a, t, i, k, d.column, d.kind);
      }
    }
    if d.ColumnMissing? && TableReport(s, t, d) {
      var i :| 0 <= i < |t.columns| && t.columns[i].name == d.column;
      assert ColumnChecks(a, t)[i] == Some(d);
    } else if d.ColumnMismatch? && TableReport(s, t, d) {
      var i, k :| DiffersAt(a, t, i, k, d.column, d.kind);
      var j := FindColumnIsFirst(a.columns, d.column);
      assert j == k;
      assert ColumnChecks(a, t)[i] == Some(d);
    }
  }

  lemma ExtraReports(s: Schema, t: RequiredTable, d: Drift)
    requires t.name in s.tables
    ensures d in Found(ExtraColumnChecks(s.tables[t.name], t)) <==> d.RequiredExtra? && TableReport(s, t, d)
  {
    var a := s.tables[t.name];
    FoundComesFrom(ExtraColumnChecks(a, t), d);
    if d.RequiredExtra? && TableReport(s, t, d) {
      var k :| 0 <= k < |a.columns| && a.columns[k].name == d.column && a.columns[k].notNull && !a.columns[k].defaulted && a.columns[k].pk == 0;
      assert ExtraColumnChecks(a, t)[k] == Some(d);
    }
  }

  lemma UniqueReports(s: Schema, t: RequiredTable, d: Drift)
    requires t.name in s.tables
    ensures d in Found(UniqueChecks(s, s.tables[t.name], t)) <==> (d.UniqueMissing? || d.ConflictPolicy?) && TableReport(s, t, d)
  {
    var a := s.tables[t.name];
    FoundComesFrom(UniqueChecks(s, a, t), d);
    forall i | 0 <= i < |t.uniques|
      ensures UniqueCheck(s, a, t, t.uniques[i]) == Some(d) ==> (d.UniqueMissing? || d.ConflictPolicy?) && TableReport(s, t, d)
    {
      if UniqueCheck(s, a, t, t.uniques[i]) == Some(d) {
        UniqueReport(s, a, t, t.uniques[i], d);
      }
    }
    if (d.UniqueMissing? || d.ConflictPolicy?) && TableReport(s, t, d) {
      var u := UniqueReported(s, t, d);
      var i :| 0 <= i < |t.uniques| && t.uniques[i] == u;
      assert UniqueChecks(s, a, t)[i] == Some(d);
    }
  }

  lemma ConflictsMean(a: TableObject, u: UniqueDefinition, candidate: IndexRow)
    ensures Conflicts(a, u, candidate)
       <==> || (exists i :: 0 <= i < |a.uniques| && a.uniques[i].columns == u.columns && a.uniques[i].policy != u.policy)
            || (!(exists i :: 0 <= i < |a.uniques| && a.uniques[i].columns == u.columns) && candidate.origin != "c")
  {
  }

  lemma UniqueReport(s: Schema, a: TableObject, t: RequiredTable, u: UniqueDefinition, d: Drift)
    requires t.name in s.tables && a == s.tables[t.name] && u in t.uniques && UniqueCheck(s, a, t, u) == Some(d)
    ensures (d.UniqueMissing? || d.ConflictPolicy?) && TableReport(s, t, d)
  {
    var k := UniqueIndexIsFirst(s, a.indexList, u.columns);
    if UniqueIndexOver(s, a.indexList, u.columns).Some? {
      ConflictsMean(a, u, a.indexList[k]);
      assert u.columns == d.columns && FirstCover(s, a.indexList, k, d.columns) && Conflicts(a, u, a.indexList[k]);
    }
  }

  lemma UniqueReported(s: Schema, t: RequiredTable, d: Drift) returns (u: UniqueDefinition)
    requires t.name in s.tables && (d.UniqueMissing? || d.ConflictPolicy?) && TableReport(s, t, d)
    ensures u in t.uniques && UniqueCheck(s, s.tables[t.name], t, u) == Some(d)
  {
    var a := s.tables[t.name];
    var j := UniqueIndexIsFirst(s, a.indexList, d.columns);
    if d.UniqueMissing? {
      u :| u in t.uniques && u.columns == d.columns;
    } else {
      var v, k :| v in t.uniques && v.columns == d.columns && FirstCover(s, a.indexList, k, d.columns) && Conflicts(a, v, a.indexList[k]);
      u := v;
      assert j == k;
      ConflictsMean(a, u, a.indexList[k]);
    }
  }

  lemma TableReportExactly(s: Schema, t: RequiredTable, d: Drift)
    ensures d in TableDrift(s, t) <==> TableReport(s, t, d)
  {
    if t.name in s.tables {
      FoundComesFrom(ShapeChecks(s.tables[t.name], t), d);
      ColumnReports(s, t, d);
      ExtraReports(s, t, d);
      UniqueReports(s, t, d);
      if d.RestrictiveConstraints? || d.PrimaryKeyDefinition? {
        var checks := ShapeChecks(s.tables[t.name], t);
        assert Some(d) in checks <==> checks[0] == Some(d) || checks[1] == Some(d);
      }
    }
  }

  // ----- the whole database

  /** Row `k` is the first of the required table's index list that has the name. */
  predicate ListedAt(s: Schema, snapshot: Snapshot, table: string, k: int, name: string) {
    RequiresTable(snapshot, table) && table in s.tables && FirstRow(s.tables[table].indexList, k, name)
  }

  /** The index is listed on its table as an ordinary one over the required columns. */
  ghost predicate AsRequired(s: Schema, snapshot: Snapshot, required: RequiredIndex) {
    && (exists k :: ListedAt(s, snapshot, required.table, k, required.name)
                    && var row := s.tables[required.table].indexList[k]; !row.unique && !row.partiality)
    && ColumnsOfIndex(s, required.name) == required.columns
  }

  /** Names that SQLite and D1 keep for themselves. */
  predicate Internal(name: string) {
    || (|name| >= 7 && name[..7] == "sqlite_") || (|name| >= 4 && name[..4] == "_cf_") || name == "d1_migrations"
  }

  ghost predicate Report(s: Schema, snapshot: Snapshot, o: Options, d: Drift) {
    match d
    case IndexMissing(index) => o.secondary && !o.allowMissingSecondary && RequiresIndex(snapshot, index) && index !in s.indexes
    case IndexWrongTable(index) =>
      o.secondary && index in s.indexes && exists r :: r in snapshot.indexes && r.name == index && r.table != s.indexes[index].table
    case IndexDefinition(index) =>
      && o.secondary && index in s.indexes
      && exists r :: r in snapshot.indexes && r.name == index && r.table == s.indexes[index].table && !AsRequired(s, snapshot, r)
    case TriggerMissing(trigger) => o.secondary && !o.allowMissingSecondary && RequiresTrigger(snapshot, trigger) && trigger !in s.triggers
    case TriggerWrongTable(trigger) =>
      o.secondary && trigger in s.triggers && exists r :: r in snapshot.triggers && r.name == trigger && r.table != s.triggers[trigger].table
    case TriggerDefinition(trigger) =>
      && o.secondary && trigger in s.triggers
      && exists r :: r in snapshot.triggers && r.name == trigger && r.table == s.triggers[trigger].table && r.sql != s.triggers[trigger].sql
    case UnexpectedUnique(index) =>
      && o.extras && index in s.indexes && !RequiresIndex(snapshot, index) && !Internal(index)
      && exists k :: ListedAt(s, snapshot, s.indexes[index].table, k, index) && s.tables[s.indexes[index].table].indexList[k].unique
    case UnexpectedTrigger(trigger) =>
      && o.extras && trigger in s.triggers && !RequiresTrigger(snapshot, trigger) && !Internal(trigger)
      && RequiresTable(snapshot, s.triggers[trigger].table)
    case _ => exists t :: t in snapshot.tables && TableReport(s, t, d)
  }

  predicate AboutTable(d: Drift) {
    || d.TableMissing? || d.RestrictiveConstraints? || d.PrimaryKeyDefinition? || d.ColumnMissing? || d.ColumnMismatch?
    || d.RequiredExtra? || d.UniqueMissing? || d.ConflictPolicy?
  }

  lemma TablesReport(s: Schema, snapshot: Snapshot, d: Drift)
    ensures d in TablesDrift(s, snapshot.tables) <==> AboutTable(d) && exists t :: t in snapshot.tables && TableReport(s, t, d)
  {
    if d in TablesDrift(s, snapshot.tables) {
      TablesDriftComesFrom(s, snapshot.tables, d);
      var i :| 0 <= i < |snapshot.tables| && d in TableDrift(s, snapshot.tables[i]);
      TableReportExactly(s, snapshot.tables[i], d);
    }
    if exists t :: t in snapshot.tables && TableReport(s, t, d) {
      var i :| 0 <= i < |snapshot.tables| && TableReport(s, snapshot.tables[i], d);
      TableReportExactly(s, snapshot.tables[i], d);
      TableDriftIncluded(s, snapshot.tables, i);
    }
  }

  lemma AsRequiredMeans(s: Schema, snapshot: Snapshot, required: RequiredIndex)
    ensures var listed := FindIndex(IndexListOf(s, snapshot, required.table), required.name);
            && (AsRequired(s, snapshot, required)
                <==> listed.Some? && !listed.value.unique && !listed.value.partiality && ColumnsOfIndex(s, required.name) == required.columns)
  {
    var k := FindIndexIsFirst(IndexListOf(s, snapshot, required.table), required.name);
    if exists j :: ListedAt(s, snapshot, required.table, j, required.name) {
      var j :| ListedAt(s, snapshot, required.table, j, required.name);
      assert k == j;
    }
    if FindIndex(IndexListOf(s, snapshot, required.table), required.name).Some? {
      assert ListedAt(s, snapshot, required.table, k, required.name);
    }
  }

  lemma IndexReports(s: Schema, snapshot: Snapshot, o: Options, d: Drift)
    ensures o.secondary && d in Found(IndexChecks(s, snapshot, o))
       <==> (d.IndexMissing? || d.IndexWrongTable? || d.IndexDefinition?) && Report(s, snapshot, o, d)
  {
    FoundComesFrom(IndexChecks(s, snapshot, o), d);
    forall i | 0 <= i < |snapshot.indexes|
      ensures IndexCheck(s, snapshot, o, snapshot.indexes[i]) == Some(d) && o.secondary ==>
                (d.IndexMissing? || d.IndexWrongTable? || d.IndexDefinition?) && Report(s, snapshot, o, d)
    {
      AsRequiredMeans(s, snapshot, snapshot.indexes[i]);
    }
    if (d.IndexMissing? || d.IndexWrongTable? || d.IndexDefinition?) && Report(s, snapshot, o, d) {
      var i := IndexReported(s, snapshot, o, d);
      assert IndexChecks(s, snapshot, o)[i] == Some(d);
    }
  }

  lemma IndexReported(s: Schema, snapshot: Snapshot, o: Options, d: Drift) returns (i: nat)
    requires (d.IndexMissing? || d.IndexWrongTable? || d.IndexDefinition?) && Report(s, snapshot, o, d)
    ensures o.secondary && i < |snapshot.indexes| && IndexCheck(s, snapshot, o, snapshot.indexes[i]) == Some(d)
  {
    if d.IndexMissing? {
      i :| 0 <= i < |snapshot.indexes| && snapshot.indexes[i].name == d.index;
    } else if d.IndexWrongTable? {
      i :| 0 <= i < |snapshot.indexes| && snapshot.indexes[i].name == d.index && snapshot.indexes[i].table != s.indexes[d.index].table;
    } else {
      i :| 0 <= i < |snapshot.indexes| && snapshot.indexes[i].name == d.index && snapshot.indexes[i].table == s.indexes[d.index].table
           && !AsRequired(s, snapshot, snapshot.indexes[i]);
      AsRequiredMeans(s, snapshot, snapshot.indexes[i]);
    }
  }

  lemma TriggerReports(s: Schema, snapshot: Snapshot, o: Options, d: Drift)
    ensures o.secondary && d in Found(TriggerChecks(s, snapshot, o))
       <==> (d.TriggerMissing? || d.TriggerWrongTable? || d.TriggerDefinition?) && Report(s, snapshot, o, d)
  {
    FoundComesFrom(TriggerChecks(s, snapshot, o), d);
    if (d.TriggerMissing? || d.TriggerWrongTable? || d.TriggerDefinition?) && Report(s, snapshot, o, d) {
      var i :| 0 <= i < |snapshot.triggers| && snapshot.triggers[i].name == d.trigger
               && (d.TriggerWrongTable? ==> snapshot.triggers[i].table != s.triggers[d.trigger].table)
               && (d.TriggerDefinition? ==> snapshot.triggers[i].table == s.triggers[d.trigger].table && snapshot.triggers[i].sql != s.triggers[d.trigger].sql);
      assert TriggerChecks(s, snapshot, o)[i] == Some(d);
    }
  }

  lemma InternalIsIgnored(name: string)
    ensures IgnoredObject(name) <==> Internal(name)
  {
  }

  lemma ExtraIndexReports(s: Schema, snapshot: Snapshot, o: Options, d: Drift)
    ensures o.extras && d in ExtraIndexDrift(s, snapshot) <==> d.UnexpectedUnique? && Report(s, snapshot, o, d)
  {
    if d.UnexpectedUnique? && d.index in s.indexes {
      InternalIsIgnored(d.index);
      var table := s.indexes[d.index].table;
      var k := FindIndexIsFirst(IndexListOf(s, snapshot, table), d.index);
      if exists j :: ListedAt(s, snapshot, table, j, d.index) {
        var j :| ListedAt(s, snapshot, table, j, d.index);
        assert k == j;
      }
      if FindIndex(IndexListOf(s, snapshot, table), d.index).Some? {
        assert ListedAt(s, snapshot, table, k, d.index);
      }
    }
  }

  lemma ExtraTriggerReports(s: Schema, snapshot: Snapshot, o: Options, d: Drift)
    ensures o.extras && d in ExtraTriggerDrift(s, snapshot) <==> d.UnexpectedTrigger? && Report(s, snapshot, o, d)
  {
    if d.UnexpectedTrigger? {
      InternalIsIgnored(d.trigger);
    }
  }

  /** Each difference is reported exactly when it is there, whatever its kind. */
  lemma ReportedExactly(s: Schema, snapshot: Snapshot, o: Options, d: Drift)
    ensures d in Incompatible(s, snapshot, o) <==> Report(s, snapshot, o, d)
  {
    TablesReport(s, snapshot, d);
    IndexReports(s, snapshot, o, d);
    TriggerReports(s, snapshot, o, d);
    ExtraIndexReports(s, snapshot, o, d);
    ExtraTriggerReports(s, snapshot, o, d);
  }
}
