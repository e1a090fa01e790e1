/**
 The migration journal: its rows, its validation against a registry, the preflight that runs
 before it, and the status values the schema code reports.

 Checksums are opaque strings. `applied_at` and `execution_ms` play no part in any decision and
 are not kept.
 */
module MigrationJournal {
  import opened Prelude

  datatype Migration = Migration(version: int, name: string, checksum: string,
                                 statements: seq<string>,
                                 tableStatements: seq<string>,
                                 secondaryStatements: seq<string>)
  type Registry = seq<Migration>

  datatype Row = Row(version: int, name: string, checksum: string)

  function RowOf(m: Migration): Row {
    Row(m.version, m.name, m.checksum)
  }

  function RowsOf(registry: Registry): (rows: seq<Row>)
    ensures |rows| == |registry|
    ensures forall i :: 0 <= i < |rows| ==> rows[i] == RowOf(registry[i])
  {
    seq(|registry|, i requires 0 <= i < |registry| => RowOf(registry[i]))
  }

  function RowVersions(rows: seq<Row>): (vs: seq<int>)
    ensures |vs| == |rows|
    ensures forall i :: 0 <= i < |rows| ==> vs[i] == rows[i].version
  {
    seq(|rows|, i requires 0 <= i < |rows| => rows[i].version)
  }

  function Versions(registry: Registry): (vs: seq<int>)
    ensures |vs| == |registry|
    ensures forall i :: 0 <= i < |registry| ==> vs[i] == registry[i].version
  {
    seq(|registry|, i requires 0 <= i < |registry| => registry[i].version)
  }

  predicate DistinctVersions(registry: Registry) {
    forall i, j :: 0 <= i < j < |registry| ==> registry[i].version != registry[j].version
  }

  // ----- sorting by version

  predicate Ascending(vs: seq<int>) {
    forall i :: 0 < i < |vs| ==> vs[i - 1] <= vs[i]
  }

  function Insert(v: int, sorted: seq<int>): seq<int> {
    if sorted == [] || v <= sorted[0] then [v] + sorted else [sorted[0]] + Insert(v, sorted[1..])
  }

  function Sort(vs: seq<int>): seq<int> {
    if vs == [] then [] else Insert(vs[0], Sort(vs[1..]))
  }

  function InsertRow(row: Row, sorted: seq<Row>): seq<Row> {
    if sorted == [] || row.version <= sorted[0].version then [row] + sorted
    else [sorted[0]] + InsertRow(row, sorted[1..])
  }

  /** The rows in the order of `ORDER BY version ASC`. */
  function SortRows(rows: seq<Row>): seq<Row> {
    if rows == [] then [] else InsertRow(rows[0], SortRows(rows[1..]))
  }

  lemma {:induction false} InsertKeeps(v: int, sorted: seq<int>)
    ensures multiset(Insert(v, sorted)) == multiset(sorted) + multiset{v}
  {
    if sorted != [] && v > sorted[0] {
      InsertKeeps(v, sorted[1..]);
      assert sorted == [sorted[0]] + sorted[1..];
    }
  }

  lemma {:induction false} InsertAscends(v: int, sorted: seq<int>)
    requires Ascending(sorted)
    ensures Ascending(Insert(v, sorted))
    ensures Insert(v, sorted)[0] == if sorted == [] || v <= sorted[0] then v else sorted[0]
  {
    if sorted != [] && v > sorted[0] {
      InsertAscends(v, sorted[1..]);
    }
  }

  lemma {:induction false} SortSorts(vs: seq<int>)
    ensures Ascending(Sort(vs)) && multiset(Sort(vs)) == multiset(vs) && |Sort(vs)| == |vs|
  {
    if vs != [] {
      SortSorts(vs[1..]);
      InsertKeeps(vs[0], Sort(vs[1..]));
      InsertAscends(vs[0], Sort(vs[1..]));
      assert vs == [vs[0]] + vs[1..];
      assert |multiset(Sort(vs))| == |multiset(vs)|;
    }
  }

  lemma {:induction false} InsertRowKeeps(row: Row, sorted: seq<Row>)
    ensures multiset(InsertRow(row, sorted)) == multiset(sorted) + multiset{row}
  {
    if sorted != [] && row.version > sorted[0].version {
      InsertRowKeeps(row, sorted[1..]);
      assert sorted == [sorted[0]] + sorted[1..];
    }
  }

  lemma {:induction false} InsertRowVersions(row: Row, sorted: seq<Row>)
    ensures RowVersions(InsertRow(row, sorted)) == Insert(row.version, RowVersions(sorted))
  {
    if sorted != [] && row.version > sorted[0].version {
      InsertRowVersions(row, sorted[1..]);
      assert RowVersions(sorted)[1..] == RowVersions(sorted[1..]);
    }
  }

  /** Sorting rows and taking their versions is the same as taking versions and sorting them. */
  lemma {:induction false} SortRowsSorts(rows: seq<Row>)
    ensures multiset(SortRows(rows)) == multiset(rows) && |SortRows(rows)| == |rows|
    ensures RowVersions(SortRows(rows)) == Sort(RowVersions(rows))
  {
    if rows != [] {
      SortRowsSorts(rows[1..]);
      InsertRowKeeps(rows[0], SortRows(rows[1..]));
      InsertRowVersions(rows[0], SortRows(rows[1..]));
      assert rows == [rows[0]] + rows[1..];
      assert RowVersions(rows)[1..] == RowVersions(rows[1..]);
      assert |multiset(SortRows(rows))| == |multiset(rows)|;
    }
  }

  lemma SortOfAscending(vs: seq<int>)
    requires Ascending(vs)
    ensures Sort(vs) == vs
  {
    if |vs| > 1 {
      SortOfAscending(vs[1..]);
      assert vs[0] <= vs[1];
    }
  }

  lemma SortRowsOfAscending(rows: seq<Row>)
    requires Ascending(RowVersions(rows))
    ensures SortRows(rows) == rows
  {
    if |rows| > 1 {
      assert RowVersions(rows[1..]) == RowVersions(rows)[1..];
      SortRowsOfAscending(rows[1..]);
      assert RowVersions(rows)[0] <= RowVersions(rows)[1];
    }
  }

  // ----- validation

  function Latest(registry: Registry): (v: int)
    ensures v >= 0
    ensures forall m :: m in registry ==> m.version <= v
  {
    if registry == [] then 0
    else Max(Latest(registry[..|registry| - 1]), registry[|registry| - 1].version)
  }

  function Current(applied: seq<int>): int {
    if applied == [] then 0 else applied[|applied| - 1]
  }

  /** The first registry entry of a version. */
  function Find(registry: Registry, version: int): (found: Option<Migration>)
    ensures found.Some? ==> found.value in registry && found.value.version == version
    ensures found.None? <==> forall m :: m in registry ==> m.version != version
  {
    if registry == [] then None
    else if registry[0].version == version then Some(registry[0])
    else Find(registry[1..], version)
  }

  datatype Verdict = Accepted | FutureVersion | JournalGap | ChecksumMismatch

  predicate Known(row: Row, registry: Registry) {
    Find(registry, row.version).Some?
  }

  predicate Agrees(row: Row, registry: Registry) {
    var found := Find(registry, row.version);
    found.Some? && row == RowOf(found.value)
  }

  function Validate(rows: seq<Row>, registry: Registry): Verdict {
    var applied := Sort(RowVersions(rows));
    if Current(applied) > Latest(registry) || exists i :: 0 <= i < |rows| && !Known(rows[i], registry) then FutureVersion
    else if applied != Versions(registry[..Min(|applied|, |registry|)]) then JournalGap
    else if exists i :: 0 <= i < |rows| && !Agrees(rows[i], registry) then ChecksumMismatch
    else Accepted
  }

  lemma FindAt(registry: Registry, i: nat)
    requires i < |registry| && DistinctVersions(registry)
    ensures Find(registry, registry[i].version) == Some(registry[i])
  {
    if i > 0 {
      assert registry[1..][i - 1] == registry[i];
      FindAt(registry[1..], i - 1);
    }
  }

  /** Rows and their sorted form hold the same rows. */
  lemma {:induction false} SortRowsMembers(rows: seq<Row>)
    ensures forall r :: r in SortRows(rows) <==> r in rows
  {
    SortRowsSorts(rows);
    forall r ensures r in SortRows(rows) <==> r in rows {
      assert r in multiset(rows) <==> r in multiset(SortRows(rows));
    }
  }

  lemma {:induction false} AcceptedIsPrefix(rows: seq<Row>, registry: Registry)
    requires DistinctVersions(registry) && Validate(rows, registry) == Accepted
    ensures |rows| <= |registry| && SortRows(rows) == RowsOf(registry[..|rows|])
  {
    SortRowsSorts(rows);
    var applied := Sort(RowVersions(rows));
    assert |applied| == |Versions(registry[..Min(|applied|, |registry|)])|;
    forall i | 0 <= i < |rows| ensures SortRows(rows)[i] == RowOf(registry[i]) {
      assert applied[i] == registry[i].version;
      AcceptedRow(rows, registry, i);
    }
  }

  lemma AcceptedRow(rows: seq<Row>, registry: Registry, i: nat)
    requires DistinctVersions(registry) && (forall k :: 0 <= k < |rows| ==> Agrees(rows[k], registry))
    requires i < |SortRows(rows)| && i < |registry| && SortRows(rows)[i].version == registry[i].version
    ensures SortRows(rows)[i] == RowOf(registry[i])
  {
    SortRowsMembers(rows);
    assert SortRows(rows)[i] in rows;
    var k :| 0 <= k < |rows| && rows[k] == SortRows(rows)[i];
    assert Agrees(rows[k], registry);
    FindAt(registry, i);
  }

  lemma PrefixAgrees(rows: seq<Row>, registry: Registry)
    requires DistinctVersions(registry)
    requires |rows| <= |registry| && SortRows(rows) == RowsOf(registry[..|rows|])
    ensures forall k :: 0 <= k < |rows| ==> Agrees(rows[k], registry)
  {
    var sorted := SortRows(rows);
    SortRowsMembers(rows);
    forall k | 0 <= k < |rows| ensures Agrees(rows[k], registry) {
      assert rows[k] in sorted;
      var i :| 0 <= i < |sorted| && sorted[i] == rows[k];
      FindAt(registry, i);
    }
  }

  lemma PrefixVersions(rows: seq<Row>, registry: Registry)
    requires |rows| <= |registry| && SortRows(rows) == RowsOf(registry[..|rows|])
    ensures Sort(RowVersions(rows)) == Versions(registry[..|rows|])
  {
    SortRowsSorts(rows);
  }

  lemma {:induction false} PrefixIsAccepted(rows: seq<Row>, registry: Registry)
    requires DistinctVersions(registry)
    requires |rows| <= |registry| && SortRows(rows) == RowsOf(registry[..|rows|])
    ensures Validate(rows, registry) == Accepted
  {
    PrefixAgrees(rows, registry);
    PrefixVersions(rows, registry);
    assert rows != [] ==> registry[|rows| - 1] in registry;
  }

  /** The journal is accepted exactly when its rows in version order are the first rows of the registry. */
  lemma AcceptedExactlyPrefixes(rows: seq<Row>, registry: Registry)
    requires DistinctVersions(registry)
    ensures Validate(rows, registry) == Accepted
            <==> |rows| <= |registry| && SortRows(rows) == RowsOf(registry[..|rows|])
  {
    if Validate(rows, registry) == Accepted {
      AcceptedIsPrefix(rows, registry);
    }
    if |rows| <= |registry| && SortRows(rows) == RowsOf(registry[..|rows|]) {
      PrefixIsAccepted(rows, registry);
    }
  }

  // ----- the hardened preflight

  predicate JournalIsPrefix(appliedVersions: seq<int>, registryVersions: seq<int>) {
    var applied := Sort(appliedVersions);
    && |applied| <= |registryVersions|
    && forall i :: 0 <= i < |applied| ==> applied[i] == registryVersions[i]
  }

  /** The preflight stops exactly the journals that validation calls a future version or a gap. */
  lemma {:induction false} PreflightAgreesWithValidation(rows: seq<Row>, registry: Registry)
    ensures JournalIsPrefix(RowVersions(rows), Versions(registry))
            <==> Validate(rows, registry) in {Accepted, ChecksumMismatch}
  {
    var applied := Sort(RowVersions(rows));
    if JournalIsPrefix(RowVersions(rows), Versions(registry)) {
      assert applied == Versions(registry[..|applied|]);
      SortRowsMembers(rows);
      SortRowsSorts(rows);
      forall k | 0 <= k < |rows| ensures Known(rows[k], registry) {
        assert rows[k] in SortRows(rows);
        var i :| 0 <= i < |applied| && SortRows(rows)[i] == rows[k];
        assert RowVersions(SortRows(rows))[i] == rows[k].version;
        assert registry[i] in registry;
      }
      assert applied != [] ==> registry[|applied| - 1] in registry;
    } else if applied == Versions(registry[..Min(|applied|, |registry|)]) {
      assert false;
    }
  }

  /** The layers name the problem differently: the preflight calls a future version a gap. */
  lemma PreflightHidesFutureVersion()
    ensures var registry := [Migration(1, "baseline", "c1", ["s"], [], [])];
            var rows := [Row(9, "later", "c9")];
            && Validate(rows, registry) == FutureVersion
            && !JournalIsPrefix(RowVersions(rows), Versions(registry))
  {
    var registry := [Migration(1, "baseline", "c1", ["s"], [], [])];
    var rows := [Row(9, "later", "c9")];
    assert RowVersions(rows)[0] == 9;
    SortOfAscending(RowVersions(rows));
    assert registry[..0] == [];
    assert Latest(registry) == 1;
  }

  // ----- statuses

  datatype SchemaState = Ready | Busy | Unavailable | Incompatible | Failed | Pending
  datatype ErrorCode = NoError | DatabaseUnavailable | SchemaFutureVersion | SchemaJournalGap | SchemaChecksumMismatch
                     | SchemaIncompatibleDrift | SchemaMigrationFailed | SchemaMigrationBusy
                     | SchemaMigrationPending | MigrationRegistryInvalid

  datatype Status = Status(state: SchemaState, current: int, latest: int,
                           applied: seq<int>, pending: seq<int>, error: ErrorCode)

  /** The statuses of the registry-independent layer: `pending` belongs to the managed layer alone. */
  type PlainStatus = s: Status | s.state != Pending witness Status(Ready, 0, 0, [], [], NoError)

  function Missing(registry: Registry, applied: seq<int>): seq<int> {
    if registry == [] then []
    else
      var before := Missing(registry[..|registry| - 1], applied);
      var v := registry[|registry| - 1].version;
      if v in applied then before else before + [v]
  }

  function JournalStatus(registry: Registry, state: SchemaState, rows: seq<Row>, error: ErrorCode): Status {
    var applied := Sort(RowVersions(rows));
    Status(state, Current(applied), Latest(registry), applied, Missing(registry, applied), error)
  }

  function BareStatus(registry: Registry, state: SchemaState, error: ErrorCode): Status {
    Status(state, 0, Latest(registry), [], Versions(registry), error)
  }

  /** What one inspection sees: no binding, a query that throws, or the journal rows and whether the schema drifted. */
  datatype Observation = NoDatabase | Throws | Seen(rows: seq<Row>, drifted: bool)

  function Inspect(seen: Observation, registry: Registry): PlainStatus {
    match seen
    case NoDatabase => BareStatus(registry, Unavailable, DatabaseUnavailable)
    case Throws => BareStatus(registry, Failed, SchemaMigrationFailed)
    case Seen(rows, drifted) =>
      match Validate(rows, registry)
      case FutureVersion => JournalStatus(registry, Failed, rows, SchemaFutureVersion)
      case JournalGap => JournalStatus(registry, Failed, rows, SchemaJournalGap)
      case ChecksumMismatch => JournalStatus(registry, Failed, rows, SchemaChecksumMismatch)
      case Accepted =>
        if drifted then JournalStatus(registry, Incompatible, rows, SchemaIncompatibleDrift)
        else JournalStatus(registry, Ready, rows, NoError)
  }

  /** The hardened preflight: it lets a prefix of versions pass and answers a gap to everything else. */
  function Preflight(rows: seq<Row>, registry: Registry): Option<PlainStatus> {
    if JournalIsPrefix(RowVersions(rows), Versions(registry)) then None
    else Some(JournalStatus(registry, Failed, rows, SchemaJournalGap))
  }

  /** Where the preflight stops, its error is that of the inspection exactly when the journal is a gap. */
  lemma PreflightNamesExactly(rows: seq<Row>, drifted: bool, registry: Registry)
    ensures Preflight(rows, registry).Some? <==> Validate(rows, registry) in {FutureVersion, JournalGap}
    ensures Preflight(rows, registry).Some? ==>
              (Preflight(rows, registry).value.error == Inspect(Seen(rows, drifted), registry).error <==> Validate(rows, registry) == JournalGap)
  {
    PreflightAgreesWithValidation(rows, registry);
  }
}
