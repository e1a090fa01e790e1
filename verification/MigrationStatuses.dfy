/**
 The verdicts of journal validation and the answers of an inspection, stated of the journal rows and
 the registry alone.
 */
module MigrationStatuses {
  import opened Prelude
  import opened MigrationJournal

  /** Some migration of the registry has the version. */
  predicate Registered(registry: Registry, version: int) {
    exists i :: 0 <= i < |registry| && registry[i].version == version
  }

  /** In version order the rows carry the versions of the first migrations. */
  predicate VersionsInPlace(rows: seq<Row>, registry: Registry) {
    |rows| <= |registry| && |SortRows(rows)| == |rows| && forall i :: 0 <= i < |rows| ==> SortRows(rows)[i].version == registry[i].version
  }

  /** In version order the rows are those of the first migrations. */
  predicate RowsInPlace(rows: seq<Row>, registry: Registry) {
    |rows| <= |registry| && SortRows(rows) == RowsOf(registry[..|rows|])
  }

  predicate Unregistered(rows: seq<Row>, registry: Registry) {
    exists i :: 0 <= i < |rows| && !Registered(registry, rows[i].version)
  }

  lemma KnownMeans(row: Row, registry: Registry)
    ensures Known(row, registry) <==> Registered(registry, row.version)
  {
    if Known(row, registry) {
      var i :| 0 <= i < |registry| && registry[i] == Find(registry, row.version).value;
      assert registry[i].version == row.version;
    }
    if Registered(registry, row.version) {
      var i :| 0 <= i < |registry| && registry[i].version == row.version;
      assert registry[i] in registry;
    }
  }

  /** The last of the sorted versions is one of the rows'. */
  lemma CurrentIsARow(rows: seq<Row>)
    ensures var current := Current(Sort(RowVersions(rows)));
            && (rows == [] ==> current == 0)
            && (rows != [] ==> exists i :: 0 <= i < |rows| && rows[i].version == current)
            && forall i :: 0 <= i < |rows| ==> rows[i].version <= current
  {
    var vs := RowVersions(rows);
    SortSorts(vs);
    var sorted := Sort(vs);
    if rows != [] {
      assert sorted[|sorted| - 1] in multiset(vs);
      assert sorted[|sorted| - 1] in vs;
    }
    forall i | 0 <= i < |rows| ensures rows[i].version <= Current(sorted) {
      assert vs[i] in multiset(sorted);
      assert vs[i] in sorted;
      var k :| 0 <= k < |sorted| && sorted[k] == vs[i];
      AscendingUpTo(sorted, k, |sorted| - 1);
    }
  }

  lemma AscendingUpTo(vs: seq<int>, i: nat, j: nat)
    requires Ascending(vs) && i <= j < |vs|
    ensures vs[i] <= vs[j]
    decreases j - i
  {
    if i < j {
      AscendingUpTo(vs, i, j - 1);
    }
  }

  lemma VersionsPrefix(rows: seq<Row>, registry: Registry)
    ensures VersionsInPlace(rows, registry)
       <==> var applied := Sort(RowVersions(rows)); applied == Versions(registry[..Min(|applied|, |registry|)])
  {
    SortRowsSorts(rows);
    var sorted, applied := SortRows(rows), Sort(RowVersions(rows));
    assert RowVersions(sorted) == applied;
    var expected := Versions(registry[..Min(|applied|, |registry|)]);
    if VersionsInPlace(rows, registry) {
      forall i | 0 <= i < |applied| ensures applied[i] == expected[i] {
      }
    }
    if applied == expected {
      forall i | 0 <= i < |rows| ensures sorted[i].version == registry[i].version {
        assert applied[i] == expected[i];
      }
    }
  }

  /** Each verdict is given exactly for the rows that deserve it. */
  lemma VerdictsExactly(rows: seq<Row>, registry: Registry)
    requires DistinctVersions(registry)
    ensures Validate(rows, registry) == FutureVersion <==> Unregistered(rows, registry)
    ensures Validate(rows, registry) == JournalGap <==> !Unregistered(rows, registry) && !VersionsInPlace(rows, registry)
    ensures Validate(rows, registry) == ChecksumMismatch <==> VersionsInPlace(rows, registry) && !RowsInPlace(rows, registry)
    ensures Validate(rows, registry) == Accepted <==> RowsInPlace(rows, registry)
  {
    AcceptedExactlyPrefixes(rows, registry);
    PreflightAgreesWithValidation(rows, registry);
    VersionsPrefix(rows, registry);
    FutureExactly(rows, registry);
    SortRowsSorts(rows);
  }

  lemma FutureExactly(rows: seq<Row>, registry: Registry)
    ensures Validate(rows, registry) == FutureVersion <==> Unregistered(rows, registry)
  {
    forall i | 0 <= i < |rows| ensures Known(rows[i], registry) <==> Registered(registry, rows[i].version) {
      KnownMeans(rows[i], registry);
    }
    CurrentIsARow(rows);
    if Current(Sort(RowVersions(rows))) > Latest(registry) {
      var i :| 0 <= i < |rows| && rows[i].version == Current(Sort(RowVersions(rows)));
      assert !Registered(registry, rows[i].version);
    }
  }

  /** The pending versions are the registered ones that are not applied. */
  lemma {:induction false} MissingExactly(registry: Registry, applied: seq<int>, v: int)
    ensures v in Missing(registry, applied) <==> v !in applied && Registered(registry, v)
  {
    if registry != [] {
      var n := |registry| - 1;
      MissingExactly(registry[..n], applied, v);
      assert Registered(registry, v) <==> Registered(registry[..n], v) || registry[n].version == v by {
        if registry[n].version == v {
          assert Registered(registry, v);
        } else if Registered(registry, v) {
          var i :| 0 <= i < |registry| && registry[i].version == v;
          assert registry[..n][i].version == v;
        }
      }
    }
  }

  /** They come in the order of the registry. */
  lemma {:induction false} MissingAscends(registry: Registry, applied: seq<int>)
    requires forall i, j :: 0 <= i < j < |registry| ==> registry[i].version < registry[j].version
    ensures Rising(Missing(registry, applied))
  {
    if registry != [] {
      var n := |registry| - 1;
      MissingAscends(registry[..n], applied);
      forall v | v in Missing(registry[..n], applied) ensures v < registry[n].version {
        MissingExactly(registry[..n], applied, v);
        var i :| 0 <= i < n && registry[..n][i].version == v;
      }
      RisingWith(Missing(registry[..n], applied), registry[n].version);
    }
  }

  predicate Rising(vs: seq<int>) {
    forall i, j :: 0 <= i < j < |vs| ==> vs[i] < vs[j]
  }

  lemma RisingWith(vs: seq<int>, last: int)
    requires Rising(vs) && forall v :: v in vs ==> v < last
    ensures Rising(vs + [last])
  {
    forall i, j | 0 <= i < j < |vs + [last]| ensures (vs + [last])[i] < (vs + [last])[j] {
      assert (vs + [last])[i] == vs[i] && vs[i] in vs;
      if j < |vs| {
        assert (vs + [last])[j] == vs[j];
      }
    }
  }

  /** The latest version is the largest of the registry, and zero when none is positive. */
  lemma {:induction false} LatestIsRegistered(registry: Registry)
    ensures Latest(registry) == 0 || Registered(registry, Latest(registry))
  {
    if registry != [] {
      var n := |registry| - 1;
      LatestIsRegistered(registry[..n]);
      if Latest(registry) == registry[n].version {
        assert Registered(registry, Latest(registry));
      } else if Latest(registry) != 0 {
        var i :| 0 <= i < n && registry[..n][i].version == Latest(registry);
        assert registry[i].version == Latest(registry);
      }
    }
  }

  /** The state of an inspection, from what it saw. */
  lemma InspectionStates(seen: Observation, registry: Registry)
    requires DistinctVersions(registry)
    ensures var state := Inspect(seen, registry).state;
            && (state == Unavailable <==> seen == NoDatabase)
            && (state == Failed <==> seen == Throws || (seen.Seen? && !RowsInPlace(seen.rows, registry)))
            && (state == Incompatible <==> seen.Seen? && RowsInPlace(seen.rows, registry) && seen.drifted)
            && (state == Ready <==> seen.Seen? && RowsInPlace(seen.rows, registry) && !seen.drifted)
  {
    if seen.Seen? {
      VerdictsExactly(seen.rows, registry);
    }
  }

  /** The error of an inspection, from what it saw. */
  lemma InspectionErrors(seen: Observation, registry: Registry)
    requires DistinctVersions(registry)
    ensures var error := Inspect(seen, registry).error;
            && (error == DatabaseUnavailable <==> seen == NoDatabase)
            && (error == SchemaMigrationFailed <==> seen == Throws)
            && (error == SchemaFutureVersion <==> seen.Seen? && Unregistered(seen.rows, registry))
            && (error == SchemaJournalGap <==> seen.Seen? && !Unregistered(seen.rows, registry) && !VersionsInPlace(seen.rows, registry))
            && (error == SchemaChecksumMismatch <==> seen.Seen? && VersionsInPlace(seen.rows, registry) && !RowsInPlace(seen.rows, registry))
            && (error == SchemaIncompatibleDrift <==> seen.Seen? && RowsInPlace(seen.rows, registry) && seen.drifted)
            && (error == NoError <==> seen.Seen? && RowsInPlace(seen.rows, registry) && !seen.drifted)
  {
    if seen.Seen? {
      VerdictsExactly(seen.rows, registry);
    }
  }

  /** What a status says about the journal rows: their versions in ascending order, the last of them, and the registered ones that lack. */
  ghost predicate Lists(status: Status, rows: seq<Row>, registry: Registry) {
    && multiset(status.applied) == multiset(RowVersions(rows)) && Ascending(status.applied)
    && status.current == (if status.applied == [] then 0 else status.applied[|status.applied| - 1])
    && (forall v :: v in status.pending <==> v !in status.applied && Registered(registry, v))
  }

  lemma JournalStatusLists(rows: seq<Row>, registry: Registry, state: SchemaState, error: ErrorCode)
    ensures var status := JournalStatus(registry, state, rows, error);
            Lists(status, rows, registry) && status.state == state && status.error == error && status.latest == Latest(registry)
  {
    SortSorts(RowVersions(rows));
    forall v ensures v in Missing(registry, Sort(RowVersions(rows))) <==> v !in Sort(RowVersions(rows)) && Registered(registry, v) {
      MissingExactly(registry, Sort(RowVersions(rows)), v);
    }
  }

  lemma InspectionOfRows(rows: seq<Row>, drifted: bool, registry: Registry)
    ensures var status := Inspect(Seen(rows, drifted), registry); status == JournalStatus(registry, status.state, rows, status.error)
  {
    match Validate(rows, registry)
    case _ =>
  }

  /** An inspection lists the versions of the journal it saw, and of an unseen journal none as applied. */
  lemma InspectionLists(seen: Observation, registry: Registry)
    ensures if seen.Seen? then Lists(Inspect(seen, registry), seen.rows, registry)
            else Inspect(seen, registry).applied == [] && Inspect(seen, registry).pending == Versions(registry) && Inspect(seen, registry).current == 0
    ensures Inspect(seen, registry).latest == Latest(registry)
  {
    if seen.Seen? {
      var status := Inspect(seen, registry);
      InspectionOfRows(seen.rows, seen.drifted, registry);
      JournalStatusLists(seen.rows, registry, status.state, status.error);
    }
  }
}
