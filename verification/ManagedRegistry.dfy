/**
 The split of the registry into automatic and controlled migrations, and the ensure and inspect
 entry points built on it. A registry is valid when versions count from 1 and the controlled
 migrations form a suffix.
 */
module ManagedRegistry {
  import opened Prelude
  import opened MigrationJournal
  import opened MigrationLock
  import opened MigrationRun
  import opened MigrationSafety

  datatype Mode = Automatic | Controlled | UnknownMode(name: string)
  datatype ManagedMigration = ManagedMigration(base: Migration, mode: Mode, snapshotValid: bool)
  type Managed = seq<ManagedMigration>
  datatype Validated = Validated(all: Managed, automatic: Managed, controlled: Managed)

  predicate MigrationValid(m: ManagedMigration, expected: int) {
    && m.base.version == expected
    && m.base.name != ""
    && (m.mode == Automatic || m.mode == Controlled)
    && m.base.statements != []
    && forall s :: s in m.base.statements ==> s != ""
  }

  predicate RegistryValid(registry: Managed) {
    && registry != []
    && (forall i :: 0 <= i < |registry| ==> MigrationValid(registry[i], i + 1))
    && (forall i :: 0 <= i < |registry| && registry[i].mode == Controlled ==> registry[i].snapshotValid)
    && (forall i, j :: 0 <= i < j < |registry| && registry[i].mode == Controlled ==> registry[j].mode == Controlled)
  }

  function Only(registry: Managed, mode: Mode): Managed {
    if registry == [] then []
    else
      var before := Only(registry[..|registry| - 1], mode);
      if registry[|registry| - 1].mode == mode then before + [registry[|registry| - 1]] else before
  }

  function Bases(registry: Managed): (bases: Registry)
    ensures |bases| == |registry|
    ensures forall i :: 0 <= i < |registry| ==> bases[i] == registry[i].base
  {
    seq(|registry|, i requires 0 <= i < |registry| => registry[i].base)
  }

  /** None stands for the exception of an invalid registry. */
  method ValidateRegistry(registry: Managed) returns (validated: Option<Validated>)
    ensures validated.Some? <==> RegistryValid(registry)
    ensures validated.Some? ==> validated.value == Validated(registry, Only(registry, Automatic), Only(registry, Controlled))
  {
    if registry == [] { return None; }
    var controlledSeen := false;
    var index := 0;
    while index < |registry|
      invariant 0 <= index <= |registry|
      invariant forall i :: 0 <= i < index ==> MigrationValid(registry[i], i + 1)
      invariant forall i :: 0 <= i < index && registry[i].mode == Controlled ==> registry[i].snapshotValid
      invariant forall i, j :: 0 <= i < j < index && registry[i].mode == Controlled ==> registry[j].mode == Controlled
      invariant controlledSeen <==> exists i :: 0 <= i < index && registry[i].mode == Controlled
    {
      var migration := registry[index];
      if !MigrationValid(migration, index + 1) { return None; }
      if migration.mode == Controlled {
        controlledSeen := true;
        if !migration.snapshotValid { return None; }
      } else if controlledSeen {
        return None;
      }
      index := index + 1;
    }
    validated := Some(Validated(registry, Only(registry, Automatic), Only(registry, Controlled)));
  }

  predicate IsAppliedPrefix(registry: Managed, applied: seq<int>) {
    && |applied| <= |registry|
    && forall i :: 0 <= i < |applied| ==> applied[i] == registry[i].base.version
  }

  method AppliedPrefixLength(registry: Managed, applied: seq<int>) returns (length: Option<nat>)
    ensures length == if IsAppliedPrefix(registry, applied) then Some(|applied|) else None
  {
    if |applied| > |registry| { return None; }
    var index := 0;
    while index < |applied|
      invariant 0 <= index <= |applied|
      invariant forall i :: 0 <= i < index ==> applied[i] == registry[i].base.version
    {
      if applied[index] != registry[index].base.version { return None; }
      index := index + 1;
    }
    length := Some(|applied|);
  }

  /** The pending migrations of one mode; None stands for the exception of a failed check. */
  function PendingOf(registry: Managed, applied: seq<int>, mode: Mode): Option<Managed> {
    if RegistryValid(registry) && IsAppliedPrefix(registry, applied) then Some(Only(registry[|applied|..], mode)) else None
  }

  method PendingMigrations(registry: Managed, applied: seq<int>, mode: Mode) returns (pending: Option<Managed>)
    ensures pending == PendingOf(registry, applied, mode)
  {
    var validated := ValidateRegistry(registry);
    if validated.None? { return None; }
    var length := AppliedPrefixLength(registry, applied);
    if length.None? { return None; }
    pending := Some(Only(registry[length.value..], mode));
  }

  // ----- statuses against the whole registry

  function FullRegistryStatus(source: Status, registry: Managed): Status {
    source.(latest := if registry == [] then 0 else registry[|registry| - 1].base.version,
            pending := Missing(Bases(registry), source.applied))
  }

  function PendingProjection(source: Status, registry: Managed): Option<Status> {
    var full := FullRegistryStatus(source, registry);
    if full.state != Ready then Some(full)
    else
      var automatic := PendingOf(registry, full.applied, Automatic);
      var controlled := PendingOf(registry, full.applied, Controlled);
      if automatic.None? || controlled.None? then None
      else if automatic.value != [] || controlled.value == [] then Some(full)
      else Some(full.(state := Pending, error := SchemaMigrationPending))
  }

  function RegistryFailure(): Status {
    Status(Failed, 0, 0, [], [], MigrationRegistryInvalid)
  }

  function InspectManaged(registry: Managed, seen: Observation): Option<Status> {
    if !RegistryValid(registry) then Some(RegistryFailure())
    else PendingProjection(Inspect(seen, Bases(registry)), registry)
  }

  /**
   The managed ensure, given what its first inspection sees, how the ensure run on the automatic
   migrations ends, and what its last inspection sees. None stands for an escaping exception.
   */
  function EnsureManaged(registry: Managed, first: Observation, automaticRun: PlainStatus, last: Observation): Option<Status> {
    if !RegistryValid(registry) then Some(RegistryFailure())
    else
      var initial := FullRegistryStatus(Inspect(first, Bases(registry)), registry);
      var unmigrated := initial.state == Failed && initial.error == SchemaMigrationFailed && initial.applied == [];
      var automatic := PendingOf(registry, initial.applied, Automatic);
      if initial.state == Ready && automatic.None? then None
      else if initial.state == Ready && automatic.value == [] then PendingProjection(initial, registry)
      else if initial.state != Ready && !unmigrated then Some(initial)
      else if Only(registry, Automatic) == [] then PendingProjection(initial, registry)
      else if automaticRun.state != Ready then Some(FullRegistryStatus(automaticRun, registry))
      else PendingProjection(Inspect(last, Bases(registry)), registry)
  }

  // ----- the split

  lemma {:induction false} OnlyOfUniform(registry: Managed, mode: Mode)
    requires forall i :: 0 <= i < |registry| ==> registry[i].mode == mode
    ensures Only(registry, mode) == registry
    ensures forall other :: other != mode ==> Only(registry, other) == []
  {
    if registry != [] {
      OnlyOfUniform(registry[..|registry| - 1], mode);
    }
  }

  lemma {:induction false} OnlyHasMode(registry: Managed, mode: Mode)
    ensures forall m :: m in Only(registry, mode) ==> m.mode == mode && m in registry
    ensures Only(registry, mode) == [] ==> forall m :: m in registry ==> m.mode != mode
  {
    if registry != [] {
      OnlyHasMode(registry[..|registry| - 1], mode);
      assert registry == registry[..|registry| - 1] + [registry[|registry| - 1]];
    }
  }

  /** Automatic migrations come first, controlled ones after them, and there is nothing else. */
  lemma {:induction false} ModesPartition(registry: Managed)
    requires forall i :: 0 <= i < |registry| ==> registry[i].mode == Automatic || registry[i].mode == Controlled
    requires forall i, j :: 0 <= i < j < |registry| && registry[i].mode == Controlled ==> registry[j].mode == Controlled
    ensures registry == Only(registry, Automatic) + Only(registry, Controlled)
  {
    if registry != [] {
      var last := |registry| - 1;
      ModesPartition(registry[..last]);
      if registry[last].mode == Automatic {
        OnlyOfUniform(registry[..last], Automatic);
      }
    }
  }

  lemma ValidatedIsAutomaticThenControlled(registry: Managed)
    requires RegistryValid(registry)
    ensures registry == Only(registry, Automatic) + Only(registry, Controlled)
    ensures forall i :: 0 <= i < |registry| ==> (registry[i].mode == Automatic <==> i < |Only(registry, Automatic)|)
  {
    ModesPartition(registry);
    OnlyHasMode(registry, Automatic);
    OnlyHasMode(registry, Controlled);
    var a, c := Only(registry, Automatic), Only(registry, Controlled);
    forall i | 0 <= i < |registry| ensures registry[i].mode == Automatic <==> i < |a| {
      if i < |a| {
        assert registry[i] == a[i] && a[i] in a;
      } else {
        assert registry[i] == c[i - |a|] && c[i - |a|] in c;
      }
    }
  }

  lemma ValidAscends(registry: Managed)
    requires RegistryValid(registry)
    ensures Ascends(Bases(registry)) && DistinctVersions(Bases(registry))
  {
    forall i | 0 <= i < |registry| ensures Bases(registry)[i].version == i + 1 {
      assert MigrationValid(registry[i], i + 1);
    }
  }

  // ----- what a ready inspection guarantees

  /** A `ready` status lists a prefix of the registry, so the prefix check of the pending functions cannot fail. */
  lemma ReadyListsPrefix(registry: Managed, seen: Observation)
    requires RegistryValid(registry) && Inspect(seen, Bases(registry)).state == Ready
    ensures var applied := Inspect(seen, Bases(registry)).applied;
            && IsAppliedPrefix(registry, applied)
            && applied == Versions(Bases(registry))[..|applied|]
            && seen.Seen? && |seen.rows| == |applied|
  {
    var bases := Bases(registry);
    ValidAscends(registry);
    AcceptedVersions(seen.rows, bases);
  }

  lemma AcceptedVersions(rows: seq<Row>, registry: Registry)
    requires DistinctVersions(registry) && Validate(rows, registry) == Accepted
    ensures |rows| <= |registry| && Sort(RowVersions(rows)) == Versions(registry)[..|rows|]
  {
    AcceptedIsPrefix(rows, registry);
    SortRowsSorts(rows);
    var sorted := SortRows(rows);
    forall i | 0 <= i < |rows| ensures RowVersions(sorted)[i] == registry[i].version {
      assert sorted[i] == RowsOf(registry[..|rows|])[i];
    }
  }

  lemma VersionInPrefix(registry: Registry, n: nat, k: nat)
    requires Ascends(registry) && n <= |registry| && k < |registry|
    ensures registry[k].version in Versions(registry)[..n] <==> k < n
  {
    var vs := Versions(registry)[..n];
    if k < n {
      assert vs[k] == registry[k].version;
    } else {
      assert forall i :: 0 <= i < n ==> vs[i] == registry[i].version;
    }
  }

  lemma MissingLast(registry: Registry, applied: seq<int>, k: nat)
    requires 0 < k <= |registry|
    ensures Missing(registry[..k], applied)
         == Missing(registry[..k - 1], applied) + if registry[k - 1].version in applied then [] else [registry[k - 1].version]
  {
    assert registry[..k][..k - 1] == registry[..k - 1];
  }

  lemma {:induction false} MissingOfPrefix(registry: Registry, applied: seq<int>, n: nat, k: nat)
    requires n <= |registry| && k <= |registry|
    requires forall j :: 0 <= j < |registry| ==> (registry[j].version in applied <==> j < n)
    ensures Missing(registry[..k], applied) == Versions(registry)[Min(n, k)..k]
  {
    if k > 0 {
      var all := Versions(registry);
      MissingOfPrefix(registry, applied, n, k - 1);
      MissingLast(registry, applied, k);
      assert registry[k - 1].version in applied <==> k - 1 < n;
      if n < k {
        assert all[n..k] == all[n..k - 1] + [all[k - 1]];
      }
    }
  }

  lemma FullStatusOfPrefix(registry: Managed, source: Status)
    requires RegistryValid(registry) && IsAppliedPrefix(registry, source.applied)
    ensures var n, all := |source.applied|, Versions(Bases(registry));
            source.applied == all[..n] && FullRegistryStatus(source, registry).pending == all[n..]
  {
    var bases, n := Bases(registry), |source.applied|;
    ValidAscends(registry);
    assert source.applied == Versions(bases)[..n];
    forall j | 0 <= j < |bases| ensures bases[j].version in source.applied <==> j < n {
      VersionInPrefix(bases, n, j);
    }
    MissingOfPrefix(bases, source.applied, n, |bases|);
    assert bases[..|bases|] == bases;
  }

  /** What a final status of the managed functions may claim. */
  predicate HonestStatus(status: Status, registry: Managed) {
    var all := Versions(Bases(registry));
    && (status.state == Ready ==> status.pending == [] && status.applied == all)
    && (status.state == Pending ==>
         var n := |status.applied|;
         && |Only(registry, Automatic)| <= n < |registry|
         && status.applied == all[..n] && status.pending == all[n..]
         && forall i :: n <= i < |registry| ==> registry[i].mode == Controlled)
  }

  /** The projection of a ready status is honest exactly when its applied versions cover the automatic migrations. */
  lemma ProjectionIsHonest(registry: Managed, source: Status)
    requires RegistryValid(registry)
    requires source.state == Ready && IsAppliedPrefix(registry, source.applied)
    ensures PendingProjection(source, registry).Some?
    ensures HonestStatus(PendingProjection(source, registry).value, registry) <==> |Only(registry, Automatic)| <= |source.applied|
  {
    var n := |source.applied|;
    FullStatusOfPrefix(registry, source);
    NoAutomaticPending(registry, source.applied);
    if |Only(registry, Automatic)| <= n {
      SuffixIsControlled(registry, n);
    } else {
      assert Versions(Bases(registry))[n..] != [];
    }
  }

  /**
   So the managed inspection can be taken at its word exactly when it is not `ready` in the first place
   or its own answer lists at least as many applied versions as there are automatic migrations.
   */
  lemma InspectionIsHonestExactly(registry: Managed, seen: Observation)
    requires RegistryValid(registry)
    ensures var source, answer := Inspect(seen, Bases(registry)), InspectManaged(registry, seen);
            && answer.Some?
            && (HonestStatus(answer.value, registry)
                <==> source.state != Ready || |Only(registry, Automatic)| <= |answer.value.applied|)
  {
    var source := Inspect(seen, Bases(registry));
    if source.state == Ready {
      ReadyListsPrefix(registry, seen);
      ProjectionIsHonest(registry, source);
      ProjectionKeepsApplied(registry, source);
    } else {
      UnreadyIsHonest(registry, seen);
    }
  }

  lemma ProjectionKeepsApplied(registry: Managed, source: Status)
    requires PendingProjection(source, registry).Some?
    ensures PendingProjection(source, registry).value.applied == source.applied
  {
  }

  /** The plain inspection never answers pending. */
  lemma UnreadyIsHonest(registry: Managed, seen: Observation)
    requires RegistryValid(registry) && Inspect(seen, Bases(registry)).state != Ready
    ensures InspectManaged(registry, seen).Some? && HonestStatus(InspectManaged(registry, seen).value, registry)
  {
  }

  lemma SuffixIsControlled(registry: Managed, n: nat)
    requires RegistryValid(registry) && |Only(registry, Automatic)| <= n <= |registry|
    ensures forall i :: n <= i < |registry| ==> registry[i].mode == Controlled
    ensures Only(registry[n..], Controlled) == registry[n..] && Only(registry[n..], Automatic) == []
  {
    ValidatedIsAutomaticThenControlled(registry);
    forall i | n <= i < |registry| ensures registry[i].mode == Controlled {
      assert MigrationValid(registry[i], i + 1);
    }
    OnlyOfUniform(registry[n..], Controlled);
  }

  lemma {:induction false} OnlyOfNone(registry: Managed, mode: Mode)
    requires forall m :: m in registry ==> m.mode != mode
    ensures Only(registry, mode) == []
  {
    if registry != [] {
      OnlyOfNone(registry[..|registry| - 1], mode);
    }
  }

  /** No automatic migration is pending exactly when the applied prefix covers all automatic ones. */
  lemma NoAutomaticPending(registry: Managed, applied: seq<int>)
    requires RegistryValid(registry) && IsAppliedPrefix(registry, applied)
    ensures Only(registry[|applied|..], Automatic) == [] <==> |Only(registry, Automatic)| <= |applied|
  {
    var rest := registry[|applied|..];
    ValidatedIsAutomaticThenControlled(registry);
    OnlyHasMode(rest, Automatic);
    if |Only(registry, Automatic)| <= |applied| {
      forall m | m in rest ensures m.mode != Automatic {
        var i :| 0 <= i < |rest| && rest[i] == m;
        assert rest[i] == registry[|applied| + i];
      }
      OnlyOfNone(rest, Automatic);
    } else {
      assert rest[0] == registry[|applied|] && rest[0] in rest;
    }
  }

  /** When the first inspection is ready its pending check passes, and nothing automatic pending ends the matter honestly. */
  lemma ReadyFirstInspection(registry: Managed, first: Observation)
    requires RegistryValid(registry) && Inspect(first, Bases(registry)).state == Ready
    ensures var initial := FullRegistryStatus(Inspect(first, Bases(registry)), registry);
            && PendingOf(registry, initial.applied, Automatic).Some?
            && (PendingOf(registry, initial.applied, Automatic).value == [] || Only(registry, Automatic) == [] ==>
                  PendingProjection(initial, registry).Some? && HonestStatus(PendingProjection(initial, registry).value, registry))
  {
    var initial := FullRegistryStatus(Inspect(first, Bases(registry)), registry);
    ReadyListsPrefix(registry, first);
    NoAutomaticPending(registry, initial.applied);
    if Only(registry[|initial.applied|..], Automatic) == [] {
      ProjectionIsHonest(registry, initial);
    }
  }

  lemma NotReadyIsHonest(registry: Managed, source: PlainStatus)
    requires source.state != Ready
    ensures var full := FullRegistryStatus(source, registry);
            HonestStatus(full, registry) && PendingProjection(full, registry) == Some(full)
  {
  }

  /** An honest last inspection makes every path of the managed ensure honest. */
  lemma EnsureManagedPaths(registry: Managed, first: Observation, automaticRun: PlainStatus, last: Observation)
    requires RegistryValid(registry)
    requires automaticRun.state == Ready ==>
               InspectManaged(registry, last).Some? && HonestStatus(InspectManaged(registry, last).value, registry)
    ensures var result := EnsureManaged(registry, first, automaticRun, last);
            result.Some? && HonestStatus(result.value, registry)
  {
    if Inspect(first, Bases(registry)).state == Ready {
      ReadyFirstInspection(registry, first);
    } else {
      NotReadyIsHonest(registry, Inspect(first, Bases(registry)));
    }
    if automaticRun.state != Ready {
      NotReadyIsHonest(registry, automaticRun);
    }
  }

  lemma LastInspectionIsHonest(registry: Managed, ttl: int, s: State, events: seq<Event>, o: Owner, last: Observation)
    requires RegistryValid(registry) && Initial(s, Bases(registry))
    requires var t := Execution(Bases(registry), ttl, s, events);
             o in t.runs && t.runs[o].size == |Only(registry, Automatic)| && t.runs[o].phase.Ended? && t.runs[o].phase.status.state == Ready
             && (last.Seen? ==> last.rows == t.db.journal)
    ensures var result := InspectManaged(registry, last);
            result.Some? && HonestStatus(result.value, registry)
  {
    ValidAscends(registry);
    ReadyRunCoversRegistry(Bases(registry), ttl, s, events, o);
    var status := Inspect(last, Bases(registry));
    if status.state == Ready {
      ReadyListsPrefix(registry, last);
      ProjectionIsHonest(registry, status);
    } else {
      UnreadyIsHonest(registry, last);
    }
  }

  /**
   The managed ensure never lets an exception of the prefix check escape. Its automatic run and its
   last inspection, which sees the journal of that moment or fails, take place in one execution of the
   protocol; `ready` then means that every
   version is applied, and `pending` that exactly a non-empty controlled suffix is missing.
   */
  lemma EnsureManagedIsHonest(registry: Managed, ttl: int, s: State, events: seq<Event>, o: Owner,
                              first: Observation, last: Observation)
    requires RegistryValid(registry) && Initial(s, Bases(registry))
    requires var t := Execution(Bases(registry), ttl, s, events);
             o in t.runs && t.runs[o].size == |Only(registry, Automatic)| && t.runs[o].phase.Ended?
             && (last.Seen? ==> last.rows == t.db.journal)
    ensures var t := Execution(Bases(registry), ttl, s, events);
            var result := EnsureManaged(registry, first, t.runs[o].phase.status, last);
            && result.Some?
            && HonestStatus(result.value, registry)
  {
    var t := Execution(Bases(registry), ttl, s, events);
    if t.runs[o].phase.status.state == Ready {
      LastInspectionIsHonest(registry, ttl, s, events, o, last);
    }
    EnsureManagedPaths(registry, first, t.runs[o].phase.status, last);
  }

  /**
   As long as only managed ensures run, every row journaled beyond those of the start is an automatic
   migration's, whatever the start had journaled already.
   */
  lemma ControlledIsNeverJournaled(registry: Managed, ttl: int, s: State, events: seq<Event>)
    requires RegistryValid(registry) && Initial(s, Bases(registry))
    requires forall k :: 0 <= k < |events| && events[k].Spawn? ==> events[k].size == |Only(registry, Automatic)|
    ensures var journal := Execution(Bases(registry), ttl, s, events).db.journal;
            && s.db.journal <= journal && |journal| <= |registry|
            && forall k :: |s.db.journal| <= k < |journal| ==> journal[k] == RowOf(registry[k].base) && registry[k].mode == Automatic
  {
    ValidAscends(registry);
    ValidatedIsAutomaticThenControlled(registry);
    JournalIsAlwaysAPrefix(Bases(registry), ttl, s, events);
    BoundedRunsStayBounded(Bases(registry), ttl, s, events, |Only(registry, Automatic)|);
    var journal := Execution(Bases(registry), ttl, s, events).db.journal;
    forall k | 0 <= k < |journal| ensures journal[k] == RowOf(registry[k].base) {
      assert journal[k] == RowsOf(Bases(registry)[..|journal|])[k];
    }
  }

  /** Inspection alone is weaker: it reports `ready` on an empty journal although an automatic migration is pending. */
  lemma InspectionMayReportReadyTooEarly()
    ensures var registry := [ManagedMigration(Migration(1, "baseline", "c1", ["s"], [], []), Automatic, true)];
            && RegistryValid(registry)
            && InspectManaged(registry, Seen([], false)) == Some(Status(Ready, 0, 1, [], [1], NoError))
  {
    var registry := [ManagedMigration(Migration(1, "baseline", "c1", ["s"], [], []), Automatic, true)];
    assert MigrationValid(registry[0], 1);
    var bases := Bases(registry);
    assert Validate([], bases) == Accepted by {
      assert RowVersions([]) == [];
      assert Versions(bases[..0]) == [];
    }
    assert Missing(bases, []) == [1] by { assert Missing(bases[..0], []) == []; }
    assert Only(registry[0..], Automatic) != [];
    assert Latest(bases) == 1 by { assert Latest(bases[..0]) == 0; }
  }
}
