/**
 One ensure run as the imperative code it is, on a database nobody else touches once the lock is
 taken. Where `MigrationSafety` says what no interleaving can break, this module says what a run
 that is left alone achieves: everything pending is applied in order, and a second run changes nothing.
 */
module MigrationEnsure {
  import opened Prelude
  import opened MigrationJournal
  import opened MigrationLock
  import opened MigrationRun
  import opened MigrationSafety

  /** How applying one migration ends: done, stopped with a status, or an exception. */
  datatype Application = Applied | Stopped(status: Status) | Threw

  class PortalDatabase {
    var journal: seq<Row>
    var objects: set<string>
    const lockTable: PortalSchemaLock

    constructor (rows: seq<Row>, present: set<string>, row: Option<LockRow>)
      ensures Contents() == Database(rows, row, present) && fresh(lockTable)
    {
      journal := rows;
      objects := present;
      lockTable := new PortalSchemaLock(row);
    }

    function Contents(): Database
      reads this, lockTable
    {
      Database(journal, lockTable.row, objects)
    }

    predicate HeldBy(owner: Owner)
      reads this, lockTable
    {
      lockTable.row.Some? && lockTable.row.value.owner == owner
    }

    method Execute(statements: seq<string>)
      modifies this`objects
      ensures objects == old(objects) + ToSet(statements)
    {
      objects := objects + set s | s in statements;
    }

    /** The atomic batch that ends a migration; it throws on the primary key and then changes nothing. */
    method Commit(m: Migration) returns (ok: bool)
      modifies this
      ensures ok <==> CommitBatch(old(Contents()), m).Some?
      ensures Contents() == if ok then CommitBatch(old(Contents()), m).value else old(Contents())
    {
      ok := m.version !in RowVersions(journal);
      if ok {
        Execute(CommitStatements(m));
        journal := InsertRow(RowOf(m), journal);
      }
    }

    /** `drift` is what the inspections of this migration's snapshot find. */
    method ApplyMigration(m: Migration, owner: Owner, registry: Registry, now: int, drift: bool) returns (outcome: Application)
      modifies this, lockTable
      ensures !old(HeldBy(owner)) ==> Contents() == old(Contents()) && outcome == Stopped(BusyStatus(registry))
      ensures old(HeldBy(owner)) ==> HeldBy(owner)
      ensures outcome.Applied? ==> (CommitBatch(old(Contents()), m).Some?
              && journal == CommitBatch(old(Contents()), m).value.journal
              && objects == old(objects) + ObjectsOf(m))
      ensures !outcome.Applied? ==> (journal == old(journal)
              && (objects == old(objects) || objects == old(objects) + ToSet(m.tableStatements)))
      ensures old(HeldBy(owner)) ==>
              (outcome.Applied? <==> CommitBatch(old(Contents()), m).Some? && (m.tableStatements == [] || !drift))
      ensures outcome.Stopped? ==> outcome.status.state in {Busy, Incompatible}
    {
      var held := lockTable.Renew(owner, now);
      if !held { return Stopped(BusyStatus(registry)); }
      if m.tableStatements != [] {
        Execute(m.tableStatements);
        held := lockTable.Renew(owner, now);
        if !held { return Stopped(BusyStatus(registry)); }
        if drift { return Stopped(JournalStatus(registry, Incompatible, journal, SchemaIncompatibleDrift)); }
        held := lockTable.Renew(owner, now);
        if !held { return Stopped(BusyStatus(registry)); }
        held := lockTable.Renew(owner, now);
        if !held { return Stopped(BusyStatus(registry)); }
      }
      var committed := Commit(m);
      if !committed { return Threw; }
      held := lockTable.Renew(owner, now);
      if !held { return Stopped(BusyStatus(registry)); }
      outcome := Applied;
    }

    /**
     `readings` and `others` are the clock and the interference while the lock is awaited; from then
     on the run is alone. A run that gets the lock on a valid journal without drift ends `ready` with
     the whole registry journaled in order, exactly the pending objects added and the lock released.
     */
    method Ensure(registry: Registry, owner: Owner, ttl: int, readings: seq<int>, others: seq<Option<LockRow>>, drift: bool)
      returns (status: Status)
      requires Ascends(registry) && |readings| >= 1 && |others| == |readings| - 1
      requires Ascending(RowVersions(journal))
      modifies this, lockTable
      ensures !(exists k :: 0 <= k < |readings| && Free(SeenBy(old(lockTable.row), others, k), readings[k], ttl))
              ==> status == BusyStatus(registry) && journal == old(journal) && objects == old(objects)
      ensures (exists k :: 0 <= k < |readings| && Free(SeenBy(old(lockTable.row), others, k), readings[k], ttl))
              ==> lockTable.row.None? && Outcome(old(Contents()), Contents(), registry, drift, status)
    {
      var acquired := lockTable.Acquire(owner, |readings|, ttl, readings, others);
      if !acquired { return BusyStatus(registry); }
      status := EnsureLocked(registry, owner, readings[0], drift);
      lockTable.Release(owner);
    }

    method EnsureLocked(registry: Registry, owner: Owner, now: int, drift: bool) returns (status: Status)
      requires Ascends(registry) && HeldBy(owner) && Ascending(RowVersions(journal))
      modifies this, lockTable
      ensures HeldBy(owner)
      ensures Outcome(old(Contents()), Contents(), registry, drift, status)
    {
      FirstLook(Contents(), registry);
      if Validate(journal, registry) != Accepted {
        return Inspect(Seen(journal, false), registry);
      }
      var failure := ApplyPending(registry, owner, now, drift);
      if failure.Some? { return failure.value; }
      var held := lockTable.Renew(owner, now);
      if !held { return BusyStatus(registry); }
      LastLook(Contents(), registry, drift);
      status := Inspect(Seen(journal, drift), registry);
    }

    /** One turn of the loop, on the first migration that is not journaled. */
    method ApplyNext(registry: Registry, i: nat, owner: Owner, now: int, drift: bool) returns (failure: Option<Status>)
      requires Ascends(registry) && HeldBy(owner) && JournalPrefix(Contents(), registry)
      requires i == |journal| < |registry|
      modifies this, lockTable
      ensures HeldBy(owner) && JournalPrefix(Contents(), registry) && old(journal) <= journal
      ensures failure.None? ==> |journal| == i + 1 && objects == old(objects) + ObjectsOf(registry[i])
      ensures failure.Some? ==> drift && failure.value.state != Ready
    {
      CommitKeepsPrefix(Contents(), registry, i);
      var outcome := ApplyMigration(registry[i], owner, registry, now, drift);
      if outcome.Stopped? { return Some(outcome.status); }
      if outcome.Threw? { return Some(FailedStatus(registry)); }
      failure := None;
    }

    method ApplyPending(registry: Registry, owner: Owner, now: int, drift: bool) returns (failure: Option<Status>)
      requires Ascends(registry) && HeldBy(owner) && JournalPrefix(Contents(), registry)
      modifies this, lockTable
      ensures HeldBy(owner)
      ensures JournalPrefix(Contents(), registry) && old(journal) <= journal
      ensures failure.None? ==> |journal| == |registry|
      ensures failure.None? ==> objects == old(objects) + ObjectsBetween(registry, |old(journal)|, |registry|)
      ensures failure.Some? ==> drift && failure.value.state != Ready
    {
      ghost var start := |journal|;
      var applied := set v | v in RowVersions(journal);
      AppliedVersions(Contents(), registry);
      var i := 0;
      while i < |registry|
        invariant 0 <= i <= |registry|
        invariant HeldBy(owner)
        invariant JournalPrefix(Contents(), registry) && old(journal) <= journal
        invariant |journal| == Max(start, i)
        invariant applied == VersionSet(registry, |journal|)
        invariant objects == old(objects) + ObjectsBetween(registry, start, |journal|)
      {
        var m := registry[i];
        NotYetApplied(registry, |journal|, i);
        if m.version !in applied {
          failure := ApplyNext(registry, i, owner, now, drift);
          if failure.Some? { return; }
          applied := applied + {m.version};
        }
        i := i + 1;
      }
      failure := None;
    }
  }

  /** What a run that holds the lock, undisturbed, makes of the database. */
  predicate Outcome(before: Database, after: Database, registry: Registry, drift: bool, status: Status) {
    if JournalPrefix(before, registry) then
      && JournalPrefix(after, registry) && before.journal <= after.journal
      && (drift <==> status.state != Ready)
      && (!drift ==> status == JournalStatus(registry, Ready, RowsOf(registry), NoError)
                     && after.journal == RowsOf(registry)
                     && after.objects == before.objects + ObjectsBetween(registry, |before.journal|, |registry|))
    else status.state == Failed && after.journal == before.journal && after.objects == before.objects
  }

  lemma AcceptedMeansPrefix(db: Database, registry: Registry)
    requires Ascends(registry) && Ascending(RowVersions(db.journal))
    ensures JournalPrefix(db, registry) <==> Validate(db.journal, registry) == Accepted
  {
    SortRowsOfAscending(db.journal);
    AcceptedExactlyPrefixes(db.journal, registry);
  }

  lemma FirstLook(db: Database, registry: Registry)
    requires Ascends(registry) && Ascending(RowVersions(db.journal))
    ensures JournalPrefix(db, registry) <==> Validate(db.journal, registry) == Accepted
    ensures Validate(db.journal, registry) != Accepted ==> Inspect(Seen(db.journal, false), registry).state == Failed
  {
    AcceptedMeansPrefix(db, registry);
  }

  lemma LastLook(db: Database, registry: Registry, drift: bool)
    requires Ascends(registry) && JournalPrefix(db, registry) && |db.journal| == |registry|
    ensures db.journal == RowsOf(registry)
    ensures var status := Inspect(Seen(db.journal, drift), registry);
            && (drift <==> status.state != Ready)
            && (!drift ==> status == JournalStatus(registry, Ready, RowsOf(registry), NoError))
  {
    assert registry[..|registry|] == registry;
    ValidatePrefix(db, registry, |registry|);
  }

  lemma AppliedVersions(db: Database, registry: Registry)
    requires JournalPrefix(db, registry)
    ensures (set v | v in RowVersions(db.journal)) == VersionSet(registry, |db.journal|)
  {
    var versions := RowVersions(db.journal);
    forall k | 0 <= k < |db.journal| ensures versions[k] == registry[k].version {
      assert db.journal[k] == RowOf(registry[k]);
    }
    forall v | v in VersionSet(registry, |db.journal|) ensures v in versions {
      var k :| 0 <= k < |db.journal| && registry[k].version == v;
      assert versions[k] == v;
    }
  }

  lemma NotYetApplied(registry: Registry, n: nat, i: nat)
    requires Ascends(registry) && n <= |registry| && i < |registry|
    ensures registry[i].version in VersionSet(registry, n) <==> i < n
  {
  }
}
