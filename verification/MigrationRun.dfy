/**
 Any number of processes running `runPortalSchemaEnsure` against one database, as a transition
 system. One step is one SQL statement, one atomic batch, or one read; a process reads the clock
 when the step before it ends, so its statement may execute arbitrarily later with an old time.
 A process that is never scheduled again has crashed. A statement may fail before it takes effect,
 or take effect and still be reported as failed.

 `master` is the registry all releases share; a process runs on its first `size` migrations.
 A created schema object is represented by the statement that creates it.
 */
module MigrationRun {
  import opened Prelude
  import opened MigrationJournal
  import opened MigrationLock

  datatype Database = Database(journal: seq<Row>, lock: Option<LockRow>, objects: set<string>)

  datatype ApplyStep = RenewTables | Tables | RenewPreflight | Preflight | RenewSecondary
                     | SecondaryPreflight | RenewCommit | Commit | RenewAfter

  /** `at` is a clock reading taken when the phase was entered. */
  datatype Phase = Starting(attempts: nat)
                 | Deleting(attempts: nat, at: int)
                 | Inserting(attempts: nat, at: int)
                 | Reading
                 | Applying(i: nat, step: ApplyStep, at: int)
                 | FinalRenew(at: int)
                 | Inspecting
                 | Releasing(status: PlainStatus)
                 | Ended(status: PlainStatus)

  datatype Run = Run(size: nat, phase: Phase, applied: set<int>, renewedAt: int)

  datatype Fault = Clean | BeforeEffect | AfterEffect

  datatype State = State(db: Database, clock: int, runs: map<Owner, Run>)

  datatype Event = Spawn(owner: Owner, size: nat, attempts: nat)
                 | Act(owner: Owner, delay: nat, fault: Fault, drift: bool)

  // ----- statements on the database

  function ToSet(statements: seq<string>): set<string> {
    set s | s in statements
  }

  function Execute(db: Database, statements: seq<string>): Database {
    db.(objects := db.objects + ToSet(statements))
  }

  /** The primary key of the journal table. */
  predicate Journaled(db: Database, version: int) {
    version in RowVersions(db.journal)
  }

  function CommitStatements(m: Migration): seq<string> {
    if m.tableStatements != [] then m.secondaryStatements else m.statements
  }

  /** The batch that ends a migration: statements and journal row together, or nothing at all. */
  function CommitBatch(db: Database, m: Migration): Option<Database> {
    if Journaled(db, m.version) then None
    else Some(Execute(db, CommitStatements(m)).(journal := InsertRow(RowOf(m), db.journal)))
  }

  // ----- one process

  function FirstStep(m: Migration): ApplyStep {
    if m.tableStatements != [] then RenewTables else RenewCommit
  }

  function NextStep(step: ApplyStep): ApplyStep
    requires step != RenewAfter
  {
    match step
    case RenewTables => Tables
    case Tables => RenewPreflight
    case RenewPreflight => Preflight
    case Preflight => RenewSecondary
    case RenewSecondary => SecondaryPreflight
    case SecondaryPreflight => RenewCommit
    case RenewCommit => Commit
    case Commit => RenewAfter
  }

  predicate IsRenewal(step: ApplyStep) {
    step in {RenewTables, RenewPreflight, RenewSecondary, RenewCommit, RenewAfter}
  }

  predicate IsBatch(phase: Phase) {
    phase.Applying? && phase.step in {Tables, Commit}
  }

  /** The loop over the registry: skip what is applied, then start the next migration or finish. */
  function Advance(registry: Registry, applied: set<int>, i: nat, clock: int): Phase
    decreases |registry| - i
  {
    if i >= |registry| then FinalRenew(clock)
    else if registry[i].version in applied then Advance(registry, applied, i + 1, clock)
    else Applying(i, FirstStep(registry[i]), clock)
  }

  function FailedStatus(registry: Registry): PlainStatus {
    BareStatus(registry, Failed, SchemaMigrationFailed)
  }

  function BusyStatus(registry: Registry): PlainStatus {
    BareStatus(registry, Busy, SchemaMigrationBusy)
  }

  function RunStep(registry: Registry, ttl: int, db: Database, clock: int, owner: Owner, run: Run, fault: Fault, drift: bool)
    : (Database, Run)
  {
    var failed := Releasing(FailedStatus(registry));
    match run.phase
    case Starting(n) =>
      (db, run.(phase := if fault == Clean then Deleting(n, clock) else Ended(FailedStatus(registry))))
    case Deleting(n, at) =>
      (if fault == BeforeEffect then db else db.(lock := DeleteOlder(db.lock, at - ttl)),
       run.(phase := if fault == Clean then Inserting(n, at) else Ended(FailedStatus(registry))))
    case Inserting(n, at) =>
      var (row, inserted) := InsertIfFree(db.lock, owner, at);
      (if fault == BeforeEffect then db else db.(lock := row),
       if fault != Clean then run.(phase := Ended(FailedStatus(registry)))
       else if inserted then run.(phase := Reading, renewedAt := at)
       else run.(phase := if n > 1 then Deleting(n - 1, clock) else Ended(BusyStatus(registry))))
    case Reading =>
      if fault != Clean then (db, run.(phase := failed))
      else if Validate(db.journal, registry) != Accepted
      then (db, run.(phase := Releasing(Inspect(Seen(db.journal, false), registry))))
      else
        var applied := set v | v in RowVersions(db.journal);
        (db, run.(phase := Advance(registry, applied, 0, clock), applied := applied))
    case Applying(i, step, at) =>
      if i >= |registry| then (db, run.(phase := failed))
      else ApplyStepOf(registry, db, clock, owner, run, i, step, at, fault, drift)
    case FinalRenew(at) =>
      var (row, ok) := Renewed(db.lock, owner, at);
      (if fault == BeforeEffect then db else db.(lock := row),
       if fault != Clean then run.(phase := failed)
       else if ok then run.(phase := Inspecting, renewedAt := at)
       else run.(phase := Releasing(BusyStatus(registry))))
    case Inspecting =>
      (db, run.(phase := Releasing(Inspect(if fault == Clean then Seen(db.journal, drift) else Throws, registry))))
    case Releasing(status) =>
      (if fault == BeforeEffect then db else db.(lock := Released(db.lock, owner)), run.(phase := Ended(status)))
    case Ended(_) => (db, run)
  }

  function ApplyStepOf(registry: Registry, db: Database, clock: int, owner: Owner, run: Run,
                       i: nat, step: ApplyStep, at: int, fault: Fault, drift: bool): (Database, Run)
    requires i < |registry|
  {
    var m := registry[i];
    var failed := run.(phase := Releasing(FailedStatus(registry)));
    if IsRenewal(step) then
      var (row, ok) := Renewed(db.lock, owner, at);
      (if fault == BeforeEffect then db else db.(lock := row),
       if fault != Clean then failed
       else if !ok then run.(phase := Releasing(BusyStatus(registry)))
       else if step == RenewAfter
       then run.(phase := Advance(registry, run.applied + {m.version}, i + 1, clock), applied := run.applied + {m.version}, renewedAt := at)
       else run.(phase := Applying(i, NextStep(step), clock), renewedAt := at))
    else if step == Tables then
      (if fault == BeforeEffect then db else Execute(db, m.tableStatements),
       if fault != Clean then failed else run.(phase := Applying(i, RenewPreflight, clock)))
    else if step == Commit then
      var batch := CommitBatch(db, m);
      (if fault == BeforeEffect || batch.None? then db else batch.value,
       if fault != Clean || batch.None? then failed else run.(phase := Applying(i, RenewAfter, clock)))
    else
      (db,
       if fault != Clean then failed
       else if drift then run.(phase := Releasing(JournalStatus(registry, Incompatible, db.journal, SchemaIncompatibleDrift)))
       else run.(phase := Applying(i, NextStep(step), clock)))
  }

  lemma RunStepKeepsSize(registry: Registry, ttl: int, db: Database, clock: int, owner: Owner, run: Run, fault: Fault, drift: bool)
    ensures RunStep(registry, ttl, db, clock, owner, run, fault, drift).1.size == run.size
  {
  }

  // ----- all processes

  function Step(master: Registry, ttl: int, s: State, event: Event): State {
    match event
    case Spawn(owner, size, attempts) =>
      if owner in s.runs || size > |master| || (s.db.lock.Some? && s.db.lock.value.owner == owner) then s
      else s.(runs := s.runs[owner := Run(size, Starting(attempts), {}, 0)])
    case Act(owner, delay, fault, drift) =>
      var clock := s.clock + delay;
      if owner !in s.runs || s.runs[owner].size > |master| then s.(clock := clock)
      else
        var run := s.runs[owner];
        var (db, next) := RunStep(master[..run.size], ttl, s.db, clock, owner, run, fault, drift);
        State(db, clock, s.runs[owner := next])
  }

  function Execution(master: Registry, ttl: int, s: State, events: seq<Event>): State {
    if events == [] then s
    else Step(master, ttl, Execution(master, ttl, s, events[..|events| - 1]), events[|events| - 1])
  }
}
