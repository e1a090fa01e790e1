/**
 Safety of the migration protocol over every interleaving: the journal stays an initial segment of
 the registry, the schema never runs ahead of the journal by more than the tables of one migration,
 and a process reports `ready` only when all its migrations are journaled.

 None of this relies on the lock: the atomic batch, the primary key and the prefix check carry it.
 */
module MigrationSafety {
  import opened Prelude
  import opened MigrationJournal
  import opened MigrationLock
  import opened MigrationRun

  /** What a validated registry guarantees about versions. */
  predicate Ascends(master: Registry) {
    forall i, j :: 0 <= i < j < |master| ==> master[i].version < master[j].version
  }

  predicate JournalPrefix(db: Database, master: Registry) {
    && |db.journal| <= |master|
    && db.journal == RowsOf(master[..|db.journal|])
  }

  function VersionSet(master: Registry, n: nat): set<int>
    requires n <= |master|
  {
    set k | 0 <= k < n :: master[k].version
  }

  /** The objects a fully applied migration leaves behind. */
  function ObjectsOf(m: Migration): set<string> {
    if m.tableStatements != [] then ToSet(m.tableStatements) + ToSet(m.secondaryStatements) else ToSet(m.statements)
  }

  /** The objects of migrations number `from` up to, not including, number `to`. */
  function ObjectsBetween(master: Registry, from: nat, to: nat): set<string>
    requires from <= to <= |master|
  {
    if from == to then {} else ObjectsBetween(master, from, to - 1) + ObjectsOf(master[to - 1])
  }

  function TablesOfNext(master: Registry, n: nat): set<string>
    requires n <= |master|
  {
    if n == |master| then {} else ToSet(master[n].tableStatements)
  }

  predicate TablesDone(step: ApplyStep) {
    step !in {RenewTables, Tables}
  }

  predicate OnlyTwoPhase(step: ApplyStep) {
    step !in {RenewCommit, Commit, RenewAfter}
  }

  predicate FullStatus(status: Status, master: Registry, size: nat)
    requires size <= |master|
  {
    status.pending == [] && status.applied == Versions(master[..size])
  }

  /** What a process has already done never exceeds what the database holds. */
  predicate Behind(run: Run, db: Database, master: Registry) {
    && run.size <= |master|
    && match run.phase
       case Applying(i, step, _) =>
         && i < run.size && i <= |db.journal|
         && (step == RenewAfter ==> i < |db.journal|)
         && run.applied == VersionSet(master, i)
         && (OnlyTwoPhase(step) ==> master[i].tableStatements != [])
         && (TablesDone(step) ==> ToSet(master[i].tableStatements) <= db.objects)
       case FinalRenew(_) => run.size <= |db.journal|
       case Inspecting => run.size <= |db.journal|
       case Releasing(status) => status.state == Ready ==> run.size <= |db.journal| && FullStatus(status, master, run.size)
       case Ended(status) => status.state == Ready ==> run.size <= |db.journal| && FullStatus(status, master, run.size)
       case _ => true
  }

  /**
   The objects are those of the start, those of every migration journaled since, and at most the next
   one's tables beyond that.
   */
  predicate SchemaInStep(db: Database, master: Registry, start: Database) {
    && |start.journal| <= |db.journal| <= |master|
    && var sinceStart := start.objects + ObjectsBetween(master, |start.journal|, |db.journal|);
       sinceStart <= db.objects <= sinceStart + TablesOfNext(master, |db.journal|)
  }

  predicate Safe(s: State, master: Registry) {
    && JournalPrefix(s.db, master)
    && forall o :: o in s.runs ==> Behind(s.runs[o], s.db, master)
  }

  /** A process applies no migration below number `n`. */
  predicate Since(run: Run, n: nat) {
    run.phase.Applying? ==> run.phase.i >= n
  }

  predicate SchemaSafe(s: State, master: Registry, start: Database) {
    SchemaInStep(s.db, master, start) && forall o :: o in s.runs ==> Since(s.runs[o], |start.journal|)
  }

  /** No process has started yet; the journal is any journal that validation accepts, whatever objects exist. */
  predicate Initial(s: State, master: Registry) {
    && s.runs == map[]
    && Ascending(RowVersions(s.db.journal))
    && Validate(s.db.journal, master) == Accepted
  }

  // ----- the journal

  lemma JournalVersions(db: Database, master: Registry, i: nat)
    requires Ascends(master) && JournalPrefix(db, master) && i < |master|
    ensures Journaled(db, master[i].version) <==> i < |db.journal|
  {
    if i < |db.journal| {
      assert RowVersions(db.journal)[i] == master[i].version;
    } else {
      forall k | 0 <= k < |db.journal| ensures RowVersions(db.journal)[k] < master[i].version {
        assert db.journal[k] == RowOf(master[k]);
      }
    }
  }

  lemma {:induction false} InsertAtEnd(row: Row, rows: seq<Row>)
    requires forall k :: 0 <= k < |rows| ==> rows[k].version < row.version
    ensures InsertRow(row, rows) == rows + [row]
  {
    if rows != [] {
      InsertAtEnd(row, rows[1..]);
    }
  }

  /** A commit batch adds the next row of the registry or, on any other migration, nothing. */
  lemma CommitKeepsPrefix(db: Database, master: Registry, i: nat)
    requires Ascends(master) && JournalPrefix(db, master) && i < |master| && i <= |db.journal|
    ensures CommitBatch(db, master[i]).Some? <==> i == |db.journal|
    ensures i == |db.journal| ==>
      var db' := CommitBatch(db, master[i]).value;
      JournalPrefix(db', master) && db'.journal == db.journal + [RowOf(master[i])]
  {
    JournalVersions(db, master, i);
    if i == |db.journal| {
      forall k | 0 <= k < |db.journal| ensures db.journal[k].version < master[i].version {
        assert db.journal[k] == RowOf(master[k]);
      }
      InsertAtEnd(RowOf(master[i]), db.journal);
      assert db.journal + [RowOf(master[i])] == RowsOf(master[..i + 1]);
    }
  }

  lemma ValidatePrefix(db: Database, master: Registry, size: nat)
    requires Ascends(master) && JournalPrefix(db, master) && size <= |master|
    ensures Validate(db.journal, master[..size]) == Accepted <==> |db.journal| <= size
  {
    var n := |db.journal|;
    forall k | 0 <= k < n ensures db.journal[k] == RowOf(master[k]) {}
    SortRowsOfAscending(db.journal);
    AcceptedExactlyPrefixes(db.journal, master[..size]);
    if n <= size {
      assert master[..size][..n] == master[..n];
    }
  }

  lemma {:induction false} AdvanceSkipsApplied(master: Registry, size: nat, k: nat, i: nat, clock: int)
    requires Ascends(master) && i <= k <= size <= |master|
    ensures Advance(master[..size], VersionSet(master, k), i, clock)
         == if k == size then FinalRenew(clock) else Applying(k, FirstStep(master[k]), clock)
    decreases k - i
  {
    if i < k {
      assert master[i].version in VersionSet(master, k);
      AdvanceSkipsApplied(master, size, k, i + 1, clock);
    } else if k < size {
      assert master[k].version !in VersionSet(master, k);
    }
  }

  // ----- one step of one process

  predicate Grows(db: Database, db': Database) {
    && db.journal <= db'.journal
    && db.objects <= db'.objects
  }

  lemma BehindGrows(run: Run, db: Database, db': Database, master: Registry)
    requires Behind(run, db, master) && Grows(db, db')
    ensures Behind(run, db', master)
  {
  }

  lemma {:induction false} NothingMissing(registry: Registry, applied: seq<int>)
    requires forall m :: m in registry ==> m.version in applied
    ensures Missing(registry, applied) == []
  {
    if registry != [] {
      NothingMissing(registry[..|registry| - 1], applied);
    }
  }

  /** The status of a journal that holds the whole registry. */
  lemma FullJournalStatus(registry: Registry, state: SchemaState, error: ErrorCode)
    requires Ascends(registry)
    ensures var status := JournalStatus(registry, state, RowsOf(registry), error);
            status.pending == [] && status.applied == Versions(registry)
  {
    var vs := RowVersions(RowsOf(registry));
    assert vs == Versions(registry);
    SortOfAscending(vs);
    forall m | m in registry ensures m.version in vs {
      var k :| 0 <= k < |registry| && registry[k] == m;
      assert vs[k] == m.version;
    }
    NothingMissing(registry, vs);
  }

  lemma ReadyIsFull(db: Database, master: Registry, size: nat, drift: bool)
    requires Ascends(master) && JournalPrefix(db, master) && size <= |db.journal|
    ensures var status := Inspect(Seen(db.journal, drift), master[..size]);
            status.state == Ready ==> FullStatus(status, master, size)
  {
    ValidatePrefix(db, master, size);
    if |db.journal| == size {
      FullJournalStatus(master[..size], Ready, NoError);
    }
  }

  lemma JournalVersionSet(db: Database, master: Registry)
    requires JournalPrefix(db, master)
    ensures (set v | v in RowVersions(db.journal)) == VersionSet(master, |db.journal|)
  {
    var n, versions := |db.journal|, RowVersions(db.journal);
    forall k | 0 <= k < n ensures versions[k] == master[k].version {}
    forall v | v in VersionSet(master, n) ensures v in versions {
      var k :| 0 <= k < n && master[k].version == v;
      assert versions[k] == v;
    }
  }

  lemma ReadingStepSafe(master: Registry, ttl: int, db: Database, clock: int, owner: Owner, run: Run, fault: Fault, drift: bool)
    requires Ascends(master) && JournalPrefix(db, master) && Behind(run, db, master) && run.phase.Reading?
    ensures var (db', run') := RunStep(master[..run.size], ttl, db, clock, owner, run, fault, drift);
            db' == db && Behind(run', db', master)
  {
    ValidatePrefix(db, master, run.size);
    JournalVersionSet(db, master);
    if |db.journal| <= run.size {
      AdvanceSkipsApplied(master, run.size, |db.journal|, 0, clock);
    }
  }

  /** The commit batch, and what a process may say of itself after it. */
  lemma CommitStepSafe(master: Registry, ttl: int, db: Database, clock: int, owner: Owner, run: Run, fault: Fault, drift: bool)
    requires Ascends(master) && JournalPrefix(db, master) && Behind(run, db, master)
    requires run.phase.Applying? && run.phase.step == Commit
    ensures var (db', run') := RunStep(master[..run.size], ttl, db, clock, owner, run, fault, drift);
            && JournalPrefix(db', master) && Grows(db, db') && Behind(run', db', master)
  {
    CommitKeepsPrefix(db, master, run.phase.i);
  }

  /** A renewal ends a migration when it is the one after the commit. */
  lemma RenewalStepSafe(master: Registry, ttl: int, db: Database, clock: int, owner: Owner, run: Run, fault: Fault, drift: bool)
    requires Ascends(master) && JournalPrefix(db, master) && Behind(run, db, master)
    requires run.phase.Applying? && IsRenewal(run.phase.step)
    ensures var (db', run') := RunStep(master[..run.size], ttl, db, clock, owner, run, fault, drift);
            && JournalPrefix(db', master) && Grows(db, db') && Behind(run', db', master)
  {
    var i := run.phase.i;
    assert VersionSet(master, i) + {master[i].version} == VersionSet(master, i + 1);
    AdvanceSkipsApplied(master, run.size, i + 1, i + 1, clock);
  }

  lemma ApplyingStepSafe(master: Registry, ttl: int, db: Database, clock: int, owner: Owner, run: Run, fault: Fault, drift: bool)
    requires Ascends(master) && JournalPrefix(db, master) && Behind(run, db, master) && run.phase.Applying?
    ensures var (db', run') := RunStep(master[..run.size], ttl, db, clock, owner, run, fault, drift);
            && JournalPrefix(db', master) && Grows(db, db') && Behind(run', db', master)
  {
    if run.phase.step == Commit {
      CommitStepSafe(master, ttl, db, clock, owner, run, fault, drift);
    } else if IsRenewal(run.phase.step) {
      RenewalStepSafe(master, ttl, db, clock, owner, run, fault, drift);
    }
  }

  /** Each process's step keeps the journal a prefix, only adds to it, and keeps the process behind it. */
  lemma RunStepSafe(master: Registry, ttl: int, db: Database, clock: int, owner: Owner, run: Run, fault: Fault, drift: bool)
    requires Ascends(master) && JournalPrefix(db, master) && Behind(run, db, master)
    ensures var (db', run') := RunStep(master[..run.size], ttl, db, clock, owner, run, fault, drift);
            && JournalPrefix(db', master) && Grows(db, db') && Behind(run', db', master)
  {
    if run.phase.Reading? {
      ReadingStepSafe(master, ttl, db, clock, owner, run, fault, drift);
    } else if run.phase.Applying? {
      ApplyingStepSafe(master, ttl, db, clock, owner, run, fault, drift);
    } else if run.phase.Inspecting? {
      ReadyIsFull(db, master, run.size, drift);
    }
  }

  /** A process adds at most one row, the next of the registry, and only one of its own migrations. */
  lemma RunStepAppends(master: Registry, ttl: int, db: Database, clock: int, owner: Owner, run: Run, fault: Fault, drift: bool)
    requires Ascends(master) && JournalPrefix(db, master) && Behind(run, db, master)
    ensures var db' := RunStep(master[..run.size], ttl, db, clock, owner, run, fault, drift).0;
            db'.journal == db.journal || (|db.journal| < run.size && db'.journal == db.journal + [RowOf(master[|db.journal|])])
  {
    if run.phase.Applying? {
      CommitKeepsPrefix(db, master, run.phase.i);
    }
  }

  /** The tables of the next migration are the only objects that come before its journal row. */
  lemma TablesStepSchema(master: Registry, ttl: int, db: Database, clock: int, owner: Owner, run: Run, fault: Fault, drift: bool, start: Database)
    requires Ascends(master) && JournalPrefix(db, master) && Behind(run, db, master) && SchemaInStep(db, master, start)
    requires run.phase.Applying? && run.phase.step == Tables && Since(run, |start.journal|)
    ensures SchemaInStep(RunStep(master[..run.size], ttl, db, clock, owner, run, fault, drift).0, master, start)
  {
    if run.phase.i < |db.journal| {
      ObjectsBetweenContains(master, |start.journal|, run.phase.i, |db.journal|);
    }
  }

  lemma CommitSchema(db: Database, master: Registry, i: nat, start: Database)
    requires Ascends(master) && JournalPrefix(db, master) && SchemaInStep(db, master, start) && i == |db.journal| < |master|
    requires TablesOfNext(master, i) <= db.objects || master[i].tableStatements == []
    ensures CommitBatch(db, master[i]).Some? && SchemaInStep(CommitBatch(db, master[i]).value, master, start)
  {
    CommitKeepsPrefix(db, master, i);
  }

  lemma CommitStepSchema(master: Registry, ttl: int, db: Database, clock: int, owner: Owner, run: Run, fault: Fault, drift: bool, start: Database)
    requires Ascends(master) && JournalPrefix(db, master) && Behind(run, db, master) && SchemaInStep(db, master, start)
    requires run.phase.Applying? && run.phase.step == Commit
    ensures SchemaInStep(RunStep(master[..run.size], ttl, db, clock, owner, run, fault, drift).0, master, start)
  {
    CommitKeepsPrefix(db, master, run.phase.i);
    if run.phase.i == |db.journal| {
      CommitSchema(db, master, run.phase.i, start);
    }
  }

  lemma OtherStepSchema(registry: Registry, ttl: int, db: Database, clock: int, owner: Owner, run: Run, fault: Fault, drift: bool)
    requires !IsBatch(run.phase)
    ensures var db' := RunStep(registry, ttl, db, clock, owner, run, fault, drift).0;
            db'.journal == db.journal && db'.objects == db.objects
  {
  }

  lemma RunStepSchema(master: Registry, ttl: int, db: Database, clock: int, owner: Owner, run: Run, fault: Fault, drift: bool, start: Database)
    requires Ascends(master) && JournalPrefix(db, master) && Behind(run, db, master)
    requires SchemaInStep(db, master, start) && Since(run, |start.journal|)
    ensures SchemaInStep(RunStep(master[..run.size], ttl, db, clock, owner, run, fault, drift).0, master, start)
  {
    if !IsBatch(run.phase) {
      OtherStepSchema(master[..run.size], ttl, db, clock, owner, run, fault, drift);
    } else if run.phase.step == Tables {
      TablesStepSchema(master, ttl, db, clock, owner, run, fault, drift, start);
    } else {
      CommitStepSchema(master, ttl, db, clock, owner, run, fault, drift, start);
    }
  }

  lemma {:induction false} ObjectsBetweenContains(master: Registry, from: nat, i: nat, to: nat)
    requires from <= i < to <= |master|
    ensures ObjectsOf(master[i]) <= ObjectsBetween(master, from, to)
  {
    if i < to - 1 {
      ObjectsBetweenContains(master, from, i, to - 1);
    }
  }

  lemma {:induction false} AdvanceMovesOn(registry: Registry, applied: set<int>, i: nat, clock: int)
    ensures var phase := Advance(registry, applied, i, clock); phase.Applying? ==> phase.i >= i
    decreases |registry| - i
  {
    if i < |registry| && registry[i].version in applied {
      AdvanceMovesOn(registry, applied, i + 1, clock);
    }
  }

  lemma RunStepSince(master: Registry, ttl: int, db: Database, clock: int, owner: Owner, run: Run, fault: Fault, drift: bool, n: nat)
    requires Ascends(master) && JournalPrefix(db, master) && Behind(run, db, master) && Since(run, n) && n <= |db.journal|
    ensures Since(RunStep(master[..run.size], ttl, db, clock, owner, run, fault, drift).1, n)
  {
    if run.phase.Reading? {
      ReadingStepSince(master, ttl, db, clock, owner, run, fault, drift, n);
    } else if run.phase.Applying? {
      ApplyingStepSince(master, ttl, db, clock, owner, run, fault, drift, n);
    }
  }

  lemma ReadingStepSince(master: Registry, ttl: int, db: Database, clock: int, owner: Owner, run: Run, fault: Fault, drift: bool, n: nat)
    requires Ascends(master) && JournalPrefix(db, master) && run.size <= |master| && run.phase.Reading? && n <= |db.journal|
    ensures Since(RunStep(master[..run.size], ttl, db, clock, owner, run, fault, drift).1, n)
  {
    ValidatePrefix(db, master, run.size);
    JournalVersionSet(db, master);
    if |db.journal| <= run.size {
      AdvanceSkipsApplied(master, run.size, |db.journal|, 0, clock);
    }
  }

  lemma ApplyingStepSince(master: Registry, ttl: int, db: Database, clock: int, owner: Owner, run: Run, fault: Fault, drift: bool, n: nat)
    requires run.size <= |master| && run.phase.Applying? && run.phase.i < run.size && Since(run, n)
    ensures Since(RunStep(master[..run.size], ttl, db, clock, owner, run, fault, drift).1, n)
  {
    AdvanceMovesOn(master[..run.size], run.applied + {master[run.phase.i].version}, run.phase.i + 1, clock);
  }

  // ----- every execution

  /** One process moved, the database grew: everybody is still behind it. */
  lemma MoveKeepsSafe(s: State, next: State, owner: Owner, run: Run, master: Registry)
    requires Safe(s, master) && next.runs == s.runs[owner := run]
    requires JournalPrefix(next.db, master) && Grows(s.db, next.db) && Behind(run, next.db, master)
    ensures Safe(next, master)
  {
    forall o | o in next.runs ensures Behind(next.runs[o], next.db, master) {
      if o != owner {
        BehindGrows(s.runs[o], s.db, next.db, master);
      }
    }
  }

  lemma MovedState(master: Registry, ttl: int, s: State, clock: int, owner: Owner, fault: Fault, drift: bool)
    returns (db: Database, run: Run)
    requires Ascends(master) && Safe(s, master) && owner in s.runs
    ensures s.runs[owner].size <= |master|
    ensures (db, run) == RunStep(master[..s.runs[owner].size], ttl, s.db, clock, owner, s.runs[owner], fault, drift)
    ensures Safe(State(db, clock, s.runs[owner := run]), master) && s.db.journal <= db.journal
  {
    var registry := master[..s.runs[owner].size];
    assert Behind(s.runs[owner], s.db, master);
    RunStepSafe(master, ttl, s.db, clock, owner, s.runs[owner], fault, drift);
    db := RunStep(registry, ttl, s.db, clock, owner, s.runs[owner], fault, drift).0;
    run := RunStep(registry, ttl, s.db, clock, owner, s.runs[owner], fault, drift).1;
    MoveKeepsSafe(s, State(db, clock, s.runs[owner := run]), owner, run, master);
  }

  lemma StepOfAct(master: Registry, ttl: int, s: State, owner: Owner, delay: nat, fault: Fault, drift: bool, db: Database, run: Run)
    requires owner in s.runs && s.runs[owner].size <= |master|
    requires (db, run) == RunStep(master[..s.runs[owner].size], ttl, s.db, s.clock + delay, owner, s.runs[owner], fault, drift)
    ensures Step(master, ttl, s, Act(owner, delay, fault, drift)) == State(db, s.clock + delay, s.runs[owner := run])
  {
  }

  lemma ActSafe(master: Registry, ttl: int, s: State, owner: Owner, delay: nat, fault: Fault, drift: bool)
    requires Ascends(master) && Safe(s, master) && owner in s.runs
    ensures Safe(Step(master, ttl, s, Act(owner, delay, fault, drift)), master)
    ensures s.db.journal <= Step(master, ttl, s, Act(owner, delay, fault, drift)).db.journal
  {
    var db, run := MovedState(master, ttl, s, s.clock + delay, owner, fault, drift);
    StepOfAct(master, ttl, s, owner, delay, fault, drift, db, run);
  }

  lemma StepSafe(master: Registry, ttl: int, s: State, event: Event)
    requires Ascends(master) && Safe(s, master)
    ensures Safe(Step(master, ttl, s, event), master)
    ensures s.db.journal <= Step(master, ttl, s, event).db.journal
  {
    if event.Act? && event.owner in s.runs {
      ActSafe(master, ttl, s, event.owner, event.delay, event.fault, event.drift);
    }
  }

  lemma InitialIsSafe(s: State, master: Registry)
    requires Ascends(master) && Initial(s, master)
    ensures Safe(s, master)
  {
    SortRowsOfAscending(s.db.journal);
    AcceptedExactlyPrefixes(s.db.journal, master);
  }

  /**
   Whatever the interleaving, lock expiry, stealing, stalls, faults and crashes included, and whatever
   the schema was, the journal is the first rows of the registry in order, each once, and only grows.
   */
  lemma {:induction false} JournalIsAlwaysAPrefix(master: Registry, ttl: int, s: State, events: seq<Event>)
    requires Ascends(master) && Initial(s, master)
    ensures var t := Execution(master, ttl, s, events);
            && Safe(t, master)
            && s.db.journal <= t.db.journal == RowsOf(master[..|t.db.journal|])
  {
    if events == [] {
      InitialIsSafe(s, master);
    } else {
      var before := events[..|events| - 1];
      JournalIsAlwaysAPrefix(master, ttl, s, before);
      StepSafe(master, ttl, Execution(master, ttl, s, before), events[|events| - 1]);
    }
  }

  // ----- the schema

  lemma MovedSchema(master: Registry, ttl: int, s: State, clock: int, owner: Owner, fault: Fault, drift: bool, start: Database)
    returns (db: Database, run: Run)
    requires Ascends(master) && Safe(s, master) && SchemaSafe(s, master, start) && owner in s.runs
    ensures s.runs[owner].size <= |master|
    ensures (db, run) == RunStep(master[..s.runs[owner].size], ttl, s.db, clock, owner, s.runs[owner], fault, drift)
    ensures SchemaInStep(db, master, start) && Since(run, |start.journal|)
  {
    var before := s.runs[owner];
    assert Behind(before, s.db, master) && Since(before, |start.journal|);
    RunStepSchema(master, ttl, s.db, clock, owner, before, fault, drift, start);
    RunStepSince(master, ttl, s.db, clock, owner, before, fault, drift, |start.journal|);
    db := RunStep(master[..before.size], ttl, s.db, clock, owner, before, fault, drift).0;
    run := RunStep(master[..before.size], ttl, s.db, clock, owner, before, fault, drift).1;
  }

  lemma ActSchemaSafe(master: Registry, ttl: int, s: State, owner: Owner, delay: nat, fault: Fault, drift: bool, start: Database)
    requires Ascends(master) && Safe(s, master) && SchemaSafe(s, master, start) && owner in s.runs
    ensures SchemaSafe(Step(master, ttl, s, Act(owner, delay, fault, drift)), master, start)
  {
    var db, run := MovedSchema(master, ttl, s, s.clock + delay, owner, fault, drift, start);
    StepOfAct(master, ttl, s, owner, delay, fault, drift, db, run);
  }

  lemma StepSchemaSafe(master: Registry, ttl: int, s: State, event: Event, start: Database)
    requires Ascends(master) && Safe(s, master) && SchemaSafe(s, master, start)
    ensures SchemaSafe(Step(master, ttl, s, event), master, start)
  {
    if event.Act? && event.owner in s.runs {
      ActSchemaSafe(master, ttl, s, event.owner, event.delay, event.fault, event.drift, start);
    }
  }

  /** From any valid start the schema stays in step with what is journaled from then on. */
  lemma {:induction false} SchemaIsAlwaysInStep(master: Registry, ttl: int, s: State, events: seq<Event>)
    requires Ascends(master) && Initial(s, master)
    ensures SchemaSafe(Execution(master, ttl, s, events), master, s.db)
  {
    if events == [] {
      InitialIsSafe(s, master);
    } else {
      var before := events[..|events| - 1];
      SchemaIsAlwaysInStep(master, ttl, s, before);
      JournalIsAlwaysAPrefix(master, ttl, s, before);
      StepSchemaSafe(master, ttl, Execution(master, ttl, s, before), events[|events| - 1], s.db);
    }
  }

  /** In particular a schema that holds every object of its journal always does. */
  lemma CompleteSchemaStaysComplete(master: Registry, ttl: int, s: State, events: seq<Event>)
    requires Ascends(master) && Initial(s, master)
    requires |s.db.journal| <= |master| && ObjectsBetween(master, 0, |s.db.journal|) <= s.db.objects
    ensures var db := Execution(master, ttl, s, events).db;
            |db.journal| <= |master| && ObjectsBetween(master, 0, |db.journal|) <= db.objects
  {
    SchemaIsAlwaysInStep(master, ttl, s, events);
    ObjectsBetweenJoin(master, 0, |s.db.journal|, |Execution(master, ttl, s, events).db.journal|);
  }

  lemma {:induction false} ObjectsBetweenJoin(master: Registry, a: nat, b: nat, c: nat)
    requires a <= b <= c <= |master|
    ensures ObjectsBetween(master, a, c) == ObjectsBetween(master, a, b) + ObjectsBetween(master, b, c)
  {
    if b < c {
      ObjectsBetweenJoin(master, a, b, c - 1);
    }
  }

  /** Every reachable journal is accepted by validation against the whole registry, whatever was interrupted. */
  lemma ReachableJournalIsAccepted(master: Registry, ttl: int, s: State, events: seq<Event>)
    requires Ascends(master) && Initial(s, master)
    ensures Validate(Execution(master, ttl, s, events).db.journal, master) == Accepted
  {
    JournalIsAlwaysAPrefix(master, ttl, s, events);
    ValidatePrefix(Execution(master, ttl, s, events).db, master, |master|);
    assert master[..|master|] == master;
  }

  /** A process that ended `ready` reported all its migrations applied, and they stay journaled. */
  lemma ReadyRunCoversRegistry(master: Registry, ttl: int, s: State, events: seq<Event>, o: Owner)
    requires Ascends(master) && Initial(s, master)
    requires var t := Execution(master, ttl, s, events);
             o in t.runs && t.runs[o].phase.Ended? && t.runs[o].phase.status.state == Ready
    ensures var t := Execution(master, ttl, s, events);
            var run := t.runs[o];
            && run.size <= |master|
            && RowsOf(master[..run.size]) <= t.db.journal
            && run.phase.status.pending == [] && run.phase.status.applied == Versions(master[..run.size])
  {
    JournalIsAlwaysAPrefix(master, ttl, s, events);
    var t := Execution(master, ttl, s, events);
    assert Behind(t.runs[o], t.db, master);
    RowsOfShorter(master, t.runs[o].size, |t.db.journal|);
  }

  lemma RowsOfShorter(master: Registry, m: nat, n: nat)
    requires m <= n <= |master|
    ensures RowsOf(master[..m]) <= RowsOf(master[..n])
  {
    assert RowsOf(master[..n])[..m] == RowsOf(master[..m]);
  }

  predicate Bounded(s: State, bound: nat, most: nat) {
    && |s.db.journal| <= most
    && forall o :: o in s.runs ==> s.runs[o].size <= bound
  }

  lemma StepBounded(master: Registry, ttl: int, s: State, event: Event, bound: nat, most: nat)
    requires Ascends(master) && Safe(s, master) && Bounded(s, bound, most) && bound <= most
    requires event.Spawn? ==> event.size <= bound
    ensures Bounded(Step(master, ttl, s, event), bound, most)
  {
    if event.Act? && event.owner in s.runs {
      var run := s.runs[event.owner];
      var clock := s.clock + event.delay;
      RunStepAppends(master, ttl, s.db, clock, event.owner, run, event.fault, event.drift);
      RunStepKeepsSize(master[..run.size], ttl, s.db, clock, event.owner, run, event.fault, event.drift);
    }
  }

  /** Processes limited to the first `bound` migrations never journal a later one, whatever was journaled before. */
  lemma {:induction false} BoundedRunsStayBounded(master: Registry, ttl: int, s: State, events: seq<Event>, bound: nat)
    requires Ascends(master) && Initial(s, master)
    requires forall k :: 0 <= k < |events| && events[k].Spawn? ==> events[k].size <= bound
    ensures Bounded(Execution(master, ttl, s, events), bound, Max(|s.db.journal|, bound))
  {
    if events != [] {
      var before := events[..|events| - 1];
      BoundedRunsStayBounded(master, ttl, s, before, bound);
      JournalIsAlwaysAPrefix(master, ttl, s, before);
      StepBounded(master, ttl, Execution(master, ttl, s, before), events[|events| - 1], bound, Max(|s.db.journal|, bound));
    }
  }
}
