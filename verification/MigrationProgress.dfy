/**
 Progress of the migration protocol: a process that nobody disturbs gets through. Left alone on a free
 lock it journals its registry, adds exactly the missing objects, reports `ready` and gives the lock
 back; on a lock that stays held it gives up and leaves no trace.
 */
module MigrationProgress {
  import opened Prelude
  import opened MigrationJournal
  import opened MigrationLock
  import opened MigrationRun
  import opened MigrationSafety
  import opened MigrationStatuses

  // ----- what one step may do

  /** A statement that is reported as failed has taken effect in full or not at all. */
  lemma FaultEffects(registry: Registry, ttl: int, db: Database, clock: int, owner: Owner, run: Run, drift: bool)
    ensures RunStep(registry, ttl, db, clock, owner, run, BeforeEffect, drift).0 == db
    ensures RunStep(registry, ttl, db, clock, owner, run, AfterEffect, drift).0 == RunStep(registry, ttl, db, clock, owner, run, Clean, drift).0
  {
  }

  predicate Holds(db: Database, owner: Owner) {
    db.lock.Some? && db.lock.value.owner == owner
  }

  /** A renewal that finds another's row, or none. */
  predicate LosesLock(db: Database, owner: Owner, run: Run) {
    (run.phase.FinalRenew? || (run.phase.Applying? && IsRenewal(run.phase.step))) && !Holds(db, owner)
  }

  /** The last attempt to acquire finds a row. */
  predicate GivesUp(db: Database, run: Run) {
    run.phase.Inserting? && run.phase.attempts <= 1 && db.lock.Some?
  }

  function StatusOf(phase: Phase): Option<Status> {
    match phase
    case Releasing(status) => Some(status)
    case Ended(status) => Some(status)
    case _ => None
  }

  /** The reasons to decide on an answer when no statement fails. */
  predicate HasReason(registry: Registry, db: Database, owner: Owner, run: Run, drift: bool)
    requires run.phase.Applying? ==> run.phase.i < |registry|
  {
    || LosesLock(db, owner, run) || GivesUp(db, run) || run.phase.Inspecting?
    || (run.phase.Reading? && Validate(db.journal, registry) != Accepted)
    || (run.phase.Applying? && run.phase.step in {Preflight, SecondaryPreflight} && drift)
    || (run.phase.Applying? && run.phase.step == Commit && Journaled(db, registry[run.phase.i].version))
  }

  /** The answer that goes with the reason. */
  ghost predicate Justified(registry: Registry, db: Database, owner: Owner, run: Run, drift: bool, status: Status)
    requires run.phase.Applying? ==> run.phase.i < |registry|
  {
    if LosesLock(db, owner, run) || GivesUp(db, run) then status.state == Busy && status.error == SchemaMigrationBusy
    else if run.phase.Inspecting? then status == Inspect(Seen(db.journal, drift), registry)
    else if run.phase.Reading? then status == Inspect(Seen(db.journal, false), registry)
    else if run.phase.Applying? && run.phase.step in {Preflight, SecondaryPreflight} then
      status.state == Incompatible && status.error == SchemaIncompatibleDrift && Lists(status, db.journal, registry)
    else status.state == Failed && status.error == SchemaMigrationFailed
  }

  /**
   A process under way decides on its answer exactly when a statement fails, or it loses the lock or
   gives up acquiring it, rejects the journal, sees drift before a commit, finds its migration journaled
   already, or inspects at the end; and the answer is the one for that.
   */
  lemma StopsExactly(registry: Registry, ttl: int, db: Database, clock: int, owner: Owner, run: Run, fault: Fault, drift: bool)
    requires StatusOf(run.phase).None? && (run.phase.Applying? ==> run.phase.i < |registry|)
    ensures var status := StatusOf(RunStep(registry, ttl, db, clock, owner, run, fault, drift).1.phase);
            && (status.Some? <==> fault != Clean || HasReason(registry, db, owner, run, drift))
            && (fault != Clean ==> status.value.state == Failed && status.value.error == SchemaMigrationFailed)
            && (fault == Clean && status.Some? ==> Justified(registry, db, owner, run, drift, status.value))
  {
    if run.phase.Applying? {
      ApplyingStops(registry, ttl, db, clock, owner, run, fault, drift);
    } else {
      OthersStop(registry, ttl, db, clock, owner, run, fault, drift);
    }
  }

  lemma OthersStop(registry: Registry, ttl: int, db: Database, clock: int, owner: Owner, run: Run, fault: Fault, drift: bool)
    requires StatusOf(run.phase).None? && !run.phase.Applying?
    ensures var status := StatusOf(RunStep(registry, ttl, db, clock, owner, run, fault, drift).1.phase);
            && (status.Some? <==> fault != Clean || HasReason(registry, db, owner, run, drift))
            && (fault != Clean ==> status.value.state == Failed && status.value.error == SchemaMigrationFailed)
            && (fault == Clean && status.Some? ==> Justified(registry, db, owner, run, drift, status.value))
  {
    if run.phase.Reading? {
      AdvanceDecidesNothing(registry, set v | v in RowVersions(db.journal), 0, clock);
    }
  }

  lemma ApplyingStops(registry: Registry, ttl: int, db: Database, clock: int, owner: Owner, run: Run, fault: Fault, drift: bool)
    requires run.phase.Applying? && run.phase.i < |registry|
    ensures var status := StatusOf(RunStep(registry, ttl, db, clock, owner, run, fault, drift).1.phase);
            && (status.Some? <==> fault != Clean || HasReason(registry, db, owner, run, drift))
            && (fault != Clean ==> status.value.state == Failed && status.value.error == SchemaMigrationFailed)
            && (fault == Clean && status.Some? ==> Justified(registry, db, owner, run, drift, status.value))
  {
    if IsRenewal(run.phase.step) {
      RenewalStops(registry, ttl, db, clock, owner, run, fault, drift);
    } else {
      BatchStops(registry, ttl, db, clock, owner, run, fault, drift);
    }
  }

  lemma RenewalStops(registry: Registry, ttl: int, db: Database, clock: int, owner: Owner, run: Run, fault: Fault, drift: bool)
    requires run.phase.Applying? && run.phase.i < |registry| && IsRenewal(run.phase.step)
    ensures var status := StatusOf(RunStep(registry, ttl, db, clock, owner, run, fault, drift).1.phase);
            && (status.Some? <==> fault != Clean || LosesLock(db, owner, run))
            && (fault != Clean ==> status == Some(FailedStatus(registry)))
            && (fault == Clean && status.Some? ==> status == Some(BusyStatus(registry)))
  {
    AdvanceDecidesNothing(registry, run.applied + {registry[run.phase.i].version}, run.phase.i + 1, clock);
  }

  lemma BatchStops(registry: Registry, ttl: int, db: Database, clock: int, owner: Owner, run: Run, fault: Fault, drift: bool)
    requires run.phase.Applying? && run.phase.i < |registry| && !IsRenewal(run.phase.step)
    ensures var status := StatusOf(RunStep(registry, ttl, db, clock, owner, run, fault, drift).1.phase);
            && (status.Some? <==> fault != Clean || HasReason(registry, db, owner, run, drift))
            && (fault != Clean ==> status.value.state == Failed && status.value.error == SchemaMigrationFailed)
            && (fault == Clean && status.Some? ==> Justified(registry, db, owner, run, drift, status.value))
  {
    JournalStatusLists(db.journal, registry, Incompatible, SchemaIncompatibleDrift);
  }

  lemma {:induction false} AdvanceDecidesNothing(registry: Registry, applied: set<int>, i: nat, clock: int)
    ensures StatusOf(Advance(registry, applied, i, clock)).None?
    decreases |registry| - i
  {
    if i < |registry| && registry[i].version in applied {
      AdvanceDecidesNothing(registry, applied, i + 1, clock);
    }
  }

  // ----- a process left alone

  /** The end of a process that acquired the lock: its registry is journaled, or the journal is longer than it knows. */
  predicate Through(status: Status, db: Database, master: Registry, size: nat, start: Database)
    requires |start.journal| <= |master| && size <= |master|
  {
    if |start.journal| <= size then
      && status == JournalStatus(master[..size], Ready, RowsOf(master[..size]), NoError)
      && db.journal == RowsOf(master[..size])
      && db.objects == start.objects + ObjectsBetween(master, |start.journal|, size)
    else
      && status == JournalStatus(master[..size], Failed, start.journal, SchemaFutureVersion)
      && db.journal == start.journal && db.objects == start.objects
  }

  /** The migrations before number `n` are in place, and nothing else is new. */
  predicate UpTo(db: Database, master: Registry, start: Database, n: nat, extra: set<string>)
    requires |start.journal| <= |master|
  {
    && |start.journal| <= n <= |master|
    && db.journal == RowsOf(master[..n])
    && db.objects == start.objects + ObjectsBetween(master, |start.journal|, n) + extra
  }

  /** The tables that the steps before this one have created. */
  function Created(m: Migration, step: ApplyStep): set<string> {
    if TablesDone(step) then ToSet(m.tableStatements) else {}
  }

  predicate SameContent(db: Database, start: Database) {
    db.journal == start.journal && db.objects == start.objects
  }

  /** Where a process stands that started on `start` at time `began` and has been alone since. */
  predicate OnTrack(db: Database, clock: int, owner: Owner, run: Run, master: Registry, ttl: int, start: Database, began: int) {
    && |start.journal| <= |master| && run.size <= |master| && began <= clock
    && match run.phase
       case Starting(n) => n >= 1 && db == start
       case Deleting(n, at) => n >= 1 && db == start && began <= at <= clock
       case Inserting(n, at) =>
         && n >= 1 && SameContent(db, start) && began <= at <= clock
         && db.lock == if Free(start.lock, at, ttl) then None else start.lock
       case Reading => SameContent(db, start) && Holds(db, owner) && Free(start.lock, clock, ttl)
       case Applying(i, step, _) =>
         && i < run.size && Holds(db, owner) && Free(start.lock, clock, ttl) && run.applied == VersionSet(master, i)
         && (OnlyTwoPhase(step) ==> master[i].tableStatements != [])
         && (if step == RenewAfter then UpTo(db, master, start, i + 1, {}) else UpTo(db, master, start, i, Created(master[i], step)))
       case FinalRenew(_) => Holds(db, owner) && Free(start.lock, clock, ttl) && UpTo(db, master, start, run.size, {})
       case Inspecting => Holds(db, owner) && Free(start.lock, clock, ttl) && UpTo(db, master, start, run.size, {})
       case Releasing(status) => Holds(db, owner) && Free(start.lock, clock, ttl) && Through(status, db, master, run.size, start)
       case Ended(status) =>
         || (status == BusyStatus(master[..run.size]) && db == start && !Free(start.lock, began, ttl))
         || (Free(start.lock, clock, ttl) && Through(status, db, master, run.size, start) && db.lock == None)
  }

  // ----- how many steps are left

  function StepsFrom(step: ApplyStep): nat {
    match step
    case RenewTables => 9
    case Tables => 8
    case RenewPreflight => 7
    case Preflight => 6
    case RenewSecondary => 5
    case SecondaryPreflight => 4
    case RenewCommit => 3
    case Commit => 2
    case RenewAfter => 1
  }

  /** Nine steps for a migration with tables of its own, three for any other. */
  function StepsOf(master: Registry, from: nat, to: nat): nat
    requires to <= |master|
    decreases |master| - from
  {
    if from >= to then 0 else StepsFrom(FirstStep(master[from])) + StepsOf(master, from + 1, to)
  }

  /** The steps of a process that has the lock, from reading the journal of `n` rows on. */
  function StepsWithLock(master: Registry, n: nat, size: nat): nat
    requires size <= |master|
  {
    4 + StepsOf(master, n, size)
  }

  function StepsLeft(run: Run, master: Registry, n: nat): nat
    requires run.size <= |master|
  {
    match run.phase
    case Starting(k) => 1 + 2 * k + StepsWithLock(master, n, run.size)
    case Deleting(k, _) => 2 * k + StepsWithLock(master, n, run.size)
    case Inserting(k, _) => (if k == 0 then 0 else 2 * k - 1) + StepsWithLock(master, n, run.size)
    case Reading => StepsWithLock(master, n, run.size)
    case Applying(i, step, _) => StepsFrom(step) + StepsOf(master, i + 1, run.size) + 3
    case FinalRenew(_) => 3
    case Inspecting => 2
    case Releasing(_) => 1
    case Ended(_) => 0
  }

  // ----- step by step

  predicate Moves(db: Database, clock: int, owner: Owner, run: Run, db': Database, run': Run, clock': int,
                  master: Registry, ttl: int, start: Database, began: int)
    requires run.size <= |master| && |start.journal| <= |master|
  {
    && run'.size == run.size
    && OnTrack(db', clock', owner, run', master, ttl, start, began)
    && StepsLeft(run', master, |start.journal|) < StepsLeft(run, master, |start.journal|)
  }

  lemma AcquireMoves(db: Database, clock: int, clock': int, owner: Owner, run: Run, master: Registry, ttl: int, start: Database, began: int)
    requires OnTrack(db, clock, owner, run, master, ttl, start, began) && clock <= clock'
    requires run.phase.Starting? || run.phase.Deleting? || run.phase.Inserting?
    ensures var (db', run') := RunStep(master[..run.size], ttl, db, clock', owner, run, Clean, false);
            Moves(db, clock, owner, run, db', run', clock', master, ttl, start, began)
  {
  }

  lemma StepsOfStarted(master: Registry, k: nat, size: nat, clock: int)
    requires k <= size <= |master|
    ensures k < size ==> StepsOf(master, k, size) == StepsFrom(FirstStep(master[k])) + StepsOf(master, k + 1, size)
    ensures k == size ==> StepsOf(master, k, size) == 0
  {
  }

  /** Where the loop goes on with the first `k` migrations in place. */
  lemma AdvanceOnTrack(db: Database, clock: int, owner: Owner, run: Run, master: Registry, ttl: int, start: Database, began: int, k: nat)
    requires Ascends(master) && |start.journal| <= |master| && run.size <= |master| && began <= clock && k <= run.size
    requires Holds(db, owner) && Free(start.lock, clock, ttl) && UpTo(db, master, start, k, {})
    requires run.phase == (if k == run.size then FinalRenew(clock) else Applying(k, FirstStep(master[k]), clock))
    requires run.applied == VersionSet(master, k)
    ensures OnTrack(db, clock, owner, run, master, ttl, start, began)
    ensures StepsLeft(run, master, |start.journal|) == 3 + StepsOf(master, k, run.size)
  {
    StepsOfStarted(master, k, run.size, clock);
    if k < run.size {
      assert Created(master[k], FirstStep(master[k])) == {};
    }
  }

  lemma ReadingMoves(db: Database, clock: int, clock': int, owner: Owner, run: Run, master: Registry, ttl: int, start: Database, began: int)
    requires Ascends(master) && JournalPrefix(start, master)
    requires OnTrack(db, clock, owner, run, master, ttl, start, began) && clock <= clock' && run.phase.Reading?
    ensures var (db', run') := RunStep(master[..run.size], ttl, db, clock', owner, run, Clean, false);
            Moves(db, clock, owner, run, db', run', clock', master, ttl, start, began)
  {
    var n := |start.journal|;
    var run' := RunStep(master[..run.size], ttl, db, clock', owner, run, Clean, false).1;
    ValidatePrefix(db, master, run.size);
    if n <= run.size {
      JournalVersionSet(db, master);
      AdvanceSkipsApplied(master, run.size, n, 0, clock');
      assert ObjectsBetween(master, n, n) == {};
      AdvanceOnTrack(db, clock', owner, run', master, ttl, start, began, n);
    } else {
      TooNewIsFailed(start, master, run.size);
    }
  }

  /** A journal that is longer than the registry is called a future version. */
  lemma TooNewIsFailed(db: Database, master: Registry, size: nat)
    requires Ascends(master) && JournalPrefix(db, master) && size < |db.journal|
    ensures Inspect(Seen(db.journal, false), master[..size]) == JournalStatus(master[..size], Failed, db.journal, SchemaFutureVersion)
  {
    assert db.journal[size] == RowOf(master[size]);
    assert !Registered(master[..size], db.journal[size].version);
    FutureExactly(db.journal, master[..size]);
  }

  /** Steps that stay within one migration. */
  lemma WithinMoves(db: Database, clock: int, clock': int, owner: Owner, run: Run, master: Registry, ttl: int, start: Database, began: int)
    requires Ascends(master)
    requires OnTrack(db, clock, owner, run, master, ttl, start, began) && clock <= clock'
    requires run.phase.Applying? && run.phase.step !in {RenewAfter, Commit}
    ensures var (db', run') := RunStep(master[..run.size], ttl, db, clock', owner, run, Clean, false);
            Moves(db, clock, owner, run, db', run', clock', master, ttl, start, began)
  {
    var i, step := run.phase.i, run.phase.step;
    assert StepsFrom(NextStep(step)) == StepsFrom(step) - 1;
    if step == Tables {
      assert UpTo(Execute(db, master[i].tableStatements), master, start, i, ToSet(master[i].tableStatements));
    } else {
      assert Created(master[i], NextStep(step)) == Created(master[i], step) by {
        assert TablesDone(NextStep(step)) <==> TablesDone(step) || step == Tables;
      }
    }
  }

  lemma CommitMoves(db: Database, clock: int, clock': int, owner: Owner, run: Run, master: Registry, ttl: int, start: Database, began: int)
    requires Ascends(master)
    requires OnTrack(db, clock, owner, run, master, ttl, start, began) && clock <= clock'
    requires run.phase.Applying? && run.phase.step == Commit
    ensures var (db', run') := RunStep(master[..run.size], ttl, db, clock', owner, run, Clean, false);
            Moves(db, clock, owner, run, db', run', clock', master, ttl, start, began)
  {
    var i := run.phase.i;
    CommitCompletes(db, master, start, i);
    assert RunStep(master[..run.size], ttl, db, clock', owner, run, Clean, false)
        == (CommitBatch(db, master[i]).value, run.(phase := Applying(i, RenewAfter, clock')));
  }

  lemma CommitCompletes(db: Database, master: Registry, start: Database, i: nat)
    requires Ascends(master) && |start.journal| <= |master| && i < |master|
    requires UpTo(db, master, start, i, Created(master[i], Commit))
    ensures CommitBatch(db, master[i]).Some?
    ensures var db' := CommitBatch(db, master[i]).value;
            UpTo(db', master, start, i + 1, {}) && db'.lock == db.lock
  {
    CommitKeepsPrefix(db, master, i);
    var db' := CommitBatch(db, master[i]).value;
    var before := start.objects + ObjectsBetween(master, |start.journal|, i);
    var m := master[i];
    assert db'.objects == before + (ToSet(m.tableStatements) + ToSet(CommitStatements(m)));
    assert ToSet(m.tableStatements) + ToSet(CommitStatements(m)) == ObjectsOf(m) by {
      assert m.tableStatements == [] ==> ToSet(m.tableStatements) == {};
    }
    assert ObjectsBetween(master, |start.journal|, i + 1) == ObjectsBetween(master, |start.journal|, i) + ObjectsOf(m);
  }

  /** The renewal after a commit goes on to the next migration. */
  lemma AfterMoves(db: Database, clock: int, clock': int, owner: Owner, run: Run, master: Registry, ttl: int, start: Database, began: int)
    requires Ascends(master)
    requires OnTrack(db, clock, owner, run, master, ttl, start, began) && clock <= clock'
    requires run.phase.Applying? && run.phase.step == RenewAfter
    ensures var (db', run') := RunStep(master[..run.size], ttl, db, clock', owner, run, Clean, false);
            Moves(db, clock, owner, run, db', run', clock', master, ttl, start, began)
  {
    var i := run.phase.i;
    var (db', run') := RunStep(master[..run.size], ttl, db, clock', owner, run, Clean, false);
    assert VersionSet(master, i) + {master[i].version} == VersionSet(master, i + 1);
    AdvanceSkipsApplied(master, run.size, i + 1, i + 1, clock');
    AdvanceOnTrack(db', clock', owner, run', master, ttl, start, began, i + 1);
  }

  lemma FinishMoves(db: Database, clock: int, clock': int, owner: Owner, run: Run, master: Registry, ttl: int, start: Database, began: int)
    requires Ascends(master)
    requires OnTrack(db, clock, owner, run, master, ttl, start, began) && clock <= clock'
    requires run.phase.FinalRenew? || run.phase.Inspecting? || run.phase.Releasing?
    ensures var (db', run') := RunStep(master[..run.size], ttl, db, clock', owner, run, Clean, false);
            Moves(db, clock, owner, run, db', run', clock', master, ttl, start, began)
  {
    if run.phase.Inspecting? {
      ReadyAtTheEnd(db, master, run.size);
    }
  }

  lemma ReadyAtTheEnd(db: Database, master: Registry, size: nat)
    requires Ascends(master) && size <= |master| && db.journal == RowsOf(master[..size])
    ensures Inspect(Seen(db.journal, false), master[..size]) == JournalStatus(master[..size], Ready, RowsOf(master[..size]), NoError)
  {
    ValidatePrefix(db, master, size);
  }

  lemma StepMoves(db: Database, clock: int, clock': int, owner: Owner, run: Run, master: Registry, ttl: int, start: Database, began: int)
    requires Ascends(master) && JournalPrefix(start, master)
    requires OnTrack(db, clock, owner, run, master, ttl, start, began) && clock <= clock' && !run.phase.Ended?
    ensures var (db', run') := RunStep(master[..run.size], ttl, db, clock', owner, run, Clean, false);
            Moves(db, clock, owner, run, db', run', clock', master, ttl, start, began)
  {
    match run.phase
    case Reading => ReadingMoves(db, clock, clock', owner, run, master, ttl, start, began);
    case Applying(_, step, _) =>
      if step == Commit {
        CommitMoves(db, clock, clock', owner, run, master, ttl, start, began);
      } else if step == RenewAfter {
        AfterMoves(db, clock, clock', owner, run, master, ttl, start, began);
      } else {
        WithinMoves(db, clock, clock', owner, run, master, ttl, start, began);
      }
    case FinalRenew(_) => FinishMoves(db, clock, clock', owner, run, master, ttl, start, began);
    case Inspecting => FinishMoves(db, clock, clock', owner, run, master, ttl, start, began);
    case Releasing(_) => FinishMoves(db, clock, clock', owner, run, master, ttl, start, began);
    case _ => AcquireMoves(db, clock, clock', owner, run, master, ttl, start, began);
  }

  // ----- every execution

  /** Only this process acts, no statement fails and nothing drifts; its delays are arbitrary. */
  predicate Alone(events: seq<Event>, o: Owner) {
    forall k :: 0 <= k < |events| ==> events[k].Act? && events[k].owner == o && events[k].fault == Clean && !events[k].drift
  }

  lemma EndedStays(db: Database, clock: int, clock': int, owner: Owner, run: Run, master: Registry, ttl: int, start: Database, began: int)
    requires OnTrack(db, clock, owner, run, master, ttl, start, began) && clock <= clock' && run.phase.Ended?
    ensures OnTrack(db, clock', owner, run, master, ttl, start, began)
  {
  }

  predicate Tracked(s: State, o: Owner, master: Registry, ttl: int, start: Database, began: int) {
    o in s.runs && OnTrack(s.db, s.clock, o, s.runs[o], master, ttl, start, began)
  }

  lemma ActMoves(master: Registry, ttl: int, s: State, event: Event, o: Owner, start: Database, began: int)
    requires Ascends(master) && JournalPrefix(start, master) && Tracked(s, o, master, ttl, start, began) && Alone([event], o)
    ensures var t := Step(master, ttl, s, event);
            && Tracked(t, o, master, ttl, start, began)
            && t.runs == s.runs[o := t.runs[o]] && t.runs[o].size == s.runs[o].size
            && StepsLeft(t.runs[o], master, |start.journal|) <= Max(0, StepsLeft(s.runs[o], master, |start.journal|) - 1)
  {
    assert event == [event][0];
    var run, clock := s.runs[o], s.clock + event.delay;
    var (db', run') := RunStep(master[..run.size], ttl, s.db, clock, o, run, Clean, false);
    StepOfAct(master, ttl, s, o, event.delay, Clean, false, db', run');
    if run.phase.Ended? {
      EndedStays(s.db, s.clock, clock, o, run, master, ttl, start, began);
    } else {
      StepMoves(s.db, s.clock, clock, o, run, master, ttl, start, began);
    }
  }

  lemma {:induction false} AloneMoves(master: Registry, ttl: int, s: State, events: seq<Event>, o: Owner, start: Database, began: int)
    requires Ascends(master) && JournalPrefix(start, master) && Tracked(s, o, master, ttl, start, began) && Alone(events, o)
    ensures var t := Execution(master, ttl, s, events);
            && Tracked(t, o, master, ttl, start, began)
            && t.runs == s.runs[o := t.runs[o]] && t.runs[o].size == s.runs[o].size
            && StepsLeft(t.runs[o], master, |start.journal|) <= Max(0, StepsLeft(s.runs[o], master, |start.journal|) - |events|)
  {
    if events == [] {
      assert s.runs == s.runs[o := s.runs[o]];
    } else {
      var n := |events| - 1;
      AloneMoves(master, ttl, s, events[..n], o, start, began);
      ActMoves(master, ttl, Execution(master, ttl, s, events[..n]), events[n], o, start, began);
    }
  }

  lemma {:induction false} ExecutionConcat(master: Registry, ttl: int, s: State, a: seq<Event>, b: seq<Event>)
    ensures Execution(master, ttl, s, a + b) == Execution(master, ttl, Execution(master, ttl, s, a), b)
  {
    if b == [] {
      assert a + b == a;
    } else {
      var n := |b| - 1;
      assert (a + b)[..|a + b| - 1] == a + b[..n];
      ExecutionConcat(master, ttl, s, a, b[..n]);
    }
  }

  /** Enough steps for a process with this many attempts on a journal of `n` rows. */
  function Enough(master: Registry, n: nat, size: nat, attempts: nat): nat
    requires size <= |master|
  {
    1 + 2 * attempts + StepsWithLock(master, n, size)
  }

  lemma NoStepsLeft(run: Run, master: Registry, n: nat)
    requires run.size <= |master| && StepsLeft(run, master, n) == 0
    ensures run.phase.Ended?
  {
  }

  lemma SpawnTracked(master: Registry, ttl: int, s: State, o: Owner, size: nat, attempts: nat)
    requires o !in s.runs && !Holds(s.db, o) && size <= |master| && attempts >= 1 && |s.db.journal| <= |master|
    ensures var t := Step(master, ttl, s, Spawn(o, size, attempts));
            && Tracked(t, o, master, ttl, s.db, s.clock)
            && t.runs == s.runs[o := t.runs[o]] && t.runs[o].size == size
            && StepsLeft(t.runs[o], master, |s.db.journal|) == Enough(master, |s.db.journal|, size, attempts)
  {
  }

  lemma TrackedEnds(master: Registry, ttl: int, s: State, events: seq<Event>, o: Owner, start: Database, began: int)
    requires Ascends(master) && JournalPrefix(start, master) && Tracked(s, o, master, ttl, start, began) && Alone(events, o)
    requires |events| >= StepsLeft(s.runs[o], master, |start.journal|)
    ensures var t := Execution(master, ttl, s, events);
            && Tracked(t, o, master, ttl, start, began) && t.runs[o].phase.Ended?
            && t.runs == s.runs[o := t.runs[o]] && t.runs[o].size == s.runs[o].size
  {
    AloneMoves(master, ttl, s, events, o, start, began);
    NoStepsLeft(Execution(master, ttl, s, events).runs[o], master, |start.journal|);
  }

  lemma AloneEnds(master: Registry, ttl: int, s: State, o: Owner, size: nat, attempts: nat, events: seq<Event>)
    requires Ascends(master) && JournalPrefix(s.db, master)
    requires o !in s.runs && !Holds(s.db, o) && size <= |master| && attempts >= 1
    requires Alone(events, o) && |events| >= Enough(master, |s.db.journal|, size, attempts)
    ensures var t := Execution(master, ttl, Step(master, ttl, s, Spawn(o, size, attempts)), events);
            && o in t.runs && t.runs == s.runs[o := t.runs[o]] && t.runs[o].size == size && t.runs[o].phase.Ended?
            && OnTrack(t.db, t.clock, o, t.runs[o], master, ttl, s.db, s.clock)
  {
    var spawned := Step(master, ttl, s, Spawn(o, size, attempts));
    SpawnTracked(master, ttl, s, o, size, attempts);
    TrackedEnds(master, ttl, spawned, events, o, s.db, s.clock);
  }

  /**
   A process that starts anywhere in any run and is then left alone ends after enough steps. If the
   lock was free when it started, the rest of its registry is journaled, exactly the missing objects
   are added, the lock is given back and the answer is `ready`; a journal longer than its registry it
   reports as a future version. If the lock is still not free at the end, it is busy and nothing has changed.
   */
  lemma AloneGetsThrough(master: Registry, ttl: int, s0: State, before: seq<Event>, o: Owner, size: nat, attempts: nat, events: seq<Event>)
    requires Ascends(master) && Initial(s0, master)
    requires var s := Execution(master, ttl, s0, before);
             && o !in s.runs && !Holds(s.db, o) && size <= |master| && attempts >= 1
             && Alone(events, o) && |events| >= Enough(master, |s.db.journal|, size, attempts)
    ensures var s, t := Execution(master, ttl, s0, before), Execution(master, ttl, s0, before + [Spawn(o, size, attempts)] + events);
            && o in t.runs && t.runs[o].phase.Ended? && |s.db.journal| <= |master|
            && (forall p :: p != o ==> (p in t.runs <==> p in s.runs) && (p in s.runs ==> t.runs[p] == s.runs[p]))
            && (Free(s.db.lock, s.clock, ttl) ==>
                  Through(t.runs[o].phase.status, t.db, master, size, s.db) && t.db.lock == None)
            && (!Free(s.db.lock, t.clock, ttl) ==>
                  t.runs[o].phase.status == BusyStatus(master[..size]) && t.db == s.db)
  {
    var s := Execution(master, ttl, s0, before);
    JournalIsAlwaysAPrefix(master, ttl, s0, before);
    var spawn := Spawn(o, size, attempts);
    SpawnLast(master, ttl, s0, before, spawn);
    ExecutionConcat(master, ttl, s0, before + [spawn], events);
    AloneOutcome(master, ttl, s, Execution(master, ttl, s0, before + [spawn] + events), o, size, attempts, events);
  }

  lemma AloneOutcome(master: Registry, ttl: int, s: State, t: State, o: Owner, size: nat, attempts: nat, events: seq<Event>)
    requires Ascends(master) && JournalPrefix(s.db, master)
    requires o !in s.runs && !Holds(s.db, o) && size <= |master| && attempts >= 1
    requires Alone(events, o) && |events| >= Enough(master, |s.db.journal|, size, attempts)
    requires t == Execution(master, ttl, Step(master, ttl, s, Spawn(o, size, attempts)), events)
    ensures o in t.runs && t.runs[o].phase.Ended?
    ensures forall p :: p != o ==> (p in t.runs <==> p in s.runs) && (p in s.runs ==> t.runs[p] == s.runs[p])
    ensures Free(s.db.lock, s.clock, ttl) ==> Through(t.runs[o].phase.status, t.db, master, size, s.db) && t.db.lock == None
    ensures !Free(s.db.lock, t.clock, ttl) ==> t.runs[o].phase.status == BusyStatus(master[..size]) && t.db == s.db
  {
    AloneEnds(master, ttl, s, o, size, attempts, events);
  }

  lemma SpawnLast(master: Registry, ttl: int, s0: State, before: seq<Event>, event: Event)
    ensures Execution(master, ttl, s0, before + [event]) == Step(master, ttl, Execution(master, ttl, s0, before), event)
  {
    assert (before + [event])[..|before + [event]| - 1] == before;
  }
}
