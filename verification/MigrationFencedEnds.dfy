/**
 How a process that has lost its lock can end. Busy and failed are its only ends exactly when it was
 not reading the schema at that moment; three runs show the other ends, one for each phase that does.
 */
module MigrationFencedEnds {
  import opened Prelude
  import opened MigrationJournal
  import opened MigrationLock
  import opened MigrationRun
  import opened MigrationSafety
  import opened MigrationFencing

  predicate BusyOrFailed(status: PlainStatus) {
    status.state == Busy || status.state == Failed
  }

  predicate StoppedShort(s: State, o: Owner) {
    o in s.runs && s.runs[o].phase.Ended? ==> BusyOrFailed(s.runs[o].phase.status)
  }

  /** However the execution goes on, the process ends busy or failed if it ends at all. */
  ghost predicate OnlyStopsShort(master: Registry, ttl: int, s: State, o: Owner) {
    forall events: seq<Event> :: StoppedShort(After(master, ttl, s, events), o)
  }

  /** Not reading the schema, or about to find more versions in the journal than it knows. */
  predicate BoundToStop(s: State, o: Owner)
    requires o in s.runs
  {
    Doomed(s.runs[o].phase) || (s.runs[o].phase.Inspecting? && |s.db.journal| > s.runs[o].size)
  }

  // ----- a process bound to stop stays so

  lemma InspectingTooFew(master: Registry, ttl: int, db: Database, clock: int, o: Owner, run: Run, fault: Fault, drift: bool)
    requires Ascends(master) && JournalPrefix(db, master) && run.size <= |master|
    requires run.phase.Inspecting? && |db.journal| > run.size
    ensures Doomed(RunStep(master[..run.size], ttl, db, clock, o, run, fault, drift).1.phase)
  {
    ValidatePrefix(db, master, run.size);
  }

  lemma StepStaysBound(master: Registry, ttl: int, s: State, event: Event, o: Owner)
    requires Ascends(master) && Safe(s, master) && Fenced(s, o) && BoundToStop(s, o)
    ensures var t := Step(master, ttl, s, event); Fenced(t, o) && BoundToStop(t, o)
  {
    assert Behind(s.runs[o], s.db, master);
    FencedStep(master, ttl, s, event, o);
    StepSafe(master, ttl, s, event);
    if event.Act? && event.owner == o && s.runs[o].phase.Inspecting? {
      InspectingTooFew(master, ttl, s.db, s.clock + event.delay, o, s.runs[o], event.fault, event.drift);
    }
  }

  lemma {:induction false} StaysBound(master: Registry, ttl: int, s: State, events: seq<Event>, o: Owner)
    requires Ascends(master) && Safe(s, master) && Fenced(s, o) && BoundToStop(s, o)
    ensures StoppedShort(After(master, ttl, s, events), o)
    decreases |events|
  {
    if events != [] {
      StepStaysBound(master, ttl, s, events[0], o);
      StepSafe(master, ttl, s, events[0]);
      StaysBound(master, ttl, Step(master, ttl, s, events[0]), events[1..], o);
    }
  }

  // ----- any other fenced process has another end before it

  lemma AfterOne(master: Registry, ttl: int, s: State, a: Event)
    ensures After(master, ttl, s, [a]) == Step(master, ttl, s, a)
  {
    assert [a][1..] == [];
  }

  lemma AfterTwo(master: Registry, ttl: int, s: State, a: Event, b: Event)
    ensures After(master, ttl, s, [a, b]) == Step(master, ttl, Step(master, ttl, s, a), b)
  {
    assert [a, b][1..] == [b];
    AfterOne(master, ttl, Step(master, ttl, s, a), b);
  }

  /** Releasing is the last step, and it ends the process with the status it carries. */
  lemma ReleasingEnds(master: Registry, ttl: int, s: State, o: Owner, status: PlainStatus)
    requires o in s.runs && s.runs[o].size <= |master| && s.runs[o].phase == Releasing(status)
    ensures var t := Step(master, ttl, s, Act(o, 0, Clean, false)); o in t.runs && t.runs[o].phase == Ended(status)
  {
  }

  /** A drift seen by a preflight check is reported, lock or no lock. */
  lemma PreflightReportsDrift(master: Registry, ttl: int, s: State, o: Owner)
    requires o in s.runs && Behind(s.runs[o], s.db, master)
    requires s.runs[o].phase.Applying? && s.runs[o].phase.step in {Preflight, SecondaryPreflight}
    ensures var t := Step(master, ttl, s, Act(o, 0, Clean, true));
            o in t.runs && t.runs[o].size == s.runs[o].size && t.runs[o].phase.Releasing? && t.runs[o].phase.status.state == Incompatible
  {
  }

  /** A clean final inspection reports ready, lock or no lock. */
  lemma InspectionReportsReady(master: Registry, ttl: int, s: State, o: Owner)
    requires Ascends(master) && Safe(s, master) && o in s.runs
    requires s.runs[o].phase.Inspecting? && |s.db.journal| <= s.runs[o].size
    ensures var t := Step(master, ttl, s, Act(o, 0, Clean, false));
            o in t.runs && t.runs[o].size == s.runs[o].size && t.runs[o].phase.Releasing? && t.runs[o].phase.status.state == Ready
  {
    assert Behind(s.runs[o], s.db, master);
    ValidatePrefix(s.db, master, s.runs[o].size);
  }

  /** Events after which a process not bound to stop ends otherwise. */
  function WayOut(s: State, o: Owner): seq<Event>
    requires o in s.runs
  {
    var finish := Act(o, 0, Clean, false);
    match s.runs[o].phase
    case Applying(_, _, _) => [Act(o, 0, Clean, true), finish]
    case Inspecting => [finish, finish]
    case Releasing(_) => [finish]
    case _ => []
  }

  lemma UnboundEndsOtherwise(master: Registry, ttl: int, s: State, o: Owner)
    requires Ascends(master) && Safe(s, master) && Fenced(s, o) && !BoundToStop(s, o)
    ensures !StoppedShort(After(master, ttl, s, WayOut(s, o)), o)
  {
    var phase, finish := s.runs[o].phase, Act(o, 0, Clean, false);
    assert Behind(s.runs[o], s.db, master);
    if phase.Applying? {
      PreflightReportsDrift(master, ttl, s, o);
      var t := Step(master, ttl, s, Act(o, 0, Clean, true));
      ReleasingEnds(master, ttl, t, o, t.runs[o].phase.status);
      AfterTwo(master, ttl, s, Act(o, 0, Clean, true), finish);
    } else if phase.Inspecting? {
      InspectionReportsReady(master, ttl, s, o);
      var t := Step(master, ttl, s, finish);
      ReleasingEnds(master, ttl, t, o, t.runs[o].phase.status);
      AfterTwo(master, ttl, s, finish, finish);
    } else if phase.Releasing? {
      ReleasingEnds(master, ttl, s, o, phase.status);
      AfterOne(master, ttl, s, finish);
    }
  }

  /**
   For a fenced process of any reachable state: busy and failed are the only ends left to it exactly
   when it is not looking at the schema, or looks at it with more versions journaled than it knows.
   */
  lemma FencedEndsExactly(master: Registry, ttl: int, start: State, before: seq<Event>, o: Owner)
    requires Ascends(master) && Initial(start, master) && Fenced(Execution(master, ttl, start, before), o)
    ensures var s := Execution(master, ttl, start, before);
            OnlyStopsShort(master, ttl, s, o) <==> BoundToStop(s, o)
  {
    var s := Execution(master, ttl, start, before);
    JournalIsAlwaysAPrefix(master, ttl, start, before);
    if BoundToStop(s, o) {
      forall events: seq<Event> ensures StoppedShort(After(master, ttl, s, events), o) {
        StaysBound(master, ttl, s, events, o);
      }
    } else {
      UnboundEndsOtherwise(master, ttl, s, o);
    }
  }

  // ----- three runs that do end otherwise

  // The registry holds one migration `m` with tables of its own; any such migration will do.

  const EMPTY: State := State(Database([], None, {}), 0, map[])
  const GO: Event := Act(1, 0, Clean, false)
  const DRIFT: Event := Act(1, 0, Clean, true)

  /** Owner 1 starts and takes the lock; goes on to the first schema check, the second, and the final inspection. */
  const ACQUIRE: seq<Event> := [Spawn(1, 1, 1), GO, GO, GO]
  const TO_PREFLIGHT: seq<Event> := [GO, GO, GO, GO]
  const TO_SECONDARY: seq<Event> := [GO, GO]
  const TO_INSPECTION: seq<Event> := [GO, GO, GO, GO, GO]

  /** Owner 2 arrives a millisecond after the lease has run out and takes the lock over. */
  const TAKE_OVER: seq<Event> := [Spawn(2, 1, 1), Act(2, 1001, Clean, false), Act(2, 0, Clean, false), Act(2, 0, Clean, false)]

  const LEASED: Option<LockRow> := Some(LockRow(1, 0))

  lemma {:induction false} AfterConcat(master: Registry, ttl: int, s: State, a: seq<Event>, b: seq<Event>)
    ensures After(master, ttl, s, a + b) == After(master, ttl, After(master, ttl, s, a), b)
    decreases |a|
  {
    if a == [] {
      assert a + b == b;
    } else {
      AfterConcat(master, ttl, Step(master, ttl, s, a[0]), a[1..], b);
      assert (a + b)[1..] == a[1..] + b;
    }
  }

  lemma {:induction false} AfterIsExecution(master: Registry, ttl: int, s: State, events: seq<Event>)
    ensures After(master, ttl, s, events) == Execution(master, ttl, s, events)
  {
    if events != [] {
      var front, last := events[..|events| - 1], events[|events| - 1];
      AfterIsExecution(master, ttl, s, front);
      AfterConcat(master, ttl, s, front, [last]);
      AfterOne(master, ttl, After(master, ttl, s, front), last);
      assert front + [last] == events;
    }
  }

  lemma AfterFour(master: Registry, ttl: int, s: State, a: Event, b: Event, c: Event, d: Event)
    ensures After(master, ttl, s, [a, b, c, d])
         == Step(master, ttl, Step(master, ttl, Step(master, ttl, Step(master, ttl, s, a), b), c), d)
  {
    assert [a, b, c, d] == [a, b] + [c, d];
    AfterConcat(master, ttl, s, [a, b], [c, d]);
    AfterTwo(master, ttl, s, a, b);
    AfterTwo(master, ttl, Step(master, ttl, Step(master, ttl, s, a), b), c, d);
  }

  /** Owner 1 in the given phase, with time standing still. */
  function At(phase: Phase, applied: set<int>, db: Database): State {
    State(db, 0, map[1 := Run(1, phase, applied, 0)])
  }

  function Locked(): Database {
    Database([], LEASED, {})
  }

  function WithTables(m: Migration): Database {
    Database([], LEASED, ToSet(m.tableStatements))
  }

  function Migrated(m: Migration): Database {
    Database([RowOf(m)], LEASED, ToSet(m.tableStatements) + ToSet(m.secondaryStatements))
  }

  predicate Sound(m: Migration) {
    Ascends([m]) && Initial(EMPTY, [m])
  }

  lemma SoundStart(m: Migration)
    ensures Sound(m)
  {
    AcceptedExactlyPrefixes([], [m]);
    assert SortRows([]) == RowsOf([m][..0]);
  }

  /** One undisturbed step of owner 1. */
  lemma Goes(m: Migration, phase: Phase, applied: set<int>, db: Database, next: Phase, nextApplied: set<int>, nextDb: Database)
    requires RunStep([m], 1000, db, 0, 1, Run(1, phase, applied, 0), Clean, false) == (nextDb, Run(1, next, nextApplied, 0))
    ensures Step([m], 1000, At(phase, applied, db), GO) == At(next, nextApplied, nextDb)
  {
    assert [m][..1] == [m];
  }

  lemma AcquireRuns(m: Migration)
    ensures After([m], 1000, EMPTY, ACQUIRE) == At(Reading, {}, Locked())
  {
    AfterFour([m], 1000, EMPTY, Spawn(1, 1, 1), GO, GO, GO);
  }

  lemma ReadingGoes(m: Migration)
    requires m.tableStatements != []
    ensures RunStep([m], 1000, Locked(), 0, 1, Run(1, Reading, {}, 0), Clean, false)
         == (Locked(), Run(1, Applying(0, RenewTables, 0), {}, 0))
  {
    SoundStart(m);
    assert (set v | v in RowVersions([])) == {};
  }

  lemma PreflightReached(m: Migration)
    requires m.tableStatements != []
    ensures After([m], 1000, EMPTY, ACQUIRE + TO_PREFLIGHT) == At(Applying(0, Preflight, 0), {}, WithTables(m))
  {
    AcquireRuns(m);
    AfterConcat([m], 1000, EMPTY, ACQUIRE, TO_PREFLIGHT);
    AfterFour([m], 1000, At(Reading, {}, Locked()), GO, GO, GO, GO);
    ReadingGoes(m);
    Goes(m, Reading, {}, Locked(), Applying(0, RenewTables, 0), {}, Locked());
    Goes(m, Applying(0, RenewTables, 0), {}, Locked(), Applying(0, Tables, 0), {}, Locked());
    assert Execute(Locked(), m.tableStatements) == WithTables(m);
    Goes(m, Applying(0, Tables, 0), {}, Locked(), Applying(0, RenewPreflight, 0), {}, WithTables(m));
    Goes(m, Applying(0, RenewPreflight, 0), {}, WithTables(m), Applying(0, Preflight, 0), {}, WithTables(m));
  }

  lemma SecondaryReached(m: Migration)
    requires m.tableStatements != []
    ensures After([m], 1000, EMPTY, ACQUIRE + TO_PREFLIGHT + TO_SECONDARY) == At(Applying(0, SecondaryPreflight, 0), {}, WithTables(m))
  {
    PreflightReached(m);
    AfterConcat([m], 1000, EMPTY, ACQUIRE + TO_PREFLIGHT, TO_SECONDARY);
    AfterTwo([m], 1000, At(Applying(0, Preflight, 0), {}, WithTables(m)), GO, GO);
    Goes(m, Applying(0, Preflight, 0), {}, WithTables(m), Applying(0, RenewSecondary, 0), {}, WithTables(m));
    Goes(m, Applying(0, RenewSecondary, 0), {}, WithTables(m), Applying(0, SecondaryPreflight, 0), {}, WithTables(m));
  }

  lemma CommitGoes(m: Migration)
    requires m.tableStatements != []
    ensures RunStep([m], 1000, WithTables(m), 0, 1, Run(1, Applying(0, Commit, 0), {}, 0), Clean, false)
         == (Migrated(m), Run(1, Applying(0, RenewAfter, 0), {}, 0))
  {
    assert InsertRow(RowOf(m), []) == [RowOf(m)];
    assert !Journaled(WithTables(m), m.version);
    assert CommitBatch(WithTables(m), m) == Some(Migrated(m));
  }

  lemma RenewalEndsLoop(m: Migration)
    ensures RunStep([m], 1000, Migrated(m), 0, 1, Run(1, Applying(0, RenewAfter, 0), {}, 0), Clean, false)
         == (Migrated(m), Run(1, FinalRenew(0), {m.version}, 0))
  {
    assert {} + {m.version} == {m.version};
  }

  lemma InspectionReached(m: Migration)
    requires m.tableStatements != []
    ensures After([m], 1000, EMPTY, ACQUIRE + TO_PREFLIGHT + TO_SECONDARY + TO_INSPECTION) == At(Inspecting, {m.version}, Migrated(m))
  {
    SecondaryReached(m);
    AfterConcat([m], 1000, EMPTY, ACQUIRE + TO_PREFLIGHT + TO_SECONDARY, TO_INSPECTION);
    var s := At(Applying(0, SecondaryPreflight, 0), {}, WithTables(m));
    assert TO_INSPECTION == [GO, GO, GO, GO] + [GO];
    AfterConcat([m], 1000, s, [GO, GO, GO, GO], [GO]);
    CommittedAndRenewed(m);
    AfterOne([m], 1000, At(FinalRenew(0), {m.version}, Migrated(m)), GO);
    Goes(m, FinalRenew(0), {m.version}, Migrated(m), Inspecting, {m.version}, Migrated(m));
  }

  lemma CommittedAndRenewed(m: Migration)
    requires m.tableStatements != []
    ensures After([m], 1000, At(Applying(0, SecondaryPreflight, 0), {}, WithTables(m)), [GO, GO, GO, GO])
         == At(FinalRenew(0), {m.version}, Migrated(m))
  {
    var s := At(Applying(0, SecondaryPreflight, 0), {}, WithTables(m));
    AfterFour([m], 1000, s, GO, GO, GO, GO);
    Goes(m, Applying(0, SecondaryPreflight, 0), {}, WithTables(m), Applying(0, RenewCommit, 0), {}, WithTables(m));
    Goes(m, Applying(0, RenewCommit, 0), {}, WithTables(m), Applying(0, Commit, 0), {}, WithTables(m));
    CommitGoes(m);
    Goes(m, Applying(0, Commit, 0), {}, WithTables(m), Applying(0, RenewAfter, 0), {}, Migrated(m));
    RenewalEndsLoop(m);
    Goes(m, Applying(0, RenewAfter, 0), {}, Migrated(m), FinalRenew(0), {m.version}, Migrated(m));
  }

  /** Wherever owner 1 is, its lease of 1000 ms does not keep owner 2 out at 1001. */
  lemma TakenOver(m: Migration, phase: Phase, applied: set<int>, db: Database)
    requires db.lock == LEASED
    ensures After([m], 1000, At(phase, applied, db), TAKE_OVER)
         == State(db.(lock := Some(LockRow(2, 1001))), 1001,
                  map[1 := Run(1, phase, applied, 0), 2 := Run(1, Reading, {}, 1001)])
  {
    AfterFour([m], 1000, At(phase, applied, db), TAKE_OVER[0], TAKE_OVER[1], TAKE_OVER[2], TAKE_OVER[3]);
  }

  /** After the first events owner 1 is fenced in the given phase, and after two more it has ended in the given state. */
  ghost predicate FencedAndEnds(m: Migration, before: seq<Event>, phase: Phase, more: seq<Event>, end: SchemaState) {
    var s, t := Execution([m], 1000, EMPTY, before), Execution([m], 1000, EMPTY, before + more);
    && Sound(m)
    && Fenced(s, 1) && s.runs[1].phase == phase
    && 1 in t.runs && t.runs[1].phase.Ended? && t.runs[1].phase.status.state == end
  }

  /** The last two steps, once the first of them is known to release with that state. */
  lemma EndsAfter(m: Migration, before: seq<Event>, phase: Phase, first: Event, end: SchemaState)
    requires Sound(m)
    requires var s, t := After([m], 1000, EMPTY, before), Step([m], 1000, After([m], 1000, EMPTY, before), first);
             && Fenced(s, 1) && s.runs[1].phase == phase
             && 1 in t.runs && t.runs[1].size <= 1 && t.runs[1].phase.Releasing? && t.runs[1].phase.status.state == end
    ensures FencedAndEnds(m, before, phase, [first, GO], end)
  {
    var s := After([m], 1000, EMPTY, before);
    var t := Step([m], 1000, s, first);
    ReleasingEnds([m], 1000, t, 1, t.runs[1].phase.status);
    AfterTwo([m], 1000, s, first, GO);
    AfterConcat([m], 1000, EMPTY, before, [first, GO]);
    AfterIsExecution([m], 1000, EMPTY, before);
    AfterIsExecution([m], 1000, EMPTY, before + [first, GO]);
  }

  lemma SafeAfter(m: Migration, before: seq<Event>)
    ensures Sound(m) && Safe(After([m], 1000, EMPTY, before), [m])
  {
    SoundStart(m);
    AfterIsExecution([m], 1000, EMPTY, before);
    JournalIsAlwaysAPrefix([m], 1000, EMPTY, before);
  }

  lemma DriftEnds(m: Migration, before: seq<Event>, phase: Phase, db: Database)
    requires After([m], 1000, EMPTY, before) == At(phase, {}, db) && db.lock == LEASED
    requires phase.Applying? && phase.step in {Preflight, SecondaryPreflight}
    ensures FencedAndEnds(m, before + TAKE_OVER, phase, [DRIFT, GO], Incompatible)
  {
    TakenOver(m, phase, {}, db);
    AfterConcat([m], 1000, EMPTY, before, TAKE_OVER);
    SafeAfter(m, before + TAKE_OVER);
    PreflightReportsDrift([m], 1000, After([m], 1000, EMPTY, before + TAKE_OVER), 1);
    EndsAfter(m, before + TAKE_OVER, phase, DRIFT, Incompatible);
  }

  lemma FencedPreflightMayEndIncompatible(m: Migration)
    requires m.tableStatements != []
    ensures FencedAndEnds(m, ACQUIRE + TO_PREFLIGHT + TAKE_OVER, Applying(0, Preflight, 0), [DRIFT, GO], Incompatible)
  {
    PreflightReached(m);
    DriftEnds(m, ACQUIRE + TO_PREFLIGHT, Applying(0, Preflight, 0), WithTables(m));
  }

  lemma FencedSecondaryPreflightMayEndIncompatible(m: Migration)
    requires m.tableStatements != []
    ensures FencedAndEnds(m, ACQUIRE + TO_PREFLIGHT + TO_SECONDARY + TAKE_OVER, Applying(0, SecondaryPreflight, 0),
                          [DRIFT, GO], Incompatible)
  {
    SecondaryReached(m);
    DriftEnds(m, ACQUIRE + TO_PREFLIGHT + TO_SECONDARY, Applying(0, SecondaryPreflight, 0), WithTables(m));
  }

  lemma FencedInspectionMayReportReady(m: Migration)
    requires m.tableStatements != []
    ensures FencedAndEnds(m, ACQUIRE + TO_PREFLIGHT + TO_SECONDARY + TO_INSPECTION + TAKE_OVER, Inspecting, [GO, GO], Ready)
  {
    var before := ACQUIRE + TO_PREFLIGHT + TO_SECONDARY + TO_INSPECTION;
    InspectionReached(m);
    TakenOver(m, Inspecting, {m.version}, Migrated(m));
    AfterConcat([m], 1000, EMPTY, before, TAKE_OVER);
    SafeAfter(m, before + TAKE_OVER);
    InspectionReportsReady([m], 1000, After([m], 1000, EMPTY, before + TAKE_OVER), 1);
    EndsAfter(m, before + TAKE_OVER, Inspecting, GO, Ready);
  }
}
