/**
 What the lease adds: within its TTL a renewal keeps every other process out, and a process whose
 lock was taken over can never get it back, cannot disturb the new owner's row, and executes at
 most one more batch.
 */
module MigrationFencing {
  import opened Prelude
  import opened MigrationJournal
  import opened MigrationLock
  import opened MigrationRun

  /** Phases of a process that acquired the lock and has not tried to release it yet. */
  predicate Working(phase: Phase) {
    phase.Reading? || phase.Applying? || phase.FinalRenew? || phase.Inspecting?
  }

  predicate PastAcquire(phase: Phase) {
    Working(phase) || phase.Releasing? || phase.Ended?
  }

  predicate Owns(db: Database, owner: Owner) {
    db.lock.Some? && db.lock.value.owner == owner
  }

  // ----- lease arithmetic

  /** The clock reading a waiting statement of this process carries, if any. */
  predicate ReadingsPast(phase: Phase, clock: int) {
    match phase
    case Deleting(_, at) => at <= clock
    case Inserting(_, at) => at <= clock
    case Applying(_, _, at) => at <= clock
    case FinalRenew(at) => at <= clock
    case _ => true
  }

  predicate RenewalOrder(run: Run) {
    match run.phase
    case Applying(_, _, at) => run.renewedAt <= at
    case FinalRenew(at) => run.renewedAt <= at
    case _ => true
  }

  /** The lease of a working process is on the row as long as the TTL since its renewal has not passed. */
  predicate Leased(run: Run, db: Database, clock: int, ttl: int, owner: Owner) {
    Working(run.phase) && clock <= run.renewedAt + ttl ==> Owns(db, owner) && run.renewedAt <= db.lock.value.acquiredAt
  }

  predicate LeaseFacts(run: Run, db: Database, clock: int, ttl: int, owner: Owner) {
    && ReadingsPast(run.phase, clock)
    && RenewalOrder(run)
    && (Working(run.phase) ==> run.renewedAt <= clock)
    && Leased(run, db, clock, ttl, owner)
  }

  predicate LeaseState(s: State, ttl: int) {
    forall o :: o in s.runs ==> LeaseFacts(s.runs[o], s.db, s.clock, ttl, o)
  }

  lemma {:induction false} AdvancePhase(registry: Registry, applied: set<int>, i: nat, clock: int)
    ensures var phase := Advance(registry, applied, i, clock);
            (phase.Applying? && phase.at == clock && IsRenewal(phase.step)) || phase == FinalRenew(clock)
    decreases |registry| - i
  {
    if i < |registry| && registry[i].version in applied {
      AdvancePhase(registry, applied, i + 1, clock);
    }
  }

  lemma RenewalKeepsLease(registry: Registry, ttl: int, db: Database, clock: int, owner: Owner, run: Run, fault: Fault, drift: bool, before: int)
    requires ttl >= 0 && before <= clock && LeaseFacts(run, db, before, ttl, owner)
    requires run.phase.Applying? && run.phase.i < |registry| && IsRenewal(run.phase.step)
    ensures var (db', run') := RunStep(registry, ttl, db, clock, owner, run, fault, drift);
            LeaseFacts(run', db', clock, ttl, owner)
  {
    AdvancePhase(registry, run.applied + {registry[run.phase.i].version}, run.phase.i + 1, clock);
  }

  lemma ApplyingKeepsLease(registry: Registry, ttl: int, db: Database, clock: int, owner: Owner, run: Run, fault: Fault, drift: bool, before: int)
    requires ttl >= 0 && before <= clock && LeaseFacts(run, db, before, ttl, owner)
    requires run.phase.Applying? && !(run.phase.i < |registry| && IsRenewal(run.phase.step))
    ensures var (db', run') := RunStep(registry, ttl, db, clock, owner, run, fault, drift);
            LeaseFacts(run', db', clock, ttl, owner)
  {
  }

  /** The acting process keeps its own lease facts. */
  lemma ActorKeepsLease(registry: Registry, ttl: int, db: Database, clock: int, owner: Owner, run: Run, fault: Fault, drift: bool, before: int)
    requires ttl >= 0 && before <= clock && LeaseFacts(run, db, before, ttl, owner)
    ensures var (db', run') := RunStep(registry, ttl, db, clock, owner, run, fault, drift);
            LeaseFacts(run', db', clock, ttl, owner)
  {
    if run.phase.Reading? {
      AdvancePhase(registry, set v | v in RowVersions(db.journal), 0, clock);
    } else if run.phase.Applying? {
      if run.phase.i < |registry| && IsRenewal(run.phase.step) {
        RenewalKeepsLease(registry, ttl, db, clock, owner, run, fault, drift, before);
      } else {
        ApplyingKeepsLease(registry, ttl, db, clock, owner, run, fault, drift, before);
      }
    }
  }

  /** A step of one process does not end the live lease of another. */
  lemma OthersKeepLease(registry: Registry, ttl: int, db: Database, clock: int, owner: Owner, run: Run, fault: Fault, drift: bool,
                        other: Owner, otherRun: Run, before: int)
    requires owner != other && before <= clock
    requires ReadingsPast(run.phase, before) && LeaseFacts(otherRun, db, before, ttl, other)
    ensures LeaseFacts(otherRun, RunStep(registry, ttl, db, clock, owner, run, fault, drift).0, clock, ttl, other)
  {
  }

  lemma StepKeepsLeases(master: Registry, ttl: int, s: State, event: Event)
    requires ttl >= 0 && LeaseState(s, ttl)
    ensures LeaseState(Step(master, ttl, s, event), ttl)
  {
    if event.Act? {
      var clock := s.clock + event.delay;
      var s' := Step(master, ttl, s, event);
      if event.owner in s.runs && s.runs[event.owner].size <= |master| {
        var run := s.runs[event.owner];
        var registry := master[..run.size];
        assert LeaseFacts(run, s.db, s.clock, ttl, event.owner);
        forall o | o in s'.runs ensures LeaseFacts(s'.runs[o], s'.db, clock, ttl, o) {
          if o == event.owner {
            ActorKeepsLease(registry, ttl, s.db, clock, o, run, event.fault, event.drift, s.clock);
          } else {
            OthersKeepLease(registry, ttl, s.db, clock, event.owner, run, event.fault, event.drift, o, s.runs[o], s.clock);
          }
        }
      } else {
        forall o | o in s'.runs ensures LeaseFacts(s'.runs[o], s'.db, clock, ttl, o) {
          assert LeaseFacts(s.runs[o], s.db, s.clock, ttl, o);
        }
      }
    }
  }

  lemma {:induction false} LeasesHoldThroughout(master: Registry, ttl: int, s: State, events: seq<Event>)
    requires ttl >= 0 && s.runs == map[]
    ensures LeaseState(Execution(master, ttl, s, events), ttl)
  {
    if events != [] {
      var before := events[..|events| - 1];
      LeasesHoldThroughout(master, ttl, s, before);
      StepKeepsLeases(master, ttl, Execution(master, ttl, s, before), events[|events| - 1]);
    }
  }

  /**
   A working process within the TTL of its last renewal, up to and including the last instant, is the
   sole holder: the row is its own, no other process is within its TTL, and no attempt of another
   process to acquire at any time up to that instant succeeds. In particular a batch begun within
   the TTL of its renewal belongs to the sole holder.
   */
  lemma LeaseIsExclusive(master: Registry, ttl: int, s: State, events: seq<Event>, o: Owner, other: Owner, at: int)
    requires ttl >= 0 && s.runs == map[] && o != other
    requires var t := Execution(master, ttl, s, events);
             o in t.runs && Working(t.runs[o].phase) && t.clock <= t.runs[o].renewedAt + ttl
    ensures var t := Execution(master, ttl, s, events);
            && Owns(t.db, o)
            && (other in t.runs && Working(t.runs[other].phase) ==> t.runs[other].renewedAt + ttl < t.clock)
            && (at <= t.runs[o].renewedAt + ttl ==> !Attempt(t.db.lock, other, at, ttl).1)
  {
    LeasesHoldThroughout(master, ttl, s, events);
    var t := Execution(master, ttl, s, events);
    assert LeaseFacts(t.runs[o], t.db, t.clock, ttl, o);
    if other in t.runs {
      assert LeaseFacts(t.runs[other], t.db, t.clock, ttl, other);
    }
  }

  // ----- fencing

  /** The process acquired the lock once and has since lost it to another owner or to deletion. */
  predicate Fenced(s: State, o: Owner) {
    o in s.runs && PastAcquire(s.runs[o].phase) && !Owns(s.db, o)
  }

  lemma RunStepStaysPast(registry: Registry, ttl: int, db: Database, clock: int, owner: Owner, run: Run, fault: Fault, drift: bool)
    requires PastAcquire(run.phase)
    ensures PastAcquire(RunStep(registry, ttl, db, clock, owner, run, fault, drift).1.phase)
  {
    if run.phase.Reading? {
      AdvancePhase(registry, set v | v in RowVersions(db.journal), 0, clock);
    } else if run.phase.Applying? && run.phase.i < |registry| {
      AdvancePhase(registry, run.applied + {registry[run.phase.i].version}, run.phase.i + 1, clock);
    }
  }

  /** A process past its acquisition never puts its own name on a row that does not bear it. */
  lemma PastStepKeepsRow(registry: Registry, ttl: int, db: Database, clock: int, o: Owner, run: Run, fault: Fault, drift: bool)
    requires PastAcquire(run.phase) && !Owns(db, o)
    ensures RunStep(registry, ttl, db, clock, o, run, fault, drift).0.lock == db.lock
  {
  }

  /** And no other process does it for it. */
  lemma OthersDoNotGrant(registry: Registry, ttl: int, db: Database, clock: int, owner: Owner, run: Run, fault: Fault, drift: bool, o: Owner)
    requires owner != o && !Owns(db, o)
    ensures !Owns(RunStep(registry, ttl, db, clock, owner, run, fault, drift).0, o)
  {
  }

  /** A fenced process never owns the row again, and its own steps leave the row as it is. */
  lemma FencedForever(master: Registry, ttl: int, s: State, event: Event, o: Owner)
    requires Fenced(s, o)
    ensures Fenced(Step(master, ttl, s, event), o)
    ensures event.Act? && event.owner == o ==> Step(master, ttl, s, event).db.lock == s.db.lock
  {
    if event.Act? && event.owner in s.runs && s.runs[event.owner].size <= |master| {
      var run, clock := s.runs[event.owner], s.clock + event.delay;
      if event.owner == o {
        RunStepStaysPast(master[..run.size], ttl, s.db, clock, o, run, event.fault, event.drift);
        PastStepKeepsRow(master[..run.size], ttl, s.db, clock, o, run, event.fault, event.drift);
      } else {
        OthersDoNotGrant(master[..run.size], ttl, s.db, clock, event.owner, run, event.fault, event.drift, o);
      }
    }
  }

  /** How a fenced process can still go on: what it may report, and whether one batch is still before it. */
  predicate Doomed(phase: Phase) {
    match phase
    case Reading => true
    case Applying(_, step, _) => step !in {Preflight, SecondaryPreflight}
    case FinalRenew(_) => true
    case Inspecting => false
    case Releasing(status) => status.state == Busy || status.state == Failed
    case Ended(status) => status.state == Busy || status.state == Failed
    case _ => false
  }

  function BatchesLeft(phase: Phase): nat {
    if IsBatch(phase) then 1 else 0
  }

  /** 1 if the event makes process `o` send a batch, else 0. */
  function BatchSent(s: State, event: Event, o: Owner): nat {
    if event.Act? && event.owner == o && o in s.runs && IsBatch(s.runs[o].phase) then 1 else 0
  }

  function BatchesSent(master: Registry, ttl: int, s: State, events: seq<Event>, o: Owner): nat
    decreases |events|
  {
    if events == [] then 0
    else BatchSent(s, events[0], o) + BatchesSent(master, ttl, Step(master, ttl, s, events[0]), events[1..], o)
  }

  /** Executions read from the front. */
  function After(master: Registry, ttl: int, s: State, events: seq<Event>): State
    decreases |events|
  {
    if events == [] then s else After(master, ttl, Step(master, ttl, s, events[0]), events[1..])
  }

  lemma FencedActorStep(registry: Registry, ttl: int, db: Database, clock: int, o: Owner, run: Run, fault: Fault, drift: bool)
    requires PastAcquire(run.phase) && !Owns(db, o)
    ensures var phase := RunStep(registry, ttl, db, clock, o, run, fault, drift).1.phase;
            && BatchesLeft(phase) == 0
            && (Doomed(run.phase) ==> Doomed(phase))
  {
    if run.phase.Reading? {
      AdvancePhase(registry, set v | v in RowVersions(db.journal), 0, clock);
    } else if run.phase.Applying? && run.phase.i < |registry| {
      FencedApplyStep(registry, db, clock, o, run, fault, drift);
    }
  }

  lemma FencedApplyStep(registry: Registry, db: Database, clock: int, o: Owner, run: Run, fault: Fault, drift: bool)
    requires !Owns(db, o) && run.phase.Applying? && run.phase.i < |registry|
    ensures var p := run.phase;
            var phase := ApplyStepOf(registry, db, clock, o, run, p.i, p.step, p.at, fault, drift).1.phase;
            && BatchesLeft(phase) == 0
            && (Doomed(p) ==> Doomed(phase))
  {
  }

  lemma FencedStep(master: Registry, ttl: int, s: State, event: Event, o: Owner)
    requires Fenced(s, o) && s.runs[o].size <= |master|
    ensures var t := Step(master, ttl, s, event);
            && Fenced(t, o) && t.runs[o].size == s.runs[o].size
            && BatchSent(s, event, o) + BatchesLeft(t.runs[o].phase) <= BatchesLeft(s.runs[o].phase)
            && (Doomed(s.runs[o].phase) ==> Doomed(t.runs[o].phase))
  {
    FencedForever(master, ttl, s, event, o);
    if event.Act? && event.owner == o {
      FencedOwnStep(master, ttl, s, event, o);
    }
  }

  lemma FencedOwnStep(master: Registry, ttl: int, s: State, event: Event, o: Owner)
    requires Fenced(s, o) && s.runs[o].size <= |master| && event.Act? && event.owner == o
    ensures var t := Step(master, ttl, s, event);
            && o in t.runs && t.runs[o].size == s.runs[o].size
            && BatchSent(s, event, o) + BatchesLeft(t.runs[o].phase) <= BatchesLeft(s.runs[o].phase)
            && (Doomed(s.runs[o].phase) ==> Doomed(t.runs[o].phase))
  {
    var run, clock := s.runs[o], s.clock + event.delay;
    FencedActorStep(master[..run.size], ttl, s.db, clock, o, run, event.fault, event.drift);
    RunStepKeepsSize(master[..run.size], ttl, s.db, clock, o, run, event.fault, event.drift);
  }

  /**
   From the moment a process has lost the lock: whatever happens next it never owns the row again,
   it sends at most one more batch, and only if it was already past the renewal for that batch;
   and unless it was reading the schema at that moment, the only ends left to it are busy and failed.
   `FencedEndsExactly` says exactly when those are its only ends.
   */
  lemma {:induction false} FencedRunIsHarmless(master: Registry, ttl: int, s: State, events: seq<Event>, o: Owner)
    requires Fenced(s, o) && s.runs[o].size <= |master|
    ensures Fenced(After(master, ttl, s, events), o)
    ensures BatchesSent(master, ttl, s, events, o) <= BatchesLeft(s.runs[o].phase) <= 1
    ensures Doomed(s.runs[o].phase) ==> Doomed(After(master, ttl, s, events).runs[o].phase)
    decreases |events|
  {
    if events != [] {
      FencedStep(master, ttl, s, events[0], o);
      FencedRunIsHarmless(master, ttl, Step(master, ttl, s, events[0]), events[1..], o);
    }
  }

  /** While it holds a foreign row in place, a fenced process cannot renew and its release removes nothing. */
  lemma FencedCannotTouchOwnersRow(s: State, o: Owner, now: int)
    requires Fenced(s, o)
    ensures !Renewed(s.db.lock, o, now).1 && Renewed(s.db.lock, o, now).0 == s.db.lock
    ensures Released(s.db.lock, o) == s.db.lock
  {
  }
}
