/**
 What the managed entry points answer, on every path: an inspection's own finding, a run's own end, or
 the registry's failure, each put against the whole registry.
 */
module ManagedAnswers {
  import opened Prelude
  import opened MigrationJournal
  import opened MigrationLock
  import opened MigrationRun
  import opened MigrationSafety
  import opened MigrationStatuses
  import opened ManagedRegistry

  /** The inspection saw the rows of the first migrations, and no drift. */
  predicate Clear(seen: Observation, registry: Managed) {
    seen.Seen? && !seen.drifted && RowsInPlace(seen.rows, Bases(registry))
  }

  /** The answer to a journal of the first `n` migrations: ready when that is all of them, otherwise pending with the rest. */
  predicate AnswersClear(answer: Status, registry: Managed, n: nat)
    requires n <= |registry|
  {
    var all := Versions(Bases(registry));
    && answer.applied == all[..n] && answer.pending == all[n..]
    && answer.current == n && answer.latest == |registry|
    && (n == |registry| ==> answer.state == Ready && answer.error == NoError)
    && (n < |registry| ==> answer.state == Pending && answer.error == SchemaMigrationPending)
  }

  /** The same finding, with the pending versions counted against the whole registry. */
  ghost predicate AnswersAs(answer: Status, source: Status, registry: Managed) {
    && answer.state == source.state && answer.error == source.error
    && answer.applied == source.applied && answer.current == source.current
    && answer.latest == |registry|
    && Rising(answer.pending) && forall v :: v in answer.pending <==> 1 <= v <= |registry| && v !in source.applied
  }

  /** Something automatic is missing, or nothing could be read at all. */
  predicate NeedsRun(registry: Managed, first: Observation) {
    Only(registry, Automatic) != [] && (first == Throws || (Clear(first, registry) && |first.rows| < |Only(registry, Automatic)|))
  }

  // ----- projections

  lemma VersionsCount(registry: Managed)
    requires RegistryValid(registry)
    ensures forall i :: 0 <= i < |registry| ==> Bases(registry)[i].version == i + 1
  {
    forall i | 0 <= i < |registry| ensures Bases(registry)[i].version == i + 1 {
      assert MigrationValid(registry[i], i + 1);
    }
  }

  lemma FullStatusMeans(source: Status, registry: Managed)
    requires RegistryValid(registry)
    ensures AnswersAs(FullRegistryStatus(source, registry), source, registry)
  {
    var bases := Bases(registry);
    VersionsCount(registry);
    MissingAscends(bases, source.applied);
    forall v ensures v in Missing(bases, source.applied) <==> 1 <= v <= |registry| && v !in source.applied {
      MissingExactly(bases, source.applied, v);
      if 1 <= v <= |registry| {
        assert bases[v - 1].version == v;
      }
    }
  }

  lemma ClearIsReady(registry: Managed, seen: Observation)
    requires RegistryValid(registry)
    ensures Clear(seen, registry) <==> Inspect(seen, Bases(registry)).state == Ready
    ensures Clear(seen, registry) ==>
              var status, n := Inspect(seen, Bases(registry)), |seen.rows|;
              n <= |registry| && status.applied == Versions(Bases(registry))[..n] && status.current == n && status.error == NoError
              && IsAppliedPrefix(registry, status.applied)
  {
    ValidAscends(registry);
    InspectionStates(seen, Bases(registry));
    if Clear(seen, registry) {
      VersionsCount(registry);
      ReadyListsPrefix(registry, seen);
      InspectionErrors(seen, Bases(registry));
      InspectionLists(seen, Bases(registry));
    }
  }

  lemma FullOfPrefix(registry: Managed, source: Status, n: nat)
    requires RegistryValid(registry) && n <= |registry|
    requires source.state == Ready && source.error == NoError && source.applied == Versions(Bases(registry))[..n] && source.current == n
    ensures IsAppliedPrefix(registry, source.applied)
    ensures FullRegistryStatus(source, registry)
         == Status(Ready, n, |registry|, Versions(Bases(registry))[..n], Versions(Bases(registry))[n..], NoError)
  {
    FullStatusOfPrefix(registry, source);
    VersionsCount(registry);
  }

  lemma PendingsOfPrefix(registry: Managed, applied: seq<int>)
    requires RegistryValid(registry) && IsAppliedPrefix(registry, applied) && |Only(registry, Automatic)| <= |applied|
    ensures PendingOf(registry, applied, Automatic) == Some([])
    ensures PendingOf(registry, applied, Controlled) == Some(registry[|applied|..])
  {
    NoAutomaticPending(registry, applied);
    SuffixIsControlled(registry, |applied|);
  }

  lemma ProjectionOf(registry: Managed, source: Status, full: Status, rest: Managed)
    requires full == FullRegistryStatus(source, registry) && full.state == Ready
    requires PendingOf(registry, full.applied, Automatic) == Some([]) && PendingOf(registry, full.applied, Controlled) == Some(rest)
    ensures PendingProjection(source, registry) == Some(if rest == [] then full else full.(state := Pending, error := SchemaMigrationPending))
  {
  }

  lemma ReadyProjection(registry: Managed, source: Status, n: nat)
    requires RegistryValid(registry) && |Only(registry, Automatic)| <= n <= |registry|
    requires source.state == Ready && source.error == NoError && source.applied == Versions(Bases(registry))[..n] && source.current == n
    ensures PendingProjection(source, registry).Some? && AnswersClear(PendingProjection(source, registry).value, registry, n)
  {
    FullOfPrefix(registry, source, n);
    PendingsOfPrefix(registry, source.applied);
    ProjectionOf(registry, source, FullRegistryStatus(source, registry), registry[n..]);
  }

  /** A clear inspection that covers the automatic migrations is answered as such. */
  lemma ClearProjection(registry: Managed, seen: Observation, source: Status)
    requires RegistryValid(registry) && Clear(seen, registry) && |Only(registry, Automatic)| <= |seen.rows|
    requires source in {Inspect(seen, Bases(registry)), FullRegistryStatus(Inspect(seen, Bases(registry)), registry)}
    ensures |seen.rows| <= |registry|
    ensures PendingProjection(source, registry).Some? && AnswersClear(PendingProjection(source, registry).value, registry, |seen.rows|)
  {
    ClearIsReady(registry, seen);
    ReadyProjection(registry, source, |seen.rows|);
  }

  /** Any other finding is passed on. */
  lemma UnclearProjection(registry: Managed, seen: Observation, source: Status)
    requires RegistryValid(registry) && !Clear(seen, registry)
    requires source in {Inspect(seen, Bases(registry)), FullRegistryStatus(Inspect(seen, Bases(registry)), registry)}
    ensures PendingProjection(source, registry) == Some(FullRegistryStatus(source, registry))
    ensures AnswersAs(FullRegistryStatus(source, registry), Inspect(seen, Bases(registry)), registry)
  {
    ClearIsReady(registry, seen);
    FullStatusMeans(source, registry);
  }

  /** The managed inspection answers what it saw; only a journal that lacks automatic migrations is called ready as it is. */
  lemma InspectManagedAnswers(registry: Managed, seen: Observation)
    requires RegistryValid(registry)
    ensures var answer := InspectManaged(registry, seen);
            && answer.Some?
            && (!Clear(seen, registry) || |seen.rows| < |Only(registry, Automatic)| ==>
                  AnswersAs(answer.value, Inspect(seen, Bases(registry)), registry))
            && (Clear(seen, registry) && |seen.rows| >= |Only(registry, Automatic)| ==>
                  |seen.rows| <= |registry| && AnswersClear(answer.value, registry, |seen.rows|))
  {
    var source := Inspect(seen, Bases(registry));
    if !Clear(seen, registry) {
      UnclearProjection(registry, seen, source);
    } else if |seen.rows| >= |Only(registry, Automatic)| {
      ClearProjection(registry, seen, source);
    } else {
      ClearIsReady(registry, seen);
      FullStatusMeans(source, registry);
      NoAutomaticPending(registry, source.applied);
    }
  }

  // ----- the managed ensure

  lemma FirstDecides(registry: Managed, first: Observation)
    requires RegistryValid(registry)
    ensures var initial := FullRegistryStatus(Inspect(first, Bases(registry)), registry);
            && (initial.state == Ready <==> Clear(first, registry))
            && (initial.state == Failed && initial.error == SchemaMigrationFailed && initial.applied == [] <==> first == Throws)
            && (initial.state == Ready ==>
                  && PendingOf(registry, initial.applied, Automatic).Some?
                  && (PendingOf(registry, initial.applied, Automatic).value == [] <==> |Only(registry, Automatic)| <= |first.rows|))
  {
    ValidAscends(registry);
    ClearIsReady(registry, first);
    InspectionErrors(first, Bases(registry));
    if Clear(first, registry) {
      NoAutomaticPending(registry, Inspect(first, Bases(registry)).applied);
    }
  }

  /** Without a run the answer is the first inspection's. */
  lemma AnswersWithoutRun(registry: Managed, first: Observation, automaticRun: PlainStatus, last: Observation)
    requires RegistryValid(registry) && !NeedsRun(registry, first)
    ensures var answer := EnsureManaged(registry, first, automaticRun, last);
            && answer.Some?
            && (if Clear(first, registry) then |first.rows| <= |registry| && AnswersClear(answer.value, registry, |first.rows|)
                else AnswersAs(answer.value, Inspect(first, Bases(registry)), registry))
  {
    var initial := FullRegistryStatus(Inspect(first, Bases(registry)), registry);
    FirstDecides(registry, first);
    if Clear(first, registry) {
      ClearProjection(registry, first, initial);
    } else {
      UnclearProjection(registry, first, initial);
      FullStatusMeans(Inspect(first, Bases(registry)), registry);
    }
  }

  /** With one, it is the run's unless that ended ready, and the last inspection's if it did. */
  lemma AnswersWithRun(registry: Managed, first: Observation, automaticRun: PlainStatus, last: Observation)
    requires RegistryValid(registry) && NeedsRun(registry, first)
    requires automaticRun.state == Ready && Clear(last, registry) ==> |Only(registry, Automatic)| <= |last.rows|
    ensures var answer := EnsureManaged(registry, first, automaticRun, last);
            && answer.Some?
            && (automaticRun.state != Ready ==> AnswersAs(answer.value, automaticRun, registry))
            && (automaticRun.state == Ready && !Clear(last, registry) ==> AnswersAs(answer.value, Inspect(last, Bases(registry)), registry))
            && (automaticRun.state == Ready && Clear(last, registry) ==>
                  |last.rows| <= |registry| && AnswersClear(answer.value, registry, |last.rows|))
  {
    FirstDecides(registry, first);
    FullStatusMeans(automaticRun, registry);
    var source := Inspect(last, Bases(registry));
    if Clear(last, registry) && automaticRun.state == Ready {
      ClearProjection(registry, last, source);
    }
    if !Clear(last, registry) {
      UnclearProjection(registry, last, source);
    }
  }

  lemma LatestIsLast(registry: Managed, source: Status)
    requires RegistryValid(registry)
    ensures FullRegistryStatus(source, registry).latest == |registry|
    ensures PendingProjection(source, registry).Some? ==> PendingProjection(source, registry).value.latest == |registry|
  {
    assert MigrationValid(registry[|registry| - 1], |registry|);
  }

  lemma AnswerNamesLatest(registry: Managed, first: Observation, automaticRun: PlainStatus, last: Observation)
    requires RegistryValid(registry) && EnsureManaged(registry, first, automaticRun, last).Some?
    ensures EnsureManaged(registry, first, automaticRun, last).value.latest == |registry|
  {
    var initial := FullRegistryStatus(Inspect(first, Bases(registry)), registry);
    LatestIsLast(registry, Inspect(first, Bases(registry)));
    LatestIsLast(registry, initial);
    LatestIsLast(registry, automaticRun);
    LatestIsLast(registry, Inspect(last, Bases(registry)));
  }

  /** A registry failure is answered exactly for an invalid registry. */
  lemma RegistryFailureExactly(registry: Managed, first: Observation, automaticRun: PlainStatus, last: Observation)
    ensures EnsureManaged(registry, first, automaticRun, last) == Some(RegistryFailure()) <==> !RegistryValid(registry)
    ensures InspectManaged(registry, first) == Some(RegistryFailure()) <==> !RegistryValid(registry)
  {
    if RegistryValid(registry) {
      LatestIsLast(registry, Inspect(first, Bases(registry)));
      if EnsureManaged(registry, first, automaticRun, last).Some? {
        AnswerNamesLatest(registry, first, automaticRun, last);
      }
    }
  }

  /**
   The managed ensure in one execution of the protocol: the automatic run takes place exactly when the
   first inspection lacks automatic migrations or failed. A run that is not ready at its end is answered as
   it ended. After a ready run a clear last inspection is answered `ready` exactly when every version is
   journaled and `pending` with the controlled rest otherwise, and any other last inspection as it is.
   */
  lemma EnsureManagedAnswers(registry: Managed, ttl: int, s: State, events: seq<Event>, o: Owner, first: Observation, last: Observation)
    requires RegistryValid(registry) && Initial(s, Bases(registry))
    requires var t := Execution(Bases(registry), ttl, s, events);
             o in t.runs && t.runs[o].size == |Only(registry, Automatic)| && t.runs[o].phase.Ended?
             && (last.Seen? ==> last.rows == t.db.journal)
    ensures var t := Execution(Bases(registry), ttl, s, events);
            var run := t.runs[o].phase.status;
            var answer := EnsureManaged(registry, first, run, last);
            && answer.Some?
            && (!NeedsRun(registry, first) ==>
                  if Clear(first, registry) then |first.rows| <= |registry| && AnswersClear(answer.value, registry, |first.rows|)
                  else AnswersAs(answer.value, Inspect(first, Bases(registry)), registry))
            && (NeedsRun(registry, first) && run.state != Ready ==> AnswersAs(answer.value, run, registry))
            && (NeedsRun(registry, first) && run.state == Ready && last.Seen? && !last.drifted ==>
                  |Only(registry, Automatic)| <= |t.db.journal| <= |registry| && AnswersClear(answer.value, registry, |t.db.journal|))
            && (NeedsRun(registry, first) && run.state == Ready && !(last.Seen? && !last.drifted) ==>
                  AnswersAs(answer.value, Inspect(last, Bases(registry)), registry))
  {
    var t := Execution(Bases(registry), ttl, s, events);
    var run := t.runs[o].phase.status;
    if NeedsRun(registry, first) {
      if run.state == Ready {
        CoveredAtTheEnd(registry, ttl, s, events, o);
      }
      AnswersWithRun(registry, first, run, last);
    } else {
      AnswersWithoutRun(registry, first, run, last);
    }
  }

  lemma CoveredAtTheEnd(registry: Managed, ttl: int, s: State, events: seq<Event>, o: Owner)
    requires RegistryValid(registry) && Initial(s, Bases(registry))
    requires var t := Execution(Bases(registry), ttl, s, events);
             o in t.runs && t.runs[o].size == |Only(registry, Automatic)| && t.runs[o].phase.Ended? && t.runs[o].phase.status.state == Ready
    ensures var t := Execution(Bases(registry), ttl, s, events);
            RowsInPlace(t.db.journal, Bases(registry)) && |Only(registry, Automatic)| <= |t.db.journal| <= |registry|
  {
    ValidAscends(registry);
    ReadyRunCoversRegistry(Bases(registry), ttl, s, events, o);
    ReachableJournalIsAccepted(Bases(registry), ttl, s, events);
    AcceptedExactlyPrefixes(Execution(Bases(registry), ttl, s, events).db.journal, Bases(registry));
  }
}
