/**
 Progress of the settings protocol: what each request achieves when nobody comes between its steps. An
 apply commits, attaches and answers, or puts everything back; the other requests do what they are for.
 */
module SettingsProgress {
  import opened Prelude
  import F = SettingsFields
  import D = SettingsDrafts
  import opened SettingsProtocol

  // ----- an apply left alone

  /** The content an undisturbed apply commits, and with its override list. */
  function CommittedContent(start: State, d: nat, input: Input): F.Content
    requires d in start.drafts
  {
    D.Committed(ContentOf(start.active, input.content), start.drafts[d].material)
  }

  function AttachedContent(start: State, d: nat, input: Input): F.Content
    requires d in start.drafts
  {
    D.Attached(CommittedContent(start, d, input), input.overrides)
  }

  /** Only draft `d` has moved, to this status, and only request `id` is another. */
  predicate Elsewhere(start: State, s: State, id: nat, d: nat, status: Status) {
    && d in start.drafts && d in s.drafts && id in s.requests && start.now <= s.now
    && s.requests == start.requests[id := s.requests[id]]
    && s.drafts == start.drafts[d := s.drafts[d]]
    && s.drafts[d] == start.drafts[d].(status := status, updated := s.drafts[d].updated)
  }

  predicate Untouched(start: State, s: State) {
    s.active == start.active && s.receipts == start.receipts && s.history == start.history && s.seals == start.seals
  }

  /** The committed row is in place under a revision that is new and not in the past. */
  predicate HasRow(start: State, s: State, a: Apply, d: nat, content: F.Content)
    requires d in start.drafts
  {
    && s.active == Some(Row(content, start.seals, a.revision)) && a.commit == start.seals
    && a.revision > start.drafts[d].base && a.revision >= start.now
  }

  predicate HasReceipt(start: State, s: State, a: Apply) {
    && a.commit in s.receipts && s.receipts[a.commit].draft == a.draft && s.receipts[a.commit].row.revision == a.revision
    && s.receipts - {a.commit} == start.receipts - {a.commit}
  }

  predicate Restored(start: State, s: State, revision: int) {
    match start.active
    case None => s.active == None
    case Some(row) => s.active.Some? && s.active.value == row.(revision := s.active.value.revision) && s.active.value.revision > revision
  }

  /** Whether the draft's base is the row in place. */
  predicate BaseInPlace(start: State, d: nat)
    requires d in start.drafts
  {
    RevisionOf(start.active) == start.drafts[d].base
  }

  /** Where an apply of draft `d` stands that has been alone since `start`. */
  predicate OnCourse(start: State, s: State, id: nat, d: nat, input: Input)
    requires d in start.drafts
  {
    && id in s.requests && s.requests[id].ApplyRequest? && s.requests[id].a.draft == d
    && start.drafts[d].status == Validated
    && var a := s.requests[id].a;
       match a.phase
       case Capture => Elsewhere(start, s, id, d, Validated) && s.drafts == start.drafts && Untouched(start, s)
       case ReadDraft => Elsewhere(start, s, id, d, Validated) && s.drafts == start.drafts && Untouched(start, s) && a.before == start.active
       case Claim =>
         Elsewhere(start, s, id, d, Validated) && Untouched(start, s) && a.before == start.active && a.seen == start.drafts[d]
       case ReadActive =>
         Elsewhere(start, s, id, d, Applying) && Untouched(start, s) && a.before == start.active && a.seen == start.drafts[d]
       case WriteBatch =>
         && Elsewhere(start, s, id, d, Applying) && Untouched(start, s) && a.before == start.active && a.seen == start.drafts[d]
         && BaseInPlace(start, d) && a.current == start.active && a.revision > start.drafts[d].base && a.revision >= start.now
       case MarkApplied =>
         && Elsewhere(start, s, id, d, Applying) && BaseInPlace(start, d) && a.before == start.active
         && HasRow(start, s, a, d, CommittedContent(start, d, input)) && HasReceipt(start, s, a)
       case MarkConflict => Elsewhere(start, s, id, d, Applying) && Untouched(start, s) && !BaseInPlace(start, d)
       case Attach =>
         && Elsewhere(start, s, id, d, Applied) && BaseInPlace(start, d) && a.before == start.active
         && HasRow(start, s, a, d, CommittedContent(start, d, input)) && HasReceipt(start, s, a)
       case Consume =>
         && Elsewhere(start, s, id, d, Applied) && BaseInPlace(start, d) && a.before == start.active && !a.detached
         && HasRow(start, s, a, d, AttachedContent(start, d, input)) && HasReceipt(start, s, a)
       case Health =>
         && Elsewhere(start, s, id, d, Applied) && BaseInPlace(start, d) && a.before == start.active && !a.detached
         && HasRow(start, s, a, d, AttachedContent(start, d, input)) && s.receipts == start.receipts - {start.seals}
       case Rollback =>
         && Elsewhere(start, s, id, d, Applied) && BaseInPlace(start, d) && a.before == start.active && !input.ok
         && HasRow(start, s, a, d, AttachedContent(start, d, input)) && s.receipts == start.receipts - {start.seals}
       case MarkRolledBack =>
         && Elsewhere(start, s, id, d, Applied) && BaseInPlace(start, d) && !input.ok
         && Restored(start, s, start.drafts[d].base) && s.receipts == start.receipts - {start.seals}
       case Ended(outcome) => Finished(start, s, id, d, input, a, outcome)
       case _ => false
  }

  /** How it ends: refused on another base with nothing changed, applied, or put back. */
  predicate Finished(start: State, s: State, id: nat, d: nat, input: Input, a: Apply, outcome: Outcome)
    requires d in start.drafts
  {
    if !BaseInPlace(start, d) then
      outcome == Refused && Elsewhere(start, s, id, d, Conflict) && Untouched(start, s)
    else if input.ok then
      && outcome == Succeeded && Elsewhere(start, s, id, d, Applied)
      && HasRow(start, s, a, d, AttachedContent(start, d, input)) && s.receipts == start.receipts - {start.seals}
    else
      && outcome == WasRolledBack && Elsewhere(start, s, id, d, RolledBack)
      && Restored(start, s, start.drafts[d].base) && s.receipts == start.receipts - {start.seals}
  }

  function StepsLeft(phase: Phase): nat {
    match phase
    case Capture => 11
    case ReadDraft => 10
    case Claim => 9
    case ReadActive => 8
    case WriteBatch => 7
    case MarkApplied => 6
    case Attach => 5
    case Consume => 4
    case Health => 3
    case Rollback => 2
    case MarkRolledBack => 1
    case MarkConflict => 1
    case _ => 0
  }

  predicate Advances(start: State, s: State, next: State, id: nat, d: nat, input: Input)
    requires d in start.drafts && id in s.requests && s.requests[id].ApplyRequest?
  {
    OnCourse(start, next, id, d, input) && StepsLeft(next.requests[id].a.phase) < StepsLeft(s.requests[id].a.phase)
  }

  lemma OpeningAdvances(start: State, s: State, id: nat, d: nat, input: Input, a: Apply)
    requires d in start.drafts && OnCourse(start, s, id, d, input) && s.requests[id] == ApplyRequest(a)
    requires a.phase.Capture? || a.phase.ReadDraft? || a.phase.Claim?
    ensures Advances(start, s, OpeningStep(s, id, a), id, d, input)
  {
  }

  lemma ReadActiveAdvances(start: State, s: State, id: nat, d: nat, input: Input, a: Apply)
    requires d in start.drafts && OnCourse(start, s, id, d, input) && s.requests[id] == ApplyRequest(a) && !input.fails
    requires a.phase.ReadActive?
    ensures Advances(start, s, ClaimedStep(s, id, a, input), id, d, input)
  {
  }

  lemma MarkAdvances(start: State, s: State, id: nat, d: nat, input: Input, a: Apply)
    requires d in start.drafts && OnCourse(start, s, id, d, input) && s.requests[id] == ApplyRequest(a) && !input.fails
    requires a.phase.MarkApplied?
    ensures Advances(start, s, ClaimedStep(s, id, a, input), id, d, input)
  {
    assert ClaimedStep(s, id, a, input) == Goto(SetStatus(s, d, Applied), id, ApplyRequest(a.(phase := Attach)));
  }

  lemma ConflictAdvances(start: State, s: State, id: nat, d: nat, input: Input, a: Apply)
    requires d in start.drafts && OnCourse(start, s, id, d, input) && s.requests[id] == ApplyRequest(a) && !input.fails
    requires a.phase.MarkConflict?
    ensures Advances(start, s, ClaimedStep(s, id, a, input), id, d, input)
  {
    assert ClaimedStep(s, id, a, input) == End(SetStatus(s, d, Conflict), id, a, Refused);
  }

  lemma CommitAdvances(start: State, s: State, id: nat, d: nat, input: Input, a: Apply)
    requires d in start.drafts && OnCourse(start, s, id, d, input) && s.requests[id] == ApplyRequest(a) && !input.fails
    requires a.phase.WriteBatch?
    ensures Advances(start, s, ClaimedStep(s, id, a, input), id, d, input)
  {
    var row := Row(CommittedContent(start, d, input), s.seals, a.revision);
    assert CommitTakesEffect(s.active, a.current) && CommitWriteStatement(s.active, a.current, row) == Some(row);
  }

  lemma AttachAdvances(start: State, s: State, id: nat, d: nat, input: Input, a: Apply)
    requires d in start.drafts && OnCourse(start, s, id, d, input) && s.requests[id] == ApplyRequest(a) && !input.fails
    requires a.phase.Attach?
    ensures Advances(start, s, AppliedStep(s, id, a, input), id, d, input)
  {
    assert Holds(s.active, a.revision);
  }

  lemma ConsumeAdvances(start: State, s: State, id: nat, d: nat, input: Input, a: Apply)
    requires d in start.drafts && OnCourse(start, s, id, d, input) && s.requests[id] == ApplyRequest(a) && !input.fails
    requires a.phase.Consume?
    ensures Advances(start, s, AppliedStep(s, id, a, input), id, d, input)
  {
    assert AppliedStep(s, id, a, input) == Goto(s.(receipts := s.receipts - {a.commit}), id, ApplyRequest(a.(phase := Health)));
  }

  lemma HealthAdvances(start: State, s: State, id: nat, d: nat, input: Input, a: Apply)
    requires d in start.drafts && OnCourse(start, s, id, d, input) && s.requests[id] == ApplyRequest(a) && !input.fails
    requires a.phase.Health?
    ensures Advances(start, s, AppliedStep(s, id, a, input), id, d, input)
  {
  }

  lemma RollbackAdvances(start: State, s: State, id: nat, d: nat, input: Input, a: Apply)
    requires d in start.drafts && OnCourse(start, s, id, d, input) && s.requests[id] == ApplyRequest(a) && !input.fails
    requires a.phase.Rollback?
    ensures Advances(start, s, AppliedStep(s, id, a, input), id, d, input)
  {
    assert Holds(s.active, a.revision);
  }

  lemma RolledBackAdvances(start: State, s: State, id: nat, d: nat, input: Input, a: Apply)
    requires d in start.drafts && OnCourse(start, s, id, d, input) && s.requests[id] == ApplyRequest(a) && !input.fails
    requires a.phase.MarkRolledBack?
    ensures Advances(start, s, AppliedStep(s, id, a, input), id, d, input)
  {
    assert AppliedStep(s, id, a, input) == End(SetStatus(s, d, RolledBack), id, a, WasRolledBack);
  }

  lemma ClaimedAdvances(start: State, s: State, id: nat, d: nat, input: Input, a: Apply)
    requires d in start.drafts && OnCourse(start, s, id, d, input) && s.requests[id] == ApplyRequest(a) && !input.fails
    requires InClaim(a.phase)
    ensures Advances(start, s, ClaimedStep(s, id, a, input), id, d, input)
  {
    match a.phase
    case ReadActive => ReadActiveAdvances(start, s, id, d, input, a);
    case MarkApplied => MarkAdvances(start, s, id, d, input, a);
    case MarkConflict => ConflictAdvances(start, s, id, d, input, a);
    case _ => CommitAdvances(start, s, id, d, input, a);
  }

  lemma AppliedAdvances(start: State, s: State, id: nat, d: nat, input: Input, a: Apply)
    requires d in start.drafts && OnCourse(start, s, id, d, input) && s.requests[id] == ApplyRequest(a) && !input.fails
    requires AfterCommit(a.phase)
    ensures Advances(start, s, AppliedStep(s, id, a, input), id, d, input)
  {
    match a.phase
    case Attach => AttachAdvances(start, s, id, d, input, a);
    case Consume => ConsumeAdvances(start, s, id, d, input, a);
    case Health => HealthAdvances(start, s, id, d, input, a);
    case Rollback => RollbackAdvances(start, s, id, d, input, a);
    case _ => RolledBackAdvances(start, s, id, d, input, a);
  }

  lemma ApplyAdvances(start: State, s: State, id: nat, d: nat, input: Input)
    requires d in start.drafts && OnCourse(start, s, id, d, input) && !input.fails && !s.requests[id].a.phase.Ended?
    ensures Advances(start, s, Step(s, Run(id, input)), id, d, input)
  {
    var a := s.requests[id].a;
    assert Step(s, Run(id, input)) == ApplyStep(s, id, a, input);
    if InClaim(a.phase) {
      ClaimedAdvances(start, s, id, d, input, a);
    } else if AfterCommit(a.phase) {
      AppliedAdvances(start, s, id, d, input, a);
    } else {
      OpeningAdvances(start, s, id, d, input, a);
    }
  }

  lemma TickKeepsCourse(start: State, s: State, id: nat, d: nat, input: Input, elapsed: nat)
    requires d in start.drafts && OnCourse(start, s, id, d, input)
    ensures OnCourse(start, Step(s, Tick(elapsed)), id, d, input)
    ensures Step(s, Tick(elapsed)).requests == s.requests
  {
  }

  /** Time passes and this request takes its steps with the given input; nothing else happens. */
  predicate Alone(events: seq<Event>, id: nat, input: Input) {
    forall k :: 0 <= k < |events| ==> events[k].Tick? || events[k] == Run(id, input)
  }

  function Turns(events: seq<Event>): nat {
    if events == [] then 0 else Turns(events[..|events| - 1]) + if events[|events| - 1].Run? then 1 else 0
  }

  /** On course, with at most `left` steps to go. */
  predicate Within(start: State, s: State, id: nat, d: nat, input: Input, left: int)
    requires d in start.drafts
  {
    OnCourse(start, s, id, d, input) && StepsLeft(s.requests[id].a.phase) <= Max(0, left)
  }

  lemma {:induction false} CourseRuns(start: State, s: State, events: seq<Event>, id: nat, d: nat, input: Input, left: int)
    requires d in start.drafts && Within(start, s, id, d, input, left) && Alone(events, id, input) && !input.fails
    ensures Within(start, Execution(s, events), id, d, input, left - Turns(events))
    decreases |events|
  {
    if events != [] {
      var n := |events| - 1;
      CourseRuns(start, s, events[..n], id, d, input, left);
      CourseStep(start, Execution(s, events[..n]), events[n], id, d, input, left - Turns(events[..n]));
    }
  }

  lemma CourseStep(start: State, s: State, e: Event, id: nat, d: nat, input: Input, left: int)
    requires d in start.drafts && Within(start, s, id, d, input, left) && (e.Tick? || e == Run(id, input)) && !input.fails
    ensures Within(start, Step(s, e), id, d, input, left - if e.Run? then 1 else 0)
  {
    if e.Tick? {
      TickKeepsCourse(start, s, id, d, input, e.elapsed);
    } else if s.requests[id].a.phase.Ended? {
      assert Step(s, e) == s;
    } else {
      ApplyAdvances(start, s, id, d, input);
    }
  }

  lemma NoneLeft(start: State, s: State, id: nat, d: nat, input: Input)
    requires d in start.drafts && OnCourse(start, s, id, d, input) && StepsLeft(s.requests[id].a.phase) == 0
    ensures s.requests[id].a.phase.Ended? && Finished(start, s, id, d, input, s.requests[id].a, s.requests[id].a.phase.outcome)
  {
  }

  /**
   An apply of a validated draft that fails nowhere and is left alone ends after eleven steps. On
   another base it is refused, the draft in conflict and nothing else changed. On its base it commits
   the draft over the row in place, attaches the list and consumes its receipt; when the health check
   passes that is the outcome, and when not the captured row is back under a larger revision, or none.
   */
  lemma ApplyAlone(s: State, id: nat, d: nat, events: seq<Event>, input: Input)
    requires id !in s.requests && d in s.drafts && s.drafts[d].status == Validated
    requires Alone(events, id, input) && Turns(events) >= 11 && !input.fails
    ensures var t := Execution(Step(s, StartApply(id, d)), events);
            && id in t.requests && t.requests[id].ApplyRequest? && t.requests[id].a.phase.Ended?
            && Finished(s, t, id, d, input, t.requests[id].a, t.requests[id].a.phase.outcome)
  {
    var begun := Step(s, StartApply(id, d));
    assert OnCourse(s, begun, id, d, input);
    CourseRuns(s, begun, events, id, d, input, 11);
    NoneLeft(s, Execution(begun, events), id, d, input);
  }

  // ----- failures

  /** A failure inside the claim leaves the row alone and gives the draft back for another try, unless it is marked already. */
  lemma FailureHandsBack(s: State, id: nat, a: Apply, failing: Input, catching: Input)
    requires id in s.requests && s.requests[id] == ApplyRequest(a) && a.draft in s.drafts
    requires InClaim(a.phase) && !a.phase.CatchError? && failing.fails
    ensures var t := Step(Step(s, Run(id, failing)), Run(id, catching));
            && t.requests == s.requests[id := ApplyRequest(a.(phase := Ended(Errored)))]
            && t.active == s.active && t.receipts == s.receipts && t.history == s.history
            && t.drafts == (if s.drafts[a.draft].status == Applying then s.drafts[a.draft := s.drafts[a.draft].(status := Validated, updated := s.now)]
                            else s.drafts)
  {
    var caught := Catch(s, id, a);
    assert Step(s, Run(id, failing)) == caught;
    assert caught.requests[id] == ApplyRequest(a.(phase := CatchError));
  }

  /** A failure after the commit ends the request and changes nothing. */
  lemma LateFailureLeaves(s: State, id: nat, a: Apply, failing: Input)
    requires id in s.requests && s.requests[id] == ApplyRequest(a) && AfterCommit(a.phase) && failing.fails
    ensures Step(s, Run(id, failing)) == s.(requests := s.requests[id := ApplyRequest(a.(phase := Ended(Errored)))])
  {
  }

  // ----- the other requests left alone

  lemma RunsRequest(s: State, id: nat, input: Input, r: Request)
    requires id in s.requests && s.requests[id] == r
    ensures Step(s, Run(id, input)) == RequestStep(s, id, r, input)
  {
  }

  lemma SyncSettled(s: State, id: nat, input: Input)
    requires s.active.Some? && F.Synchronized(s.active.value.content, input.env) == s.active.value.content
    ensures RequestStep(s, id, SyncStart, input) == Goto(s, id, Done)
  {
  }

  lemma SyncPlans(s: State, id: nat, input: Input)
    requires s.active.Some? && F.Synchronized(s.active.value.content, input.env) != s.active.value.content
    ensures RequestStep(s, id, SyncStart, input)
         == Goto(s, id, SyncPlan(s.active.value, |s.history.writes|, input.env, Max(s.now, s.active.value.revision + 1)))
  {
    var r := SyncStart;
    var plan := SyncPlan(s.active.value, |s.history.writes|, input.env, Max(s.now, s.active.value.revision + 1));
    assert RequestStep(s, id, r, input) == SyncStep(s, id, r, input);
    assert SyncStep(s, id, r, input) == Goto(s, id, plan);
  }

  lemma SyncWrites(s: State, id: nat, input: Input, row: Row, readAt: nat, env: F.Environment, revision: int, next: F.Content)
    requires s.active == Some(row) && next == F.Synchronized(row.content, env)
    ensures var t := RequestStep(s, id, SyncPlan(row, readAt, env, revision), input);
            && t.drafts == s.drafts && t.receipts == s.receipts && t.requests == s.requests[id := Done]
            && t.active == Some(Row(next, s.seals, revision))
  {
  }

  lemma DoneStays(s: State, id: nat, input: Input)
    requires id in s.requests && s.requests[id] == Done
    ensures Step(s, Run(id, input)) == s
  {
  }

  lemma SettledSync(begun: State, id: nat, input: Input)
    requires id in begun.requests && begun.requests[id] == SyncStart && begun.active.Some?
    requires F.Synchronized(begun.active.value.content, input.env) == begun.active.value.content
    ensures Step(Step(begun, Run(id, input)), Run(id, input)) == Goto(begun, id, Done)
  {
    RunsRequest(begun, id, input, SyncStart);
    SyncSettled(begun, id, input);
    DoneStays(Goto(begun, id, Done), id, input);
  }

  lemma SyncBegins(begun: State, id: nat, input: Input, planned: State)
    requires id in begun.requests && begun.requests[id] == SyncStart && begun.active.Some?
    requires F.Synchronized(begun.active.value.content, input.env) != begun.active.value.content
    requires planned == Goto(begun, id, SyncPlan(begun.active.value, |begun.history.writes|, input.env,
                                                 Max(begun.now, begun.active.value.revision + 1)))
    ensures Step(begun, Run(id, input)) == planned
  {
    RunsRequest(begun, id, input, SyncStart);
    SyncPlans(begun, id, input);
  }

  lemma PlannedSync(begun: State, id: nat, input: Input, row: Row, next: F.Content)
    requires id in begun.requests && begun.requests[id] == SyncStart && begun.active == Some(row)
    requires next == F.Synchronized(row.content, input.env) && next != row.content
    ensures var t := Step(Step(begun, Run(id, input)), Run(id, input));
            && t.drafts == begun.drafts && t.receipts == begun.receipts && t.requests == begun.requests[id := Done]
            && t.active == Some(Row(next, begun.seals, Max(begun.now, row.revision + 1)))
  {
    var at, revision := |begun.history.writes|, Max(begun.now, row.revision + 1);
    var planned := Goto(begun, id, SyncPlan(row, at, input.env, revision));
    SyncBegins(begun, id, input, planned);
    assert planned.requests[id := Done] == begun.requests[id := Done];
    PlanRuns(planned, id, input, row, at, revision, next);
  }

  lemma PlanRuns(planned: State, id: nat, input: Input, row: Row, at: nat, revision: int, next: F.Content)
    requires id in planned.requests && planned.requests[id] == SyncPlan(row, at, input.env, revision) && planned.active == Some(row)
    requires next == F.Synchronized(row.content, input.env)
    ensures var t := Step(planned, Run(id, input));
            && t.drafts == planned.drafts && t.receipts == planned.receipts && t.requests == planned.requests[id := Done]
            && t.active == Some(Row(next, planned.seals, revision))
  {
    RunsRequest(planned, id, input, planned.requests[id]);
    SyncWrites(planned, id, input, row, at, input.env, revision, next);
  }

  /** A synchronisation leaves the row that its specification on contents says, and where there is none, none. */
  lemma SyncAlone(s: State, id: nat, input: Input)
    requires id !in s.requests
    ensures var t := Step(Step(Step(s, StartSync(id)), Run(id, input)), Run(id, input));
            && t.drafts == s.drafts && t.receipts == s.receipts && t.requests == s.requests[id := Done]
            && (t.active.Some? <==> s.active.Some?)
            && (s.active.Some? ==>
                  F.Row(t.active.value.content, t.active.value.revision)
                  == F.SynchronizedRow(F.Row(s.active.value.content, s.active.value.revision), input.env, s.now))
  {
    var begun := Goto(s, id, SyncStart);
    assert Step(s, StartSync(id)) == begun;
    assert begun.requests[id := Done] == s.requests[id := Done];
    if s.active.None? {
      NothingToSync(begun, id, input);
    } else if F.Synchronized(s.active.value.content, input.env) == s.active.value.content {
      SettledSync(begun, id, input);
    } else {
      PlannedSync(begun, id, input, s.active.value, F.Synchronized(s.active.value.content, input.env));
    }
  }

  lemma NothingToSync(begun: State, id: nat, input: Input)
    requires id in begun.requests && begun.requests[id] == SyncStart && begun.active == None
    ensures Step(Step(begun, Run(id, input)), Run(id, input)) == Goto(begun, id, Done)
  {
    RunsRequest(begun, id, input, SyncStart);
    assert RequestStep(begun, id, SyncStart, input) == Goto(begun, id, Done);
    DoneStays(Goto(begun, id, Done), id, input);
  }

  lemma PutStores(s: State, id: nat, input: Input, before: Option<Row>, beforeAt: nat)
    requires id in s.requests && s.requests[id] == PutReady(before, beforeAt) && s.now > RevisionOf(s.active)
    ensures var t := Step(s, Run(id, input));
            && t.drafts == s.drafts && t.receipts == s.receipts
            && t.active == Some(Row(input.content, s.seals, s.now))
            && t.requests == s.requests[id := PutAttach(before, beforeAt, s.now, |s.history.writes|)]
  {
  }

  lemma PutAttachesList(s: State, id: nat, input: Input, before: Option<Row>, beforeAt: nat, revision: int, putAt: nat, row: Row)
    requires id in s.requests && s.requests[id] == PutAttach(before, beforeAt, revision, putAt) && s.active == Some(row) && row.revision == revision
    ensures var t := Step(s, Run(id, input));
            && t.drafts == s.drafts && t.receipts == s.receipts && t.requests == s.requests[id := Done]
            && t.active == Some(row.(content := D.Attached(row.content, input.overrides)))
  {
  }

  /** A direct update stores its content with its override list under the time of the write. */
  lemma PutAlone(s: State, id: nat, input: Input)
    requires id !in s.requests && s.now > RevisionOf(s.active)
    ensures var t := Step(Step(Step(Step(s, StartPut(id)), Run(id, input)), Run(id, input)), Run(id, input));
            && t.drafts == s.drafts && t.receipts == s.receipts && t.requests == s.requests[id := Done]
            && t.active == Some(Row(D.Attached(input.content, input.overrides), s.seals, s.now))
  {
    var at := |s.history.writes|;
    var begun := Goto(s, id, PutStart);
    assert Step(s, StartPut(id)) == begun;
    var ready := Goto(begun, id, PutReady(s.active, at));
    assert Step(begun, Run(id, input)) == ready;
    PutStores(ready, id, input, s.active, at);
    PutAttachesList(Step(ready, Run(id, input)), id, input, s.active, at, s.now, at, Row(input.content, s.seals, s.now));
  }

  /** The compensation of a direct update whose attachment failed puts the captured row back exactly where its own row is in place. */
  lemma PutCompensates(s: State, id: nat, input: Input, before: Option<Row>, beforeAt: nat, revision: int, putAt: nat)
    requires id in s.requests && s.requests[id] == PutRestore(before, beforeAt, revision, putAt)
    ensures var t := Step(s, Run(id, input));
            && t.drafts == s.drafts && t.requests == s.requests[id := Done]
            && (!Holds(s.active, revision) ==> t.active == s.active)
            && (Holds(s.active, revision) && before.None? ==> t.active == None)
            && (Holds(s.active, revision) && before.Some? ==>
                  && t.active == Some(before.value.(revision := RevisionOf(t.active)))
                  && RevisionOf(t.active) > revision && RevisionOf(t.active) >= s.now)
  {
  }

  /** A creation adds one draft, on the row in place, with what the request brings. */
  lemma CreateAlone(s: State, id: nat, input: Input)
    requires id !in s.requests
    ensures var t := Step(Step(Step(s, StartCreate(id)), Run(id, input)), Run(id, input));
            && t.drafts == s.drafts[s.seals := Draft(RevisionOf(s.active), |s.history.writes|, input.material, Drafted, s.now)]
            && t.seals == s.seals + 1 && t.active == s.active && t.receipts == s.receipts && t.requests == s.requests[id := Done]
  {
    var begun := Step(s, StartCreate(id));
    assert begun == Goto(s, id, CreateStart);
    assert Step(begun, Run(id, input)) == Goto(begun, id, CreateReady(RevisionOf(s.active), |s.history.writes|));
  }

  lemma RefreshWrites(s: State, id: nat, d: nat, input: Input)
    requires id in s.requests && d in s.drafts && s.requests[id] == RefreshReady(d, s.drafts[d].status, s.drafts[d].updated)
    ensures var t := Step(s, Run(id, input));
            && t.active == s.active && t.receipts == s.receipts && t.requests == s.requests[id := Done]
            && t.drafts == s.drafts[d := s.drafts[d].(material := input.material, status := Drafted, updated := s.now)]
  {
  }

  /** A refresh gives an open draft its new material and makes it a draft to be validated again; any other draft it leaves alone. */
  lemma RefreshAlone(s: State, id: nat, d: nat, input: Input)
    requires id !in s.requests && d in s.drafts
    ensures var t := Step(Step(Step(s, StartRefresh(id, d)), Run(id, input)), Run(id, input));
            && t.active == s.active && t.receipts == s.receipts && t.requests == s.requests[id := Done]
            && t.drafts == (if Open(s.drafts[d].status)
                            then s.drafts[d := s.drafts[d].(material := input.material, status := Drafted, updated := s.now)] else s.drafts)
  {
    var begun := Goto(s, id, RefreshStart(d));
    assert Step(s, StartRefresh(id, d)) == begun;
    if Open(s.drafts[d].status) {
      var ready := Goto(begun, id, RefreshReady(d, s.drafts[d].status, s.drafts[d].updated));
      assert Step(begun, Run(id, input)) == ready;
      RefreshWrites(ready, id, d, input);
    } else {
      assert Step(begun, Run(id, input)) == Goto(begun, id, Done);
      DoneStays(Goto(begun, id, Done), id, input);
    }
  }

  lemma ValidationMarks(s: State, id: nat, d: nat, input: Input, stale: bool)
    requires id in s.requests && d in s.drafts && Open(s.drafts[d].status)
    requires s.requests[id] == if stale then ValidateConflict(d) else ValidateFinish(d)
    ensures var t := Step(s, Run(id, input));
            && t.active == s.active && t.receipts == s.receipts && t.requests == s.requests[id := Done]
            && t.drafts == s.drafts[d := s.drafts[d].(status := if stale then Conflict else if input.ok then Validated else Invalid,
                                                      updated := s.now)]
  {
  }

  /** A validation of an open draft marks it by its base and its checks: conflict, validated or invalid; any other draft it leaves alone. */
  lemma ValidateAlone(s: State, id: nat, d: nat, input: Input)
    requires id !in s.requests && d in s.drafts
    ensures var t := Step(Step(Step(Step(s, StartValidate(id, d)), Run(id, input)), Run(id, input)), Run(id, input));
            && t.active == s.active && t.receipts == s.receipts && t.requests == s.requests[id := Done]
            && (!Open(s.drafts[d].status) ==> t.drafts == s.drafts)
            && (Open(s.drafts[d].status) ==>
                  t.drafts == s.drafts[d := s.drafts[d].(status := if !BaseInPlace(s, d) then Conflict else if input.ok then Validated else Invalid,
                                                         updated := s.now)])
  {
    var begun := Goto(s, id, ValidateStart(d));
    assert Step(s, StartValidate(id, d)) == begun;
    if Open(s.drafts[d].status) {
      var checked := ValidationChecks(begun, id, d, input);
      ValidationMarks(checked, id, d, input, !BaseInPlace(s, d));
      assert checked.requests[id := Done] == s.requests[id := Done];
    } else {
      assert Step(begun, Run(id, input)) == Goto(begun, id, Done);
      DoneStays(Goto(begun, id, Done), id, input);
      assert begun.requests[id := Done] == s.requests[id := Done];
    }
  }

  lemma ValidationChecks(begun: State, id: nat, d: nat, input: Input) returns (checked: State)
    requires id in begun.requests && d in begun.drafts && begun.requests[id] == ValidateStart(d) && Open(begun.drafts[d].status)
    ensures checked == Step(Step(begun, Run(id, input)), Run(id, input))
    ensures checked == begun.(requests := checked.requests) && checked.requests == begun.requests[id := checked.requests[id]]
    ensures id in checked.requests && checked.requests[id] == if BaseInPlace(begun, d) then ValidateFinish(d) else ValidateConflict(d)
  {
    var ready := Goto(begun, id, ValidateReady(d, begun.drafts[d].base));
    assert Step(begun, Run(id, input)) == ready;
    checked := Goto(ready, id, if BaseInPlace(begun, d) then ValidateFinish(d) else ValidateConflict(d));
    assert Step(ready, Run(id, input)) == checked;
    assert checked.requests == begun.requests[id := checked.requests[id]];
  }

  /**
   A validation marks the draft as it finds it when its checks are done: a refresh that comes before that
   gives it material that the checks have not seen, and it is validated all the same.
   */
  lemma ValidationMayMarkOtherMaterial(s: State, id: nat, other: nat, d: nat, checks: Input, refreshed: Input)
    requires id !in s.requests && other !in s.requests && id != other
    requires d in s.drafts && Open(s.drafts[d].status) && BaseInPlace(s, d) && checks.ok
    ensures var checking := Step(Step(Step(s, StartValidate(id, d)), Run(id, checks)), Run(id, checks));
            var between := Step(Step(Step(checking, StartRefresh(other, d)), Run(other, refreshed)), Run(other, refreshed));
            var t := Step(between, Run(id, checks));
            d in t.drafts && t.drafts[d].status == Validated && t.drafts[d].material == refreshed.material
  {
    var begun := Goto(s, id, ValidateStart(d));
    assert Step(s, StartValidate(id, d)) == begun;
    var ready := Goto(begun, id, ValidateReady(d, s.drafts[d].base));
    assert Step(begun, Run(id, checks)) == ready;
    var checking := Goto(ready, id, ValidateFinish(d));
    assert Step(ready, Run(id, checks)) == checking;
    RefreshAlone(checking, other, d, refreshed);
    var between := Step(Step(Step(checking, StartRefresh(other, d)), Run(other, refreshed)), Run(other, refreshed));
    ValidationMarks(between, id, d, checks, false);
  }
}
