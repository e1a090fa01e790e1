/**
 The draft life cycle under any interleaving: one apply at a time holds a draft, a settled or
 cancelled draft stays so, and a draft reaches the settings row at most once.
 */
module SettingsClaims {
  import opened Prelude
  import F = SettingsFields
  import opened SettingsProtocol
  import opened SettingsHistory
  import opened SettingsSafety

  // ----- claims

  /** The states a draft may be in while an apply holds it. */
  predicate Held(status: Status) {
    status == Applying || status == Conflict
  }

  predicate Settled(status: Status) {
    status == Applied || status == Conflict || status == RolledBack || status == RollbackConflict
  }

  predicate Involved(r: Request) {
    r.ApplyRequest? && (InClaim(r.a.phase) || AfterCommit(r.a.phase))
  }

  predicate ClaimOk(drafts: map<nat, Draft>, r: Request) {
    r.ApplyRequest? ==>
      && (InClaim(r.a.phase) ==> r.a.draft in drafts && Held(drafts[r.a.draft].status))
      && (AfterCommit(r.a.phase) ==> r.a.draft in drafts && Settled(drafts[r.a.draft].status))
  }

  predicate Exclusive(requests: map<nat, Request>) {
    forall i, j :: i in requests && j in requests && i != j && Involved(requests[i]) && Involved(requests[j]) ==>
      requests[i].a.draft != requests[j].a.draft
  }

  predicate Claims(s: State) {
    Exclusive(s.requests) && forall id :: id in s.requests ==> ClaimOk(s.drafts, s.requests[id])
  }

  /** What a request may do to a draft nobody entitled it to. */
  predicate Harmless(before: Status, after: Status) {
    before == after || Open(before) || (after == Conflict && before != Applied && before != Cancelled)
  }

  predicate InvolvedOn(r: Request, draft: nat) {
    Involved(r) && r.a.draft == draft
  }

  predicate DraftsMoved(s: State, next: State, id: nat)
    requires id in s.requests
  {
    forall d :: d in s.drafts ==>
      (d in next.drafts && (InvolvedOn(s.requests[id], d) || Harmless(s.drafts[d].status, next.drafts[d].status)))
  }

  lemma StepKeepsClaims(s: State, next: State, id: nat, r: Request)
    requires Claims(s) && id in s.requests && next.requests == s.requests[id := r]
    requires DraftsMoved(s, next, id) && ClaimOk(next.drafts, r)
    requires Involved(r) ==> InvolvedOn(s.requests[id], r.a.draft) || (r.a.draft in s.drafts && Open(s.drafts[r.a.draft].status))
    ensures Claims(next)
  {
    forall other | other in next.requests ensures ClaimOk(next.drafts, next.requests[other]) {
      if other != id {
        OthersKeepClaims(s, next, id, other);
      }
    }
    forall i, j | i in next.requests && j in next.requests && i != j && Involved(next.requests[i]) && Involved(next.requests[j])
      ensures next.requests[i].a.draft != next.requests[j].a.draft
    {
      assert ClaimOk(s.drafts, s.requests[i]) && ClaimOk(s.drafts, s.requests[j]);
    }
  }

  lemma OthersKeepClaims(s: State, next: State, id: nat, other: nat)
    requires Claims(s) && id in s.requests && other in s.requests && other != id && DraftsMoved(s, next, id)
    ensures ClaimOk(next.drafts, s.requests[other])
  {
    assert ClaimOk(s.drafts, s.requests[other]);
    if Involved(s.requests[other]) {
      var d := s.requests[other].a.draft;
      assert !InvolvedOn(s.requests[id], d);
      assert Harmless(s.drafts[d].status, next.drafts[d].status);
    }
  }

  /** Moving on without touching a draft. */
  lemma GotoKeepsClaims(s: State, next: State, id: nat, r: Request)
    requires Claims(s) && id in s.requests && next.requests == s.requests[id := r] && next.drafts == s.drafts
    requires ClaimOk(s.drafts, r) && (Involved(r) ==> InvolvedOn(s.requests[id], r.a.draft))
    ensures Claims(next)
  {
    StepKeepsClaims(s, next, id, r);
  }

  /** Moving on with another status on one draft. */
  lemma MarkKeepsClaims(s: State, id: nat, draft: nat, status: Status, r: Request)
    requires Claims(s) && id in s.requests && draft in s.drafts
    requires InvolvedOn(s.requests[id], draft) || Harmless(s.drafts[draft].status, status)
    requires ClaimOk(SetStatus(s, draft, status).drafts, r)
    requires Involved(r) ==> InvolvedOn(s.requests[id], r.a.draft) || (r.a.draft in s.drafts && Open(s.drafts[r.a.draft].status))
    ensures Claims(Goto(SetStatus(s, draft, status), id, r))
  {
    StepKeepsClaims(s, Goto(SetStatus(s, draft, status), id, r), id, r);
  }

  lemma CommitClaims(s: State, id: nat, a: Apply, input: Input)
    requires Claims(s) && id in s.requests && s.requests[id] == ApplyRequest(a) && a.phase.WriteBatch?
    ensures Claims(CommitBatch(s, id, a, input))
  {
    var next := CommitBatch(s, id, a, input);
    assert ClaimOk(s.drafts, s.requests[id]);
    GotoKeepsClaims(s, next, id, next.requests[id]);
  }

  lemma ClaimedStepClaims(s: State, id: nat, a: Apply, input: Input)
    requires Claims(s) && id in s.requests && s.requests[id] == ApplyRequest(a) && InClaim(a.phase)
    ensures Claims(ClaimedStep(s, id, a, input))
  {
    assert ClaimOk(s.drafts, s.requests[id]);
    var next := ClaimedStep(s, id, a, input);
    if input.fails && !a.phase.CatchError? {
      GotoKeepsClaims(s, next, id, next.requests[id]);
    } else if a.phase.WriteBatch? {
      CommitClaims(s, id, a, input);
    } else if a.phase.MarkApplied? {
      MarkKeepsClaims(s, id, a.draft, Applied, ApplyRequest(a.(phase := Attach)));
    } else if a.phase.MarkConflict? {
      MarkKeepsClaims(s, id, a.draft, Conflict, ApplyRequest(a.(phase := Ended(Refused))));
    } else if a.phase.CatchError? && s.drafts[a.draft].status == Applying {
      MarkKeepsClaims(s, id, a.draft, Validated, ApplyRequest(a.(phase := Ended(Errored))));
    } else {
      GotoKeepsClaims(s, next, id, next.requests[id]);
    }
  }

  lemma QuietAppliedClaims(s: State, id: nat, a: Apply, input: Input)
    requires Claims(s) && id in s.requests && s.requests[id] == ApplyRequest(a) && AfterCommit(a.phase)
    requires input.fails || !(a.phase.MarkRolledBack? || a.phase.MarkRollbackConflict?)
    ensures Claims(AppliedStep(s, id, a, input))
  {
    assert ClaimOk(s.drafts, s.requests[id]);
    var next := AppliedStep(s, id, a, input);
    QuietAppliedMove(s, id, a, input);
    GotoKeepsClaims(s, next, id, next.requests[id]);
  }

  lemma QuietAppliedMove(s: State, id: nat, a: Apply, input: Input)
    requires AfterCommit(a.phase) && (input.fails || !(a.phase.MarkRolledBack? || a.phase.MarkRollbackConflict?))
    ensures var next := AppliedStep(s, id, a, input);
            && OnlyMoves(s, next, id) && next.drafts == s.drafts
            && next.requests[id].ApplyRequest? && next.requests[id].a.draft == a.draft && !InClaim(next.requests[id].a.phase)
  {
    AppliedMovesItself(s, id, a, input);
    AppliedClaimsNothing(s, id, a, input);
  }

  lemma AppliedStepClaims(s: State, id: nat, a: Apply, input: Input)
    requires Claims(s) && id in s.requests && s.requests[id] == ApplyRequest(a) && AfterCommit(a.phase)
    ensures Claims(AppliedStep(s, id, a, input))
  {
    assert ClaimOk(s.drafts, s.requests[id]);
    if input.fails || !(a.phase.MarkRolledBack? || a.phase.MarkRollbackConflict?) {
      QuietAppliedClaims(s, id, a, input);
    } else if a.phase.MarkRolledBack? {
      MarkKeepsClaims(s, id, a.draft, RolledBack, ApplyRequest(a.(phase := Ended(WasRolledBack))));
    } else {
      MarkKeepsClaims(s, id, a.draft, RollbackConflict, ApplyRequest(a.(phase := Ended(HitRollbackConflict))));
    }
  }

  lemma OpeningStepClaims(s: State, id: nat, a: Apply)
    requires Claims(s) && id in s.requests && s.requests[id] == ApplyRequest(a) && !InClaim(a.phase) && !AfterCommit(a.phase)
    ensures Claims(OpeningStep(s, id, a))
  {
    if a.phase.Claim? && a.draft in s.drafts && s.drafts[a.draft].status == Validated {
      MarkKeepsClaims(s, id, a.draft, Applying, ApplyRequest(a.(phase := ReadActive)));
    } else {
      UnclaimedStepClaims(s, id, a);
    }
  }

  lemma UnclaimedStepClaims(s: State, id: nat, a: Apply)
    requires Claims(s) && id in s.requests && s.requests[id] == ApplyRequest(a) && !InClaim(a.phase) && !AfterCommit(a.phase)
    requires a.phase.Claim? ==> a.draft !in s.drafts || s.drafts[a.draft].status != Validated
    ensures Claims(OpeningStep(s, id, a))
  {
    var next := OpeningStep(s, id, a);
    if next != s {
      GotoKeepsClaims(s, next, id, next.requests[id]);
    }
  }

  lemma RowStepClaims(s: State, id: nat, input: Input)
    requires Claims(s) && id in s.requests
    requires s.requests[id].SyncStart? || s.requests[id].SyncPlan? || IsPut(s.requests[id])
    ensures Claims(RequestStep(s, id, s.requests[id], input))
  {
    if IsPut(s.requests[id]) {
      PutStepClaims(s, id, s.requests[id], input);
    } else {
      SyncStepClaims(s, id, s.requests[id], input);
    }
  }

  lemma PutStepClaims(s: State, id: nat, r: Request, input: Input)
    requires Claims(s) && id in s.requests && IsPut(r)
    ensures Claims(PutStep(s, id, r, input))
  {
    var next := PutStep(s, id, r, input);
    if next != s {
      GotoKeepsClaims(s, next, id, next.requests[id]);
    }
  }

  lemma SyncStepClaims(s: State, id: nat, r: Request, input: Input)
    requires Claims(s) && id in s.requests && (r.SyncStart? || r.SyncPlan?)
    ensures Claims(SyncStep(s, id, r, input))
  {
    var next := SyncStep(s, id, r, input);
    GotoKeepsClaims(s, next, id, next.requests[id]);
  }

  lemma DraftStepClaims(s: State, id: nat, r: Request, input: Input)
    requires Claims(s) && Stands(s, id, r) && OnDrafts(r)
    requires forall d :: d in s.drafts ==> d < s.seals
    ensures Claims(DraftStep(s, id, r, input))
  {
    if r.ValidateConflict? || r.ValidateFinish? {
      ValidationClaims(s, id, r, input);
    } else if r.RefreshReady? {
      RefreshClaims(s, id, r, input);
    } else if r.CreateReady? {
      CreateClaims(s, id, r, input);
    } else if r != Done {
      PlainDraftStepClaims(s, id, r, input);
    }
  }

  lemma PlainDraftStepClaims(s: State, id: nat, r: Request, input: Input)
    requires Claims(s) && id in s.requests && (r.ValidateStart? || r.ValidateReady? || r.CreateStart? || r.RefreshStart?)
    ensures Claims(DraftStep(s, id, r, input))
  {
    var next := DraftStep(s, id, r, input);
    GotoKeepsClaims(s, next, id, next.requests[id]);
  }

  lemma ValidationClaims(s: State, id: nat, r: Request, input: Input)
    requires Claims(s) && id in s.requests && (r.ValidateConflict? || r.ValidateFinish?)
    ensures Claims(DraftStep(s, id, r, input))
  {
    var d := r.draft;
    if r.ValidateConflict? && d in s.drafts && s.drafts[d].status != Applied && s.drafts[d].status != Cancelled {
      MarkKeepsClaims(s, id, d, Conflict, Done);
    } else if r.ValidateFinish? && d in s.drafts && Open(s.drafts[d].status) {
      MarkKeepsClaims(s, id, d, if input.ok then Validated else Invalid, Done);
    } else {
      GotoKeepsClaims(s, Goto(s, id, Done), id, Done);
    }
  }

  lemma RefreshClaims(s: State, id: nat, r: Request, input: Input)
    requires Claims(s) && id in s.requests && r.RefreshReady? && Open(r.status)
    ensures Claims(DraftStep(s, id, r, input))
  {
    var next := DraftStep(s, id, r, input);
    assert DraftsMoved(s, next, id);
    StepKeepsClaims(s, next, id, Done);
  }

  lemma CreateClaims(s: State, id: nat, r: Request, input: Input)
    requires Claims(s) && id in s.requests && r.CreateReady? && s.seals !in s.drafts
    ensures Claims(DraftStep(s, id, r, input))
  {
    var next := DraftStep(s, id, r, input);
    assert DraftsMoved(s, next, id);
    StepKeepsClaims(s, next, id, Done);
  }

  lemma OtherStepClaims(s: State, id: nat, input: Input)
    requires Claims(s) && id in s.requests && !s.requests[id].ApplyRequest? && Stands(s, id, s.requests[id])
    requires forall d :: d in s.drafts ==> d < s.seals
    ensures Claims(RequestStep(s, id, s.requests[id], input))
  {
    if OnDrafts(s.requests[id]) {
      DraftStepClaims(s, id, s.requests[id], input);
    } else {
      RowStepClaims(s, id, input);
    }
  }

  lemma EventClaims(s: State, e: Event)
    requires Claims(s) && !e.Run?
    ensures Claims(Step(s, e))
  {
    match e {
      case Cancel(d) => MovedDraftClaims(s, Step(s, e), d);
      case Promote(d) => MovedDraftClaims(s, Step(s, e), d);
      case StartApply(id, d) => BeginClaims(s, id, ApplyRequest(Fresh(d)));
      case StartSync(id) => BeginClaims(s, id, SyncStart);
      case StartPut(id) => BeginClaims(s, id, PutStart);
      case StartValidate(id, d) => BeginClaims(s, id, ValidateStart(d));
      case StartCreate(id) => BeginClaims(s, id, CreateStart);
      case StartRefresh(id, d) => BeginClaims(s, id, RefreshStart(d));
      case Tick(_) => SameClaims(s, Step(s, e));
    }
  }

  lemma SameClaims(s: State, next: State)
    requires Claims(s) && next.requests == s.requests && next.drafts == s.drafts
    ensures Claims(next)
  {
  }

  /** A request that has just begun claims nothing. */
  lemma BeginClaims(s: State, id: nat, r: Request)
    requires Claims(s) && !Involved(r)
    ensures Claims(Begin(s, id, r))
  {
    var next := Begin(s, id, r);
    forall other | other in next.requests ensures ClaimOk(next.drafts, next.requests[other]) {
      assert other in s.requests ==> ClaimOk(s.drafts, s.requests[other]);
    }
  }

  /** An open draft may be cancelled or promoted: nobody holds it. */
  lemma MovedDraftClaims(s: State, next: State, d: nat)
    requires Claims(s) && next.requests == s.requests && next.drafts.Keys == s.drafts.Keys
    requires forall other :: other in s.drafts && other != d ==> next.drafts[other] == s.drafts[other]
    requires next.drafts == s.drafts || (d in s.drafts && Open(s.drafts[d].status))
    ensures Claims(next)
  {
    forall id | id in next.requests ensures ClaimOk(next.drafts, next.requests[id]) {
      assert ClaimOk(s.drafts, s.requests[id]);
    }
  }

  lemma StepClaims(s: State, e: Event)
    requires Claims(s) && Sound(s)
    ensures Claims(Step(s, e))
  {
    if !e.Run? {
      EventClaims(s, e);
    } else if e.id in s.requests {
      var r := s.requests[e.id];
      if !r.ApplyRequest? {
        RequestStands(s, e.id);
        OtherStepClaims(s, e.id, e.input);
      } else if InClaim(r.a.phase) {
        ClaimedStepClaims(s, e.id, r.a, e.input);
      } else if AfterCommit(r.a.phase) {
        AppliedStepClaims(s, e.id, r.a, e.input);
      } else {
        OpeningStepClaims(s, e.id, r.a);
      }
    }
  }

  lemma {:induction false} AlwaysClaims(s: State, events: seq<Event>)
    requires Initial(s)
    ensures Claims(Execution(s, events))
    decreases |events|
  {
    if events != [] {
      AlwaysClaims(s, events[..|events| - 1]);
      AlwaysSound(s, events[..|events| - 1]);
      StepClaims(Execution(s, events[..|events| - 1]), events[|events| - 1]);
    }
  }

  /** At most one apply holds a draft, and the draft's status shows it. */
  lemma OneClaimPerDraft(s: State, events: seq<Event>, i: nat, j: nat)
    requires Initial(s)
    requires var now := Execution(s, events);
             i in now.requests && j in now.requests && Involved(now.requests[i]) && Involved(now.requests[j])
             && now.requests[i].a.draft == now.requests[j].a.draft
    ensures i == j
    ensures var now := Execution(s, events);
            && now.requests[i].a.draft in now.drafts
            && var status := now.drafts[now.requests[i].a.draft].status;
               if InClaim(now.requests[i].a.phase) then Held(status) else Settled(status)
  {
    AlwaysClaims(s, events);
    assert ClaimOk(Execution(s, events).drafts, Execution(s, events).requests[i]);
  }

  // ----- statuses that last

  /** Where a draft's status may go from the two kinds of status that last. */
  predicate Lasts(before: Draft, after: Draft) {
    && (Settled(before.status) ==> Settled(after.status))
    && (before.status == Cancelled ==> after == before)
  }

  lemma ApplyStepLasts(s: State, id: nat, a: Apply, input: Input, d: nat)
    requires id in s.requests && s.requests[id] == ApplyRequest(a) && ClaimOk(s.drafts, s.requests[id]) && d in s.drafts
    ensures var next := ApplyStep(s, id, a, input);
            d in next.drafts && Lasts(s.drafts[d], next.drafts[d])
  {
    if InClaim(a.phase) {
      ClaimedStepLasts(s, id, a, input, d);
    } else if AfterCommit(a.phase) {
      AppliedStepLasts(s, id, a, input, d);
    }
  }

  lemma ClaimedStepLasts(s: State, id: nat, a: Apply, input: Input, d: nat)
    requires InClaim(a.phase) && ClaimOk(s.drafts, ApplyRequest(a)) && d in s.drafts
    ensures var next := ClaimedStep(s, id, a, input);
            d in next.drafts && Lasts(s.drafts[d], next.drafts[d])
  {
  }

  lemma AppliedStepLasts(s: State, id: nat, a: Apply, input: Input, d: nat)
    requires AfterCommit(a.phase) && ClaimOk(s.drafts, ApplyRequest(a)) && d in s.drafts
    ensures var next := AppliedStep(s, id, a, input);
            d in next.drafts && Lasts(s.drafts[d], next.drafts[d])
  {
  }

  lemma DraftStepLasts(s: State, id: nat, r: Request, input: Input, d: nat)
    requires Stands(s, id, r) && OnDrafts(r) && d in s.drafts && d < s.seals
    ensures var next := DraftStep(s, id, r, input);
            d in next.drafts && Lasts(s.drafts[d], next.drafts[d])
  {
  }

  /** No step takes a draft out of a settled or the cancelled status. */
  lemma StepLasts(s: State, e: Event, d: nat)
    requires Sound(s) && Claims(s) && d in s.drafts
    ensures d in Step(s, e).drafts && Lasts(s.drafts[d], Step(s, e).drafts[d])
  {
    if e.Run? && e.id in s.requests {
      RunLasts(s, e.id, e.input, d);
    } else {
      EventLasts(s, e, d);
    }
  }

  lemma EventLasts(s: State, e: Event, d: nat)
    requires d in s.drafts && (e.Run? ==> e.id !in s.requests)
    ensures d in Step(s, e).drafts && Lasts(s.drafts[d], Step(s, e).drafts[d])
  {
  }

  lemma RunLasts(s: State, id: nat, input: Input, d: nat)
    requires Sound(s) && Claims(s) && id in s.requests && d in s.drafts
    ensures var next := RequestStep(s, id, s.requests[id], input);
            d in next.drafts && Lasts(s.drafts[d], next.drafts[d])
  {
    var r := s.requests[id];
    RequestStands(s, id);
    if r.ApplyRequest? {
      assert ClaimOk(s.drafts, r);
      ApplyStepLasts(s, id, r.a, input, d);
    } else if OnDrafts(r) {
      DraftStepLasts(s, id, r, input, d);
    } else {
      RowStepDrafts(s, id, r, input);
    }
  }

  lemma RowStepDrafts(s: State, id: nat, r: Request, input: Input)
    requires r.SyncStart? || r.SyncPlan? || IsPut(r)
    ensures RequestStep(s, id, r, input).drafts == s.drafts
  {
    if IsPut(r) {
      assert PutStep(s, id, r, input).drafts == s.drafts;
    } else {
      assert SyncStep(s, id, r, input).drafts == s.drafts;
    }
  }

  lemma LastStep(s: State, events: seq<Event>, later: seq<Event>)
    requires later != []
    ensures Execution(s, events + later) == Step(Execution(s, events + later[..|later| - 1]), later[|later| - 1])
  {
    assert (events + later)[..|events + later| - 1] == events + later[..|later| - 1];
  }

  /** A cancelled draft stays cancelled, whatever happens next. */
  lemma {:induction false} CancelledIsFinal(s: State, events: seq<Event>, later: seq<Event>, d: nat)
    requires Initial(s) && d in Execution(s, events).drafts && Execution(s, events).drafts[d].status == Cancelled
    ensures d in Execution(s, events + later).drafts
    ensures Execution(s, events + later).drafts[d] == Execution(s, events).drafts[d]
    decreases |later|
  {
    if later == [] {
      assert events + later == events;
    } else {
      var earlier := later[..|later| - 1];
      CancelledIsFinal(s, events, earlier, d);
      AlwaysSound(s, events + earlier);
      AlwaysClaims(s, events + earlier);
      StepLasts(Execution(s, events + earlier), later[|later| - 1], d);
      LastStep(s, events, later);
    }
  }

  // ----- what one step does to claims and commits

  predicate IsCommitOf(w: Write, d: nat) {
    w.kind.CommitWrite? && w.kind.draft == d
  }

  predicate AboutToMark(s: State, k: nat)
    requires k < |s.history.writes|
  {
    var id := s.history.writes[k].owner;
    id in s.requests && s.requests[id].ApplyRequest? && s.requests[id].a.phase.MarkApplied?
    && IsCommitOf(s.history.writes[k], s.requests[id].a.draft) && s.requests[id].a.committedAt == k
  }

  predicate NewClaim(s: State, next: State, id: nat) {
    && id in next.requests && next.requests[id].ApplyRequest? && InClaim(next.requests[id].a.phase)
    && (id !in s.requests || !s.requests[id].ApplyRequest? || !InClaim(s.requests[id].a.phase)
        || s.requests[id].a.draft != next.requests[id].a.draft)
  }

  lemma AppliedClaimsNothing(s: State, id: nat, a: Apply, input: Input)
    requires AfterCommit(a.phase)
    ensures var next := AppliedStep(s, id, a, input);
            id in next.requests && next.requests[id].ApplyRequest? && !InClaim(next.requests[id].a.phase)
  {
    if !input.fails {
      if a.phase.Attach? {
        AttachClaimsNothing(s, id, a, input.overrides);
      } else if a.phase.Rollback? {
        RollbackClaimsNothing(s, id, a);
      }
    }
  }

  lemma AttachClaimsNothing(s: State, id: nat, a: Apply, overrides: set<F.Field>)
    ensures var next := AttachBatch(s, id, a, overrides);
            id in next.requests && next.requests[id].ApplyRequest? && !InClaim(next.requests[id].a.phase)
  {
  }

  lemma RollbackClaimsNothing(s: State, id: nat, a: Apply)
    ensures var next := RollbackCas(s, id, a);
            id in next.requests && next.requests[id].ApplyRequest? && !InClaim(next.requests[id].a.phase)
  {
  }

  lemma ClaimedKeepsDraft(s: State, id: nat, a: Apply, input: Input)
    requires InClaim(a.phase)
    ensures var next := ClaimedStep(s, id, a, input);
            id in next.requests && next.requests[id].ApplyRequest? && next.requests[id].a.draft == a.draft
  {
  }

  lemma ApplyClaimsOpen(s: State, id: nat, a: Apply, input: Input)
    requires id in s.requests && s.requests[id] == ApplyRequest(a)
    requires NewClaim(s, ApplyStep(s, id, a, input), id)
    ensures a.draft in s.drafts && s.drafts[a.draft].status == Validated && a.phase.Claim?
    ensures ApplyStep(s, id, a, input).requests[id].a.draft == a.draft
  {
    if AfterCommit(a.phase) {
      AppliedClaimsNothing(s, id, a, input);
    } else if InClaim(a.phase) {
      ClaimedKeepsDraft(s, id, a, input);
    }
  }

  lemma OthersClaimNothing(s: State, id: nat, input: Input)
    requires id in s.requests && !s.requests[id].ApplyRequest?
    ensures var next := RequestStep(s, id, s.requests[id], input);
            id in next.requests && !next.requests[id].ApplyRequest?
  {
    var r := s.requests[id];
    if IsPut(r) {
      assert !PutStep(s, id, r, input).requests[id].ApplyRequest?;
    } else if OnDrafts(r) {
      assert !DraftStep(s, id, r, input).requests[id].ApplyRequest?;
    } else {
      assert !SyncStep(s, id, r, input).requests[id].ApplyRequest?;
    }
  }

  predicate OnlyMoves(s: State, next: State, id: nat) {
    id in next.requests && next.requests == s.requests[id := next.requests[id]]
  }

  lemma ApplyMovesItself(s: State, id: nat, a: Apply, input: Input)
    requires id in s.requests && s.requests[id] == ApplyRequest(a)
    ensures OnlyMoves(s, ApplyStep(s, id, a, input), id)
  {
    if InClaim(a.phase) {
      ClaimedMovesItself(s, id, a, input);
    } else if AfterCommit(a.phase) {
      AppliedMovesItself(s, id, a, input);
    } else {
      assert s.requests == s.requests[id := s.requests[id]];
    }
  }

  lemma ClaimedMovesItself(s: State, id: nat, a: Apply, input: Input)
    ensures OnlyMoves(s, ClaimedStep(s, id, a, input), id)
  {
    if a.phase.WriteBatch? && !input.fails {
      CommitMovesItself(s, id, a, input);
    }
  }

  lemma CommitMovesItself(s: State, id: nat, a: Apply, input: Input)
    ensures OnlyMoves(s, CommitBatch(s, id, a, input), id)
  {
  }

  lemma AppliedMovesItself(s: State, id: nat, a: Apply, input: Input)
    ensures OnlyMoves(s, AppliedStep(s, id, a, input), id)
  {
    if !input.fails {
      if a.phase.Attach? {
        AttachMovesItself(s, id, a, input.overrides);
      } else if a.phase.Consume? {
        ConsumeMovesItself(s, id, a);
      } else if a.phase.Rollback? {
        RollbackMovesItself(s, id, a);
      }
    }
  }

  lemma AttachMovesItself(s: State, id: nat, a: Apply, overrides: set<F.Field>)
    ensures OnlyMoves(s, AttachBatch(s, id, a, overrides), id)
  {
  }

  lemma ConsumeMovesItself(s: State, id: nat, a: Apply)
    ensures OnlyMoves(s, ConsumeReceipt(s, id, a), id)
  {
  }

  lemma RollbackMovesItself(s: State, id: nat, a: Apply)
    ensures OnlyMoves(s, RollbackCas(s, id, a), id)
  {
  }

  lemma OthersMoveThemselves(s: State, id: nat, input: Input)
    requires id in s.requests && !s.requests[id].ApplyRequest?
    ensures OnlyMoves(s, RequestStep(s, id, s.requests[id], input), id)
  {
    var r := s.requests[id];
    assert s.requests == s.requests[id := r];
    if IsPut(r) {
      assert OnlyMoves(s, PutStep(s, id, r, input), id);
    } else if OnDrafts(r) {
      assert OnlyMoves(s, DraftStep(s, id, r, input), id);
    } else {
      assert OnlyMoves(s, SyncStep(s, id, r, input), id);
    }
  }

  lemma StrangersStay(s: State, e: Event, id: nat)
    requires id in s.requests && (e.Run? ==> e.id != id)
    ensures id in Step(s, e).requests && Step(s, e).requests[id] == s.requests[id]
  {
    if e.Run? && e.id in s.requests {
      if s.requests[e.id].ApplyRequest? {
        ApplyMovesItself(s, e.id, s.requests[e.id].a, e.input);
      } else {
        OthersMoveThemselves(s, e.id, e.input);
      }
    }
  }

  /** A claim is only ever made on a validated draft. */
  lemma ClaimsComeFromOpen(s: State, e: Event, id: nat)
    requires NewClaim(s, Step(s, e), id)
    ensures Step(s, e).requests[id].a.draft in s.drafts && s.drafts[Step(s, e).requests[id].a.draft].status == Validated
  {
    if id in s.requests && (e.Run? ==> e.id != id) {
      StrangersStay(s, e, id);
    } else if e.Run? && id in s.requests {
      RunsClaimOpen(s, id, e.input);
    } else {
      BeginsClaimNothing(s, e, id);
    }
  }

  lemma BeginsClaimNothing(s: State, e: Event, id: nat)
    requires id !in s.requests
    ensures !e.Run? ==> !NewClaim(s, Step(s, e), id)
    ensures e.Run? && e.id == id ==> Step(s, e) == s
  {
  }

  lemma RunsClaimOpen(s: State, id: nat, input: Input)
    requires id in s.requests && NewClaim(s, RequestStep(s, id, s.requests[id], input), id)
    ensures var d := RequestStep(s, id, s.requests[id], input).requests[id].a.draft;
            d in s.drafts && s.drafts[d].status == Validated
  {
    if s.requests[id].ApplyRequest? {
      ApplyClaimsOpen(s, id, s.requests[id].a, input);
    } else {
      OthersClaimNothing(s, id, input);
    }
  }

  /** One write by request `id`, which is a commit only when `id` is about to write its batch. */
  predicate OneWrite(s: State, next: State, id: nat) {
    && |next.history.writes| == |s.history.writes| + 1 && Extends(next.history, s.history)
    && var w := next.history.writes[|s.history.writes|];
       && w.owner == id
       && (w.kind.CommitWrite? ==>
             && id in s.requests && s.requests[id].ApplyRequest? && s.requests[id].a.phase.WriteBatch?
             && w.kind.draft == s.requests[id].a.draft && AboutToMark(next, |s.history.writes|))
  }

  lemma ClaimedWrites(s: State, id: nat, a: Apply, input: Input)
    requires id in s.requests && s.requests[id] == ApplyRequest(a) && InClaim(a.phase)
    ensures var next := ClaimedStep(s, id, a, input);
            next.history == s.history || OneWrite(s, next, id)
  {
  }

  lemma AppliedWrites(s: State, id: nat, a: Apply, input: Input)
    requires id in s.requests && s.requests[id] == ApplyRequest(a) && AfterCommit(a.phase)
    ensures var next := AppliedStep(s, id, a, input);
            next.history == s.history || OneWrite(s, next, id)
  {
  }

  lemma OthersWrite(s: State, id: nat, r: Request, input: Input)
    requires id in s.requests && s.requests[id] == r && !r.ApplyRequest?
    ensures var next := RequestStep(s, id, r, input);
            next.history == s.history || OneWrite(s, next, id)
  {
    if IsPut(r) {
      assert var next := PutStep(s, id, r, input); next.history == s.history || OneWrite(s, next, id);
    } else if OnDrafts(r) {
      assert DraftStep(s, id, r, input).history == s.history;
    } else {
      assert var next := SyncStep(s, id, r, input); next.history == s.history || OneWrite(s, next, id);
    }
  }

  lemma WritesComeSingly(s: State, e: Event)
    ensures Step(s, e).history == s.history || (e.Run? && e.id in s.requests && OneWrite(s, Step(s, e), e.id))
  {
    if e.Run? && e.id in s.requests {
      var r := s.requests[e.id];
      if !r.ApplyRequest? {
        OthersWrite(s, e.id, r, e.input);
      } else if InClaim(r.a.phase) {
        ClaimedWrites(s, e.id, r.a, e.input);
      } else if AfterCommit(r.a.phase) {
        AppliedWrites(s, e.id, r.a, e.input);
      }
    }
  }
}
