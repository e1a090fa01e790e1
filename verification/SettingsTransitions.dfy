/**
 Every change of a draft and every end of an apply, with its cause: which step makes a draft what it
 is, whose checks stand behind a validated draft, and what a successful apply has been through.
 */
module SettingsTransitions {
  import opened Prelude
  import F = SettingsFields
  import D = SettingsDrafts
  import opened SettingsProtocol
  import opened SettingsHistory
  import opened SettingsSafety
  import opened SettingsClaims

  // ----- what a step does to a draft

  predicate Runs(s: State, e: Event) {
    e.Run? && e.id in s.requests
  }

  /** The event is the given step of a validation, or of an apply that does not fail. */
  predicate IsStepOf(s: State, e: Event, r: Request) {
    Runs(s, e) && s.requests[e.id] == r
  }

  predicate ApplyIsAt(s: State, e: Event, d: nat, phase: Phase) {
    Runs(s, e) && s.requests[e.id].ApplyRequest? && s.requests[e.id].a.draft == d && s.requests[e.id].a.phase == phase
  }

  /** A refresh that finds the draft as it had read it. */
  predicate Refreshes(s: State, e: Event, d: nat)
    requires d in s.drafts
  {
    IsStepOf(s, e, RefreshReady(d, s.drafts[d].status, s.drafts[d].updated))
  }

  /** A validation of an open draft reports its checks. */
  predicate Checks(s: State, e: Event, d: nat)
    requires d in s.drafts
  {
    IsStepOf(s, e, ValidateFinish(d)) && Open(s.drafts[d].status)
  }

  /** A failed apply gives up the draft it holds. */
  predicate HandsBack(s: State, e: Event, d: nat)
    requires d in s.drafts
  {
    ApplyIsAt(s, e, d, CatchError) && s.drafts[d].status == Applying
  }

  /** The one kind of step that gives a draft this status. */
  predicate Enters(s: State, e: Event, d: nat, status: Status)
    requires d in s.drafts
  {
    var now := s.drafts[d].status;
    match status
    case Drafted => Refreshes(s, e, d)
    case Validated => (Checks(s, e, d) && e.input.ok) || (e == Promote(d) && now == Invalid) || HandsBack(s, e, d)
    case Invalid => Checks(s, e, d) && !e.input.ok
    case Applying => ApplyIsAt(s, e, d, Claim) && now == Validated
    case Conflict =>
      || (ApplyIsAt(s, e, d, MarkConflict) && !e.input.fails)
      || (IsStepOf(s, e, ValidateConflict(d)) && now != Applied && now != Cancelled)
    case Applied => ApplyIsAt(s, e, d, MarkApplied) && !e.input.fails
    case Cancelled => e == Cancel(d) && Open(now)
    case RolledBack => ApplyIsAt(s, e, d, MarkRolledBack) && !e.input.fails
    case RollbackConflict => ApplyIsAt(s, e, d, MarkRollbackConflict) && !e.input.fails
  }

  /** What becomes of a draft in one step: a new status by its cause and new material by a refresh or a cancellation, nothing else. */
  predicate Moved(s: State, e: Event, d: nat, after: Draft)
    requires d in s.drafts
  {
    var before := s.drafts[d];
    && after.base == before.base && after.baseAt == before.baseAt
    && (forall status :: Enters(s, e, d, status) ==> after.status == status && after.updated == s.now)
    && (after != before ==> Enters(s, e, d, after.status))
    && after.material == (if Refreshes(s, e, d) then e.input.material
                          else if e == Cancel(d) && Open(before.status) then before.material.(secrets := [])
                          else before.material)
  }

  lemma ClaimedMoved(s: State, e: Event, a: Apply, d: nat)
    requires d in s.drafts && IsStepOf(s, e, ApplyRequest(a)) && InClaim(a.phase)
    ensures var next := ClaimedStep(s, e.id, a, e.input);
            d in next.drafts && Moved(s, e, d, next.drafts[d])
  {
  }

  lemma AppliedMoved(s: State, e: Event, a: Apply, d: nat)
    requires d in s.drafts && IsStepOf(s, e, ApplyRequest(a)) && AfterCommit(a.phase)
    ensures var next := AppliedStep(s, e.id, a, e.input);
            d in next.drafts && Moved(s, e, d, next.drafts[d])
  {
  }

  lemma OpeningMoved(s: State, e: Event, a: Apply, d: nat)
    requires d in s.drafts && IsStepOf(s, e, ApplyRequest(a)) && !InClaim(a.phase) && !AfterCommit(a.phase)
    ensures var next := OpeningStep(s, e.id, a);
            d in next.drafts && Moved(s, e, d, next.drafts[d])
  {
  }

  lemma DraftStepMoved(s: State, e: Event, r: Request, d: nat)
    requires d in s.drafts && d != s.seals && IsStepOf(s, e, r) && OnDrafts(r)
    ensures var next := DraftStep(s, e.id, r, e.input);
            d in next.drafts && Moved(s, e, d, next.drafts[d])
  {
  }

  /** An event that is no cause leaves the draft as it is. */
  lemma NoCause(s: State, e: Event, d: nat)
    requires d in s.drafts && e != Cancel(d) && e != Promote(d)
    requires Runs(s, e) ==> !s.requests[e.id].ApplyRequest? && !OnDrafts(s.requests[e.id])
    ensures Moved(s, e, d, s.drafts[d])
  {
  }

  lemma RowStepMoved(s: State, e: Event, r: Request, d: nat)
    requires d in s.drafts && IsStepOf(s, e, r) && !r.ApplyRequest? && !OnDrafts(r)
    ensures var next := RequestStep(s, e.id, r, e.input);
            d in next.drafts && Moved(s, e, d, next.drafts[d])
  {
    NoCause(s, e, d);
    RowStepDrafts(s, e.id, r, e.input);
  }

  lemma EventMoved(s: State, e: Event, d: nat)
    requires d in s.drafts && !Runs(s, e)
    ensures d in Step(s, e).drafts && Moved(s, e, d, Step(s, e).drafts[d])
  {
    if e == Cancel(d) {
      CancelMoved(s, d);
    } else if e == Promote(d) {
      PromoteMoved(s, d);
    } else {
      NoCause(s, e, d);
    }
  }

  lemma CancelMoved(s: State, d: nat)
    requires d in s.drafts
    ensures d in Step(s, Cancel(d)).drafts && Moved(s, Cancel(d), d, Step(s, Cancel(d)).drafts[d])
  {
  }

  lemma PromoteMoved(s: State, d: nat)
    requires d in s.drafts
    ensures d in Step(s, Promote(d)).drafts && Moved(s, Promote(d), d, Step(s, Promote(d)).drafts[d])
  {
  }

  /** Every step does to every draft exactly what its cause says. */
  lemma DraftMoved(s: State, e: Event, d: nat)
    requires d in s.drafts && d != s.seals
    ensures d in Step(s, e).drafts && Moved(s, e, d, Step(s, e).drafts[d])
  {
    if !Runs(s, e) {
      EventMoved(s, e, d);
    } else {
      var r := s.requests[e.id];
      if !r.ApplyRequest? {
        if OnDrafts(r) {
          DraftStepMoved(s, e, r, d);
        } else {
          RowStepMoved(s, e, r, d);
        }
      } else if InClaim(r.a.phase) {
        ClaimedMoved(s, e, r.a, d);
      } else if AfterCommit(r.a.phase) {
        AppliedMoved(s, e, r.a, d);
      } else {
        OpeningMoved(s, e, r.a, d);
      }
    }
  }

  /** The only new draft is the one a creation inserts, with what the request brings and the base it read. */
  lemma DraftAppears(s: State, e: Event, d: nat)
    requires d !in s.drafts
    ensures d in Step(s, e).drafts
       <==> d == s.seals && Runs(s, e) && s.requests[e.id].CreateReady?
    ensures d in Step(s, e).drafts ==>
              Step(s, e).drafts[d] == Draft(s.requests[e.id].base, s.requests[e.id].baseAt, e.input.material, Drafted, s.now)
  {
    if Runs(s, e) {
      RunAppears(s, e.id, s.requests[e.id], e.input, d);
    }
  }

  lemma RunAppears(s: State, id: nat, r: Request, input: Input, d: nat)
    requires d !in s.drafts
    ensures var next := RequestStep(s, id, r, input);
            && (d in next.drafts <==> d == s.seals && r.CreateReady?)
            && (d in next.drafts ==> next.drafts[d] == Draft(r.base, r.baseAt, input.material, Drafted, s.now))
  {
    if r.ApplyRequest? {
      ApplyAppears(s, id, r.a, input);
    } else if !OnDrafts(r) {
      RowStepDrafts(s, id, r, input);
    }
  }

  lemma ApplyAppears(s: State, id: nat, a: Apply, input: Input)
    ensures ApplyStep(s, id, a, input).drafts.Keys == s.drafts.Keys
  {
  }
}
