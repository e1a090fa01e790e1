/**
 What stands behind a draft and behind a success, over every run: a validated draft has passed its
 checks or was promoted, with the material it has now; only such material is ever committed; and an
 apply that succeeded had its override list attached and its health check passed.
 */
module SettingsApprovals {
  import opened Prelude
  import F = SettingsFields
  import D = SettingsDrafts
  import opened SettingsProtocol
  import opened SettingsHistory
  import opened SettingsSafety
  import opened SettingsClaims
  import opened SettingsTransitions

  /** The state before event number `k`. */
  function Before(s: State, events: seq<Event>, k: nat): State
    requires k <= |events|
  {
    Execution(s, events[..k])
  }

  lemma BeforeOfPrefix(s: State, events: seq<Event>, n: nat, k: nat)
    requires k <= n <= |events|
    ensures Before(s, events[..n], k) == Before(s, events, k)
  {
    assert events[..n][..k] == events[..k];
  }

  lemma LastBefore(s: State, events: seq<Event>)
    ensures Before(s, events, |events|) == Execution(s, events)
    ensures events != [] ==> Execution(s, events) == Step(Before(s, events, |events| - 1), events[|events| - 1])
  {
    assert events[..|events|] == events;
  }

  lemma DraftsAreOld(s: State, events: seq<Event>)
    requires Initial(s)
    ensures var t := Execution(s, events); Sound(t) && forall d :: d in t.drafts ==> d < t.seals
  {
    AlwaysSound(s, events);
  }

  // ----- the cause of a status

  /** The draft got its status at event `k` and has kept it since. */
  predicate EnteredAt(s: State, events: seq<Event>, d: nat, status: Status, k: nat)
  {
    && k < |events| && d in Before(s, events, k).drafts && Enters(Before(s, events, k), events[k], d, status)
    && forall j :: k < j <= |events| ==> d in Before(s, events, j).drafts && Before(s, events, j).drafts[d].status == status
  }

  lemma EnteredLasts(s: State, events: seq<Event>, d: nat, status: Status, k: nat)
    requires events != [] && EnteredAt(s, events[..|events| - 1], d, status, k)
    requires d in Execution(s, events).drafts && Execution(s, events).drafts[d].status == status
    ensures EnteredAt(s, events, d, status, k)
  {
    var n := |events| - 1;
    BeforeOfPrefix(s, events, n, k);
    LastBefore(s, events);
    forall j | k < j <= |events| ensures d in Before(s, events, j).drafts && Before(s, events, j).drafts[d].status == status {
      if j <= n {
        BeforeOfPrefix(s, events, n, j);
      }
    }
  }

  lemma EnteredNow(s: State, events: seq<Event>, d: nat)
    requires Initial(s) && events != []
    requires d in Before(s, events, |events| - 1).drafts && d in Execution(s, events).drafts
    requires Execution(s, events).drafts[d].status != Before(s, events, |events| - 1).drafts[d].status
    ensures EnteredAt(s, events, d, Execution(s, events).drafts[d].status, |events| - 1)
  {
    var n := |events| - 1;
    LastBefore(s, events);
    DraftsAreOld(s, events[..n]);
    DraftMoved(Before(s, events, n), events[n], d);
  }

  /** In every run a draft that is not as it was created owes its status to the step that gives that status. */
  lemma {:induction false} StatusHasCause(s: State, events: seq<Event>, d: nat)
    requires Initial(s) && d in Execution(s, events).drafts && Execution(s, events).drafts[d].status != Drafted
    ensures exists k: nat :: EnteredAt(s, events, d, Execution(s, events).drafts[d].status, k)
    decreases |events|
  {
    var n, t := |events| - 1, Execution(s, events);
    LastBefore(s, events);
    var before := Before(s, events, n);
    if d !in before.drafts {
      DraftAppears(before, events[n], d);
    } else if before.drafts[d].status == t.drafts[d].status {
      StatusHasCause(s, events[..n], d);
      var k: nat :| EnteredAt(s, events[..n], d, t.drafts[d].status, k);
      EnteredLasts(s, events, d, t.drafts[d].status, k);
    } else {
      EnteredNow(s, events, d);
    }
  }

  // ----- approval

  /** The draft passes its checks, or is promoted although they failed. */
  predicate Approves(s: State, e: Event, d: nat)
    requires d in s.drafts
  {
    (Checks(s, e, d) && e.input.ok) || (e == Promote(d) && s.drafts[d].status == Invalid)
  }

  predicate Approved(status: Status) {
    status == Validated || status == Applying
  }

  /** Approved at event `k`, the draft has been validated or in an apply's hands since, with the same material. */
  predicate ApprovedAt(s: State, events: seq<Event>, d: nat, material: D.Material, k: nat) {
    && k < |events| && d in Before(s, events, k).drafts && Approves(Before(s, events, k), events[k], d)
    && forall j :: k < j <= |events| ==>
         d in Before(s, events, j).drafts && Approved(Before(s, events, j).drafts[d].status) && Before(s, events, j).drafts[d].material == material
  }

  lemma ApprovedLasts(s: State, events: seq<Event>, d: nat, material: D.Material, k: nat)
    requires events != [] && ApprovedAt(s, events[..|events| - 1], d, material, k)
    requires d in Execution(s, events).drafts && Approved(Execution(s, events).drafts[d].status) && Execution(s, events).drafts[d].material == material
    ensures ApprovedAt(s, events, d, material, k)
  {
    var n := |events| - 1;
    BeforeOfPrefix(s, events, n, k);
    LastBefore(s, events);
    forall j | k < j <= |events|
      ensures d in Before(s, events, j).drafts && Approved(Before(s, events, j).drafts[d].status) && Before(s, events, j).drafts[d].material == material
    {
      if j <= n {
        BeforeOfPrefix(s, events, n, j);
      }
    }
  }

  /** One step into approval, or within it. */
  lemma ApprovalStep(s: State, e: Event, d: nat)
    requires d in s.drafts && d != s.seals && d in Step(s, e).drafts && Approved(Step(s, e).drafts[d].status)
    ensures Approves(s, e, d) || (Approved(s.drafts[d].status) && Step(s, e).drafts[d].material == s.drafts[d].material)
  {
    assert Refreshes(s, e, d) <==> Enters(s, e, d, Drafted);
    assert e == Cancel(d) && Open(s.drafts[d].status) <==> Enters(s, e, d, Cancelled);
    DraftMoved(s, e, d);
  }

  /** Whatever is validated, or in an apply's hands, was approved with the material it has now. */
  lemma {:induction false} ValidatedWasApproved(s: State, events: seq<Event>, d: nat)
    requires Initial(s) && d in Execution(s, events).drafts && Approved(Execution(s, events).drafts[d].status)
    ensures exists k: nat :: ApprovedAt(s, events, d, Execution(s, events).drafts[d].material, k)
    decreases |events|
  {
    var n, t := |events| - 1, Execution(s, events);
    LastBefore(s, events);
    var before := Before(s, events, n);
    if d !in before.drafts {
      DraftAppears(before, events[n], d);
    } else {
      DraftsAreOld(s, events[..n]);
      ApprovalStep(before, events[n], d);
      if Approves(before, events[n], d) {
        assert Step(before, events[n]) == t;
        ApprovedNow(s, events, d);
      } else {
        ValidatedWasApproved(s, events[..n], d);
        var k: nat :| ApprovedAt(s, events[..n], d, t.drafts[d].material, k);
        ApprovedLasts(s, events, d, t.drafts[d].material, k);
      }
    }
  }

  lemma ApprovedNow(s: State, events: seq<Event>, d: nat)
    requires events != [] && d in Before(s, events, |events| - 1).drafts && Approves(Before(s, events, |events| - 1), events[|events| - 1], d)
    requires d in Execution(s, events).drafts && Approved(Execution(s, events).drafts[d].status)
    ensures ApprovedAt(s, events, d, Execution(s, events).drafts[d].material, |events| - 1)
  {
    LastBefore(s, events);
  }

  // ----- what is committed

  /** Some event's draft was validated as it is here. */
  predicate ValidAt(s: State, events: seq<Event>, d: nat, seen: Draft, j: nat) {
    j <= |events| && d in Before(s, events, j).drafts && Before(s, events, j).drafts[d] == seen && seen.status == Validated
  }

  lemma ValidLater(s: State, events: seq<Event>, d: nat, seen: Draft, j: nat)
    requires events != [] && ValidAt(s, events[..|events| - 1], d, seen, j)
    ensures ValidAt(s, events, d, seen, j)
  {
    BeforeOfPrefix(s, events, |events| - 1, j);
  }

  /** The apply has read its draft and not yet written its batch. */
  predicate HoldsReading(r: Request) {
    r.ApplyRequest? && (r.a.phase.Claim? || r.a.phase.ReadActive? || r.a.phase.WriteBatch?)
  }

  lemma ApplyKeepsReading(s: State, id: nat, a: Apply, input: Input, after: Request)
    requires id in s.requests && s.requests[id] == ApplyRequest(a)
    requires id in ApplyStep(s, id, a, input).requests && after == ApplyStep(s, id, a, input).requests[id] && HoldsReading(after)
    ensures after.a.draft == a.draft
    ensures if a.phase.ReadDraft? then a.draft in s.drafts && after.a.seen == s.drafts[a.draft] && after.a.seen.status == Validated
            else HoldsReading(s.requests[id]) && after.a.seen == a.seen
  {
    if AfterCommit(a.phase) {
      AppliedClaimsNothing(s, id, a, input);
      AppliedNeverClaims(s, id, a, input);
    } else if InClaim(a.phase) {
      ClaimedKeepsReading(s, id, a, input, after);
    }
  }

  lemma ClaimedKeepsReading(s: State, id: nat, a: Apply, input: Input, after: Request)
    requires InClaim(a.phase)
    requires id in ClaimedStep(s, id, a, input).requests && after == ClaimedStep(s, id, a, input).requests[id] && HoldsReading(after)
    ensures after.a.draft == a.draft && HoldsReading(ApplyRequest(a)) && after.a.seen == a.seen
  {
    if a.phase.WriteBatch? && !input.fails {
      CommitGoesOn(s, id, a, input);
    }
  }

  lemma AppliedNeverClaims(s: State, id: nat, a: Apply, input: Input)
    requires AfterCommit(a.phase) && id in AppliedStep(s, id, a, input).requests && AppliedStep(s, id, a, input).requests[id].ApplyRequest?
    ensures !AppliedStep(s, id, a, input).requests[id].a.phase.Claim?
  {
  }

  /** Where a reading comes from: it is taken from a validated draft, and kept. */
  lemma StepKeepsReading(s: State, e: Event, id: nat)
    requires id in Step(s, e).requests && HoldsReading(Step(s, e).requests[id])
    ensures id in s.requests && s.requests[id].ApplyRequest?
    ensures var a, after := s.requests[id].a, Step(s, e).requests[id].a;
            && after.draft == a.draft
            && ((HoldsReading(s.requests[id]) && after.seen == a.seen)
                || (a.draft in s.drafts && after.seen == s.drafts[a.draft] && after.seen.status == Validated))
  {
    if id in s.requests && (e.Run? ==> e.id != id) {
      StrangersStay(s, e, id);
    } else if e.Run? && id in s.requests {
      if s.requests[id].ApplyRequest? {
        ApplyKeepsReading(s, id, s.requests[id].a, e.input, Step(s, e).requests[id]);
      } else {
        OthersClaimNothing(s, id, e.input);
      }
    } else {
      NewcomersHoldNothing(s, e, id);
    }
  }

  lemma NewcomersHoldNothing(s: State, e: Event, id: nat)
    requires id !in s.requests
    ensures id in Step(s, e).requests ==> !HoldsReading(Step(s, e).requests[id])
  {
    if e.Run? && e.id in s.requests {
      if s.requests[e.id].ApplyRequest? {
        ApplyMovesItself(s, e.id, s.requests[e.id].a, e.input);
      } else {
        OthersMoveThemselves(s, e.id, e.input);
      }
    }
  }

  /** What an apply is about to commit was a validated draft when it read it. */
  lemma {:induction false} ReadingWasValid(s: State, events: seq<Event>, id: nat)
    requires Initial(s) && id in Execution(s, events).requests && HoldsReading(Execution(s, events).requests[id])
    ensures var a := Execution(s, events).requests[id].a; exists j: nat :: ValidAt(s, events, a.draft, a.seen, j)
    decreases |events|
  {
    var n, a := |events| - 1, Execution(s, events).requests[id].a;
    LastBefore(s, events);
    var before := Before(s, events, n);
    StepKeepsReading(before, events[n], id);
    if HoldsReading(before.requests[id]) && a.seen == before.requests[id].a.seen {
      ReadingWasValid(s, events[..n], id);
      var j: nat :| ValidAt(s, events[..n], a.draft, a.seen, j);
      ValidLater(s, events, a.draft, a.seen, j);
    } else {
      assert ValidAt(s, events, a.draft, a.seen, n);
    }
  }

  lemma CommitWriteOf(s: State, e: Event)
    requires |Step(s, e).history.writes| > |s.history.writes| && Step(s, e).history.writes[|s.history.writes|].kind.CommitWrite?
    ensures e.Run? && e.id in s.requests && s.requests[e.id].ApplyRequest? && s.requests[e.id].a.phase.WriteBatch?
    ensures var a := s.requests[e.id].a;
            Step(s, e).history.writes[|s.history.writes|].kind == CommitWrite(a.draft, a.seen.base, a.seen.baseAt, a.seen.material)
  {
    WritesComeSingly(s, e);
  }

  /** The write commits what an approved draft held at event `j`. */
  predicate CommitsApproved(s: State, events: seq<Event>, w: Write, j: nat, k: nat) {
    && w.kind.CommitWrite? && j <= |events| && w.kind.draft in Before(s, events, j).drafts
    && var d := Before(s, events, j).drafts[w.kind.draft];
       && d.base == w.kind.base && d.baseAt == w.kind.baseAt && d.material == w.kind.material && d.status == Validated
       && ApprovedAt(s, events[..j], w.kind.draft, w.kind.material, k)
  }

  ghost predicate Backed(s: State, events: seq<Event>, w: Write) {
    exists j: nat, k: nat :: CommitsApproved(s, events, w, j, k)
  }

  lemma BackedLonger(s: State, events: seq<Event>, n: nat, w: Write)
    requires n <= |events| && Backed(s, events[..n], w)
    ensures Backed(s, events, w)
  {
    var j: nat, k: nat :| CommitsApproved(s, events[..n], w, j, k);
    BeforeOfPrefix(s, events, n, j);
    assert events[..n][..j] == events[..j];
    assert CommitsApproved(s, events, w, j, k);
  }

  lemma NewCommitIsBacked(s: State, events: seq<Event>, id: nat, w: Write)
    requires Initial(s) && id in Execution(s, events).requests && HoldsReading(Execution(s, events).requests[id])
    requires var a := Execution(s, events).requests[id].a; w.kind == CommitWrite(a.draft, a.seen.base, a.seen.baseAt, a.seen.material)
    ensures Backed(s, events, w)
  {
    var a := Execution(s, events).requests[id].a;
    ReadingWasValid(s, events, id);
    var j: nat :| ValidAt(s, events, a.draft, a.seen, j);
    ValidatedWasApproved(s, events[..j], a.draft);
    var k: nat :| ApprovedAt(s, events[..j], a.draft, a.seen.material, k);
    assert CommitsApproved(s, events, w, j, k);
  }

  /** The commit among the writes of the last event. */
  lemma LastCommitIsBacked(s: State, events: seq<Event>, before: State, e: Event)
    requires Initial(s) && before == Execution(s, events)
    requires |Step(before, e).history.writes| > |before.history.writes| && Step(before, e).history.writes[|before.history.writes|].kind.CommitWrite?
    ensures Backed(s, events, Step(before, e).history.writes[|before.history.writes|])
  {
    CommitWriteOf(before, e);
    NewCommitIsBacked(s, events, e.id, Step(before, e).history.writes[|before.history.writes|]);
  }

  /** The history of the settings row after a run. */
  function Writes(s: State, events: seq<Event>): seq<Write> {
    Execution(s, events).history.writes
  }

  lemma WritesGrow(s: State, events: seq<Event>, n: nat)
    requires n < |events|
    ensures Writes(s, events[..n]) <= Writes(s, events[..n + 1]) && |Writes(s, events[..n + 1])| <= |Writes(s, events[..n])| + 1
  {
    assert events[..n + 1][..n] == events[..n];
    WritesComeSingly(Execution(s, events[..n]), events[n]);
  }

  /** In a list that grows by at most one at a time, the step that added number `i`. */
  lemma {:induction false} AddedAt(lists: seq<seq<Write>>, i: nat) returns (n: nat)
    requires lists != [] && |lists[0]| <= i < |lists[|lists| - 1]|
    requires forall k :: 0 <= k < |lists| - 1 ==> lists[k] <= lists[k + 1] && |lists[k + 1]| <= |lists[k]| + 1
    ensures n + 1 < |lists| && i == |lists[n]| && lists[n + 1] == lists[n] + [lists[|lists| - 1][i]]
  {
    n := |lists| - 2;
    var earlier, later := lists[n], lists[n + 1];
    if i < |earlier| {
      n := AddedAt(lists[..|lists| - 1], i);
    } else {
      assert later == earlier + [later[i]];
    }
  }

  /** The event that added write number `i`. */
  lemma WrittenAt(s: State, events: seq<Event>, i: nat) returns (n: nat)
    requires |s.history.writes| <= i < |Writes(s, events)|
    ensures n < |events| && Writes(s, events[..n + 1]) == Writes(s, events[..n]) + [Writes(s, events)[i]]
  {
    var lists := seq(|events| + 1, k requires 0 <= k <= |events| => Writes(s, events[..k]));
    forall k | 0 <= k < |lists| - 1 ensures lists[k] <= lists[k + 1] && |lists[k + 1]| <= |lists[k]| + 1 {
      WritesGrow(s, events, k);
    }
    assert events[..|events|] == events;
    n := AddedAt(lists, i);
  }

  lemma LastWriteIsBacked(s: State, events: seq<Event>, n: nat, w: Write)
    requires Initial(s) && n < |events| && Writes(s, events[..n + 1]) == Writes(s, events[..n]) + [w] && w.kind.CommitWrite?
    ensures Backed(s, events[..n], w)
  {
    assert events[..n + 1][..n] == events[..n];
    LastCommitIsBacked(s, events[..n], Execution(s, events[..n]), events[n]);
  }

  /**
   In every run each commit writes the material of a draft that was validated when it was read and had
   been approved with exactly this material: unapproved material never reaches the settings row.
   */
  lemma OnlyApprovedIsCommitted(s: State, events: seq<Event>, i: nat)
    requires Initial(s) && i < |Writes(s, events)| && Writes(s, events)[i].kind.CommitWrite?
    ensures Backed(s, events, Writes(s, events)[i])
  {
    var n := WrittenAt(s, events, i);
    LastWriteIsBacked(s, events, n, Writes(s, events)[i]);
    BackedLonger(s, events, n, Writes(s, events)[i]);
  }

  // ----- what a success has been through

  /** The step that ends an apply with this outcome. */
  predicate Ends(s: State, a: Apply, input: Input, outcome: Outcome) {
    var validated := a.draft in s.drafts && s.drafts[a.draft].status == Validated;
    match outcome
    case Refused => ((a.phase.ReadDraft? || a.phase.Claim?) && !validated) || (a.phase.MarkConflict? && !input.fails)
    case Errored => a.phase.CatchError? || (AfterCommit(a.phase) && input.fails)
    case Succeeded => a.phase.Health? && !input.fails && input.ok && !a.detached
    case WasRolledBack => a.phase.MarkRolledBack? && !input.fails
    case HitRollbackConflict => a.phase.MarkRollbackConflict? && !input.fails
  }

  /** An apply under way ends with an outcome exactly in the step that is there for it. */
  lemma EndsExactly(s: State, id: nat, a: Apply, input: Input, outcome: Outcome)
    requires id in s.requests && s.requests[id] == ApplyRequest(a) && !a.phase.Ended?
    ensures var next := ApplyStep(s, id, a, input);
            && id in next.requests && next.requests[id].ApplyRequest?
            && (next.requests[id].a.phase == Ended(outcome) <==> Ends(s, a, input, outcome))
  {
    if InClaim(a.phase) {
      ClaimedEnds(s, id, a, input, outcome);
    } else if AfterCommit(a.phase) {
      AppliedEnds(s, id, a, input, outcome);
    }
  }

  lemma ClaimedEnds(s: State, id: nat, a: Apply, input: Input, outcome: Outcome)
    requires InClaim(a.phase)
    ensures var next := ClaimedStep(s, id, a, input);
            && id in next.requests && next.requests[id].ApplyRequest?
            && (next.requests[id].a.phase == Ended(outcome) <==> Ends(s, a, input, outcome))
  {
    if a.phase.WriteBatch? && !input.fails {
      CommitGoesOn(s, id, a, input);
    }
  }

  lemma CommitGoesOn(s: State, id: nat, a: Apply, input: Input)
    ensures var next := CommitBatch(s, id, a, input).requests;
            id in next && next[id].ApplyRequest? && (next[id].a.phase.MarkApplied? || next[id].a.phase.MarkConflict?)
  {
  }

  lemma AppliedEnds(s: State, id: nat, a: Apply, input: Input, outcome: Outcome)
    requires AfterCommit(a.phase)
    ensures var next := AppliedStep(s, id, a, input);
            && id in next.requests && next.requests[id].ApplyRequest?
            && (next.requests[id].a.phase == Ended(outcome) <==> Ends(s, a, input, outcome))
  {
    if !input.fails {
      if a.phase.Attach? {
        AttachGoesOn(s, id, a, input.overrides);
      } else if a.phase.Consume? {
        ConsumeGoesOn(s, id, a);
      } else if a.phase.Rollback? {
        RollbackGoesOn(s, id, a);
      }
    }
  }

  lemma AttachGoesOn(s: State, id: nat, a: Apply, overrides: set<F.Field>)
    ensures var next := AttachBatch(s, id, a, overrides).requests;
            id in next && next[id].ApplyRequest? && next[id].a.phase.Consume?
  {
  }

  lemma ConsumeGoesOn(s: State, id: nat, a: Apply)
    ensures var next := ConsumeReceipt(s, id, a).requests;
            id in next && next[id].ApplyRequest? && (next[id].a.phase.Health? || next[id].a.phase.MarkRollbackConflict?)
  {
  }

  lemma RollbackGoesOn(s: State, id: nat, a: Apply)
    ensures var next := RollbackCas(s, id, a).requests;
            id in next && next[id].ApplyRequest? && (next[id].a.phase.MarkRolledBack? || next[id].a.phase.MarkRollbackConflict?)
  {
  }

  /** Event `m` attached the list it brings to the row that the apply had committed. */
  predicate AttachedAt(s: State, events: seq<Event>, id: nat, m: nat) {
    && m < |events| && events[m].Run? && events[m].id == id && !events[m].input.fails
    && id in Before(s, events, m).requests && Before(s, events, m).requests[id].ApplyRequest?
    && Before(s, events, m).requests[id].a.phase.Attach?
    && Attaches(Before(s, events, m), Before(s, events, m + 1), id, events[m].input.overrides)
  }

  /** The row in place is the apply's, and only its override list changes. */
  predicate Attaches(s: State, next: State, id: nat, overrides: set<F.Field>)
    requires id in s.requests && s.requests[id].ApplyRequest?
  {
    && Holds(s.active, s.requests[id].a.revision) && next.active.Some? && next.active.value.revision == s.active.value.revision
    && F.OverrideSet(Some(next.active.value.content.config)) == overrides
    && next.active.value.content.secrets == s.active.value.content.secrets
    && next.history.writes == s.history.writes + [Write(id, AttachWrite, |s.history.writes|, next.active)]
  }

  /** Event `k` is the apply's health check, and it passed. */
  predicate CheckedAt(s: State, events: seq<Event>, id: nat, k: nat) {
    && k < |events| && events[k].Run? && events[k].id == id && !events[k].input.fails && events[k].input.ok
    && id in Before(s, events, k).requests && Before(s, events, k).requests[id].ApplyRequest?
    && Before(s, events, k).requests[id].a.phase.Health?
  }

  /** The apply holds a list that it attached. */
  predicate Listed(r: Request) {
    r.ApplyRequest? && (r.a.phase.Consume? || r.a.phase.Health?) && !r.a.detached
  }

  lemma AttachStep(s: State, id: nat, a: Apply, overrides: set<F.Field>)
    requires id in s.requests && s.requests[id] == ApplyRequest(a)
    ensures var next := AttachBatch(s, id, a, overrides);
            Listed(next.requests[id]) ==> Attaches(s, next, id, overrides)
  {
    if s.active.Some? {
      F.OverridesRoundTrip(s.active.value.content.config, overrides);
    }
  }

  lemma AppliedListed(s: State, id: nat, a: Apply, input: Input)
    requires id in s.requests && s.requests[id] == ApplyRequest(a) && AfterCommit(a.phase)
    requires Listed(AppliedStep(s, id, a, input).requests[id])
    ensures Listed(s.requests[id]) || (a.phase.Attach? && !input.fails && Attaches(s, AppliedStep(s, id, a, input), id, input.overrides))
  {
    if a.phase.Attach? && !input.fails {
      AttachStep(s, id, a, input.overrides);
    }
  }

  lemma EarlierNotListed(s: State, id: nat, a: Apply, input: Input)
    requires id in s.requests && s.requests[id] == ApplyRequest(a) && !AfterCommit(a.phase)
    ensures id in ApplyStep(s, id, a, input).requests && !Listed(ApplyStep(s, id, a, input).requests[id])
  {
  }

  /** Where an attached list comes from: the attachment step, or it was there before. */
  lemma StepListed(s: State, e: Event, id: nat)
    requires id in Step(s, e).requests && Listed(Step(s, e).requests[id])
    ensures id in s.requests && s.requests[id].ApplyRequest?
    ensures Listed(s.requests[id])
         || (e.Run? && e.id == id && !e.input.fails && s.requests[id].a.phase.Attach? && Attaches(s, Step(s, e), id, e.input.overrides))
  {
    if id in s.requests && (e.Run? ==> e.id != id) {
      StrangersStay(s, e, id);
    } else if e.Run? && id in s.requests {
      if !s.requests[id].ApplyRequest? {
        OthersClaimNothing(s, id, e.input);
      } else if AfterCommit(s.requests[id].a.phase) {
        AppliedListed(s, id, s.requests[id].a, e.input);
      } else {
        EarlierNotListed(s, id, s.requests[id].a, e.input);
      }
    } else {
      NewcomersAreNew(s, e, id);
    }
  }

  lemma NewcomersAreNew(s: State, e: Event, id: nat)
    requires id !in s.requests
    ensures id in Step(s, e).requests ==> !Listed(Step(s, e).requests[id]) && !Succeeds(Step(s, e).requests[id])
  {
    if e.Run? && e.id in s.requests {
      if s.requests[e.id].ApplyRequest? {
        ApplyMovesItself(s, e.id, s.requests[e.id].a, e.input);
      } else {
        OthersMoveThemselves(s, e.id, e.input);
      }
    }
  }

  predicate Succeeds(r: Request) {
    r.ApplyRequest? && r.a.phase == Ended(Succeeded)
  }

  lemma {:induction false} ListedWasAttached(s: State, events: seq<Event>, id: nat)
    requires Initial(s) && id in Execution(s, events).requests && Listed(Execution(s, events).requests[id])
    ensures exists m: nat :: AttachedAt(s, events, id, m)
    decreases |events|
  {
    var n := |events| - 1;
    LastBefore(s, events);
    var before := Before(s, events, n);
    StepListed(before, events[n], id);
    if Listed(before.requests[id]) {
      ListedWasAttached(s, events[..n], id);
      var m: nat :| AttachedAt(s, events[..n], id, m);
      AttachedLater(s, events, id, m);
    } else {
      assert AttachedAt(s, events, id, n);
    }
  }

  lemma AttachedLater(s: State, events: seq<Event>, id: nat, m: nat)
    requires events != [] && AttachedAt(s, events[..|events| - 1], id, m)
    ensures AttachedAt(s, events, id, m)
  {
    BeforeOfPrefix(s, events, |events| - 1, m);
    BeforeOfPrefix(s, events, |events| - 1, m + 1);
  }

  /** A success is an apply's health check passing with the list attached, or was one before. */
  lemma StepSucceeds(s: State, e: Event, id: nat)
    requires id in Step(s, e).requests && Succeeds(Step(s, e).requests[id])
    ensures id in s.requests && s.requests[id].ApplyRequest?
    ensures Succeeds(s.requests[id])
         || (e.Run? && e.id == id && !e.input.fails && e.input.ok && s.requests[id].a.phase.Health? && Listed(s.requests[id]))
  {
    if id in s.requests && (e.Run? ==> e.id != id) {
      StrangersStay(s, e, id);
    } else if e.Run? && id in s.requests {
      if !s.requests[id].ApplyRequest? {
        OthersClaimNothing(s, id, e.input);
      } else if !s.requests[id].a.phase.Ended? {
        EndsExactly(s, id, s.requests[id].a, e.input, Succeeded);
      }
    } else {
      NewcomersAreNew(s, e, id);
    }
  }

  /** In every run an apply that ended in success had attached its override list and then passed its health check. */
  lemma {:induction false} SuccessWasEarned(s: State, events: seq<Event>, id: nat)
    requires Initial(s) && id in Execution(s, events).requests && Succeeds(Execution(s, events).requests[id])
    ensures exists m: nat, k: nat :: m < k && AttachedAt(s, events, id, m) && CheckedAt(s, events, id, k)
    decreases |events|
  {
    var n := |events| - 1;
    LastBefore(s, events);
    var before := Before(s, events, n);
    StepSucceeds(before, events[n], id);
    if Succeeds(before.requests[id]) {
      SuccessWasEarned(s, events[..n], id);
      var m: nat, k: nat :| m < k && AttachedAt(s, events[..n], id, m) && CheckedAt(s, events[..n], id, k);
      AttachedLater(s, events, id, m);
      BeforeOfPrefix(s, events, n, k);
      assert CheckedAt(s, events, id, k);
    } else {
      ListedWasAttached(s, events[..n], id);
      var m: nat :| AttachedAt(s, events[..n], id, m);
      AttachedLater(s, events, id, m);
      assert CheckedAt(s, events, id, n);
    }
  }
}
