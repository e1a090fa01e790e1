/**
 How applies end: the commit receipt stands for the commit, and an apply whose health check fails
 either takes its own commit back or finds that somebody else has moved on.
 */
module SettingsOutcomes {
  import opened Prelude
  import F = SettingsFields
  import D = SettingsDrafts
  import opened SettingsProtocol
  import opened SettingsHistory
  import opened SettingsSafety
  import opened SettingsClaims
  import opened SettingsFreshStamps

  // ----- receipts

  predicate Awaiting(r: Request) {
    r.ApplyRequest? && (r.a.phase.MarkApplied? || r.a.phase.Attach? || r.a.phase.Consume?)
  }

  /** A request between its commit and the consumption of its receipt finds that receipt. */
  predicate ReceiptOk(receipts: map<nat, Receipt>, r: Request) {
    Awaiting(r) ==>
      r.a.commit in receipts && receipts[r.a.commit].draft == r.a.draft && receipts[r.a.commit].row.revision == r.a.revision
  }

  predicate Sealed(s: State, row: Option<Row>) {
    row.Some? ==> row.value.seal < s.seals
  }

  predicate Receipts(s: State) {
    && (forall k :: 0 <= k <= |s.history.writes| ==> Sealed(s, RowAt(s.history, k)))
    && (forall c :: c in s.receipts ==> c < s.seals)
    && (forall id :: id in s.requests ==> ReceiptOk(s.receipts, s.requests[id]))
    && (forall i, j :: i in s.requests && j in s.requests && i != j && Awaiting(s.requests[i]) && Awaiting(s.requests[j]) ==>
          s.requests[i].a.commit != s.requests[j].a.commit)
  }

  /** Receipts other than the request's own are kept, and new ones carry a new number. */
  predicate ReceiptsMoved(s: State, next: State, id: nat)
    requires id in s.requests
  {
    && (forall c :: c in s.receipts && !(Awaiting(s.requests[id]) && s.requests[id].a.commit == c) ==>
          c in next.receipts && next.receipts[c] == s.receipts[c])
    && (forall c :: c in next.receipts ==> c < next.seals)
  }

  lemma StepKeepsReceipts(s: State, next: State, id: nat, r: Request)
    requires Receipts(s) && id in s.requests && next.requests == s.requests[id := r] && next.seals >= s.seals
    requires ReceiptsMoved(s, next, id) && ReceiptOk(next.receipts, r)
    requires Awaiting(r) ==> (Awaiting(s.requests[id]) && r.a.commit == s.requests[id].a.commit) || r.a.commit == s.seals
    requires next.history == s.history || (OneWrite(s, next, id) && Sealed(next, next.history.writes[|s.history.writes|].after))
    ensures Receipts(next)
  {
    forall other | other in next.requests ensures ReceiptOk(next.receipts, next.requests[other]) {
      assert other != id ==> ReceiptOk(s.receipts, s.requests[other]);
    }
    forall i, j | i in next.requests && j in next.requests && i != j && Awaiting(next.requests[i]) && Awaiting(next.requests[j])
      ensures next.requests[i].a.commit != next.requests[j].a.commit
    {
      assert i != id ==> ReceiptOk(s.receipts, s.requests[i]);
      assert j != id ==> ReceiptOk(s.receipts, s.requests[j]);
    }
    forall k | 0 <= k <= |next.history.writes| ensures Sealed(next, RowAt(next.history, k)) {
      if k <= |s.history.writes| {
        assert Sealed(s, RowAt(s.history, k)) && RowAt(next.history, k) == RowAt(s.history, k);
      }
    }
  }

  /** Steps that leave receipts and history alone. */
  lemma PlainStepKeepsReceipts(s: State, next: State, id: nat, r: Request)
    requires Receipts(s) && id in s.requests && next.requests == s.requests[id := r] && next.seals >= s.seals
    requires next.receipts == s.receipts && next.history == s.history
    requires Awaiting(r) ==> Awaiting(s.requests[id]) && r.a.commit == s.requests[id].a.commit
                             && r.a.draft == s.requests[id].a.draft && r.a.revision == s.requests[id].a.revision
    ensures Receipts(next)
  {
    assert ReceiptOk(s.receipts, s.requests[id]);
    StepKeepsReceipts(s, next, id, r);
  }

  /** The receipt is inserted exactly when the settings write takes effect. */
  lemma ReceiptExactlyWhenWritten(s: State, id: nat, a: Apply, input: Input)
    requires Receipts(s) && s.active == RowAt(s.history, |s.history.writes|)
    ensures var next := CommitBatch(s, id, a, input);
            && s.seals !in s.receipts
            && (s.seals in next.receipts <==> CommitTakesEffect(s.active, a.current))
            && (CommitTakesEffect(s.active, a.current) <==> |next.history.writes| == |s.history.writes| + 1)
            && (s.seals in next.receipts ==> next.active == Some(next.receipts[s.seals].row) && next.receipts[s.seals].draft == a.draft)
            && (s.seals !in next.receipts ==> next.active == s.active && next.history == s.history && next.receipts == s.receipts)
  {
    assert Sealed(s, RowAt(s.history, |s.history.writes|));
  }

  lemma CommitReceipts(s: State, id: nat, a: Apply, input: Input)
    requires Receipts(s) && s.active == RowAt(s.history, |s.history.writes|)
    requires id in s.requests && s.requests[id] == ApplyRequest(a) && a.phase.WriteBatch?
    ensures Receipts(CommitBatch(s, id, a, input))
  {
    var next := CommitBatch(s, id, a, input);
    ReceiptExactlyWhenWritten(s, id, a, input);
    if CommitTakesEffect(s.active, a.current) {
      StepKeepsReceipts(s, next, id, next.requests[id]);
    } else {
      PlainStepKeepsReceipts(s, next, id, next.requests[id]);
    }
  }

  lemma ClaimedReceipts(s: State, id: nat, a: Apply, input: Input)
    requires Receipts(s) && s.active == RowAt(s.history, |s.history.writes|)
    requires id in s.requests && s.requests[id] == ApplyRequest(a) && InClaim(a.phase)
    ensures Receipts(ClaimedStep(s, id, a, input))
  {
    if a.phase.WriteBatch? && !input.fails {
      CommitReceipts(s, id, a, input);
    } else {
      var next := ClaimedStep(s, id, a, input);
      PlainStepKeepsReceipts(s, next, id, next.requests[id]);
    }
  }

  lemma AttachReceipts(s: State, id: nat, a: Apply, overrides: set<F.Field>)
    requires Receipts(s) && s.active == RowAt(s.history, |s.history.writes|)
    requires id in s.requests && s.requests[id] == ApplyRequest(a) && a.phase.Attach?
    ensures Receipts(AttachBatch(s, id, a, overrides))
  {
    var next := AttachBatch(s, id, a, overrides);
    assert ReceiptOk(s.receipts, s.requests[id]);
    assert Sealed(s, RowAt(s.history, |s.history.writes|));
    StepKeepsReceipts(s, next, id, next.requests[id]);
  }

  lemma ConsumeReceipts(s: State, id: nat, a: Apply)
    requires Receipts(s) && id in s.requests && s.requests[id] == ApplyRequest(a) && a.phase.Consume?
    ensures Receipts(ConsumeReceipt(s, id, a))
    ensures ConsumeReceipt(s, id, a).requests[id].a.phase == Health
  {
    assert ReceiptOk(s.receipts, s.requests[id]);
    var next := ConsumeReceipt(s, id, a);
    StepKeepsReceipts(s, next, id, next.requests[id]);
  }

  /** A step that writes the row but neither makes nor takes a receipt. */
  lemma WriteKeepsReceipts(s: State, next: State, id: nat, r: Request)
    requires Receipts(s) && id in s.requests && next.requests == s.requests[id := r] && next.seals >= s.seals
    requires next.receipts == s.receipts && !Awaiting(r)
    requires OneWrite(s, next, id) && Sealed(next, next.history.writes[|s.history.writes|].after)
    ensures Receipts(next)
  {
    StepKeepsReceipts(s, next, id, r);
  }

  lemma RollbackReceipts(s: State, id: nat, a: Apply)
    requires Receipts(s) && id in s.requests && s.requests[id] == ApplyRequest(a) && a.phase.Rollback?
    requires Sealed(s, a.before)
    ensures Receipts(RollbackCas(s, id, a))
  {
    var next := RollbackCas(s, id, a);
    if Holds(s.active, a.revision) {
      WriteKeepsReceipts(s, next, id, next.requests[id]);
    } else {
      PlainStepKeepsReceipts(s, next, id, next.requests[id]);
    }
  }

  lemma CaptureIsSealed(s: State, id: nat)
    requires Receipts(s) && Sound(s) && id in s.requests
    ensures s.requests[id].ApplyRequest? && !s.requests[id].a.phase.Capture? ==> Sealed(s, s.requests[id].a.before)
    ensures s.requests[id].PutRestore? ==> Sealed(s, s.requests[id].before)
    ensures Sealed(s, s.active)
  {
    var r := s.requests[id];
    assert RequestSound(s.history, s.drafts, id, r);
    if r.ApplyRequest? && !r.a.phase.Capture? {
      assert Sealed(s, RowAt(s.history, r.a.beforeAt));
    } else if r.PutRestore? {
      assert Sealed(s, RowAt(s.history, r.beforeAt));
    }
    assert Sealed(s, RowAt(s.history, |s.history.writes|));
  }

  lemma QuietReceipts(s: State, id: nat, a: Apply, input: Input)
    requires Receipts(s) && id in s.requests && s.requests[id] == ApplyRequest(a) && AfterCommit(a.phase)
    requires input.fails || (!a.phase.Attach? && !a.phase.Consume? && !a.phase.Rollback?)
    ensures Receipts(AppliedStep(s, id, a, input))
  {
    var next := AppliedStep(s, id, a, input);
    PlainStepKeepsReceipts(s, next, id, next.requests[id]);
  }

  lemma AppliedReceipts(s: State, id: nat, a: Apply, input: Input)
    requires Receipts(s) && id in s.requests && s.requests[id] == ApplyRequest(a) && AfterCommit(a.phase)
    requires s.active == RowAt(s.history, |s.history.writes|) && Sealed(s, a.before)
    ensures Receipts(AppliedStep(s, id, a, input))
  {
    if input.fails || (!a.phase.Attach? && !a.phase.Consume? && !a.phase.Rollback?) {
      QuietReceipts(s, id, a, input);
    } else if a.phase.Attach? {
      AttachReceipts(s, id, a, input.overrides);
    } else if a.phase.Consume? {
      ConsumeReceipts(s, id, a);
    } else {
      RollbackReceipts(s, id, a);
    }
  }

  lemma OpeningReceipts(s: State, id: nat, a: Apply)
    requires Receipts(s) && id in s.requests && s.requests[id] == ApplyRequest(a) && !InClaim(a.phase) && !AfterCommit(a.phase)
    ensures Receipts(OpeningStep(s, id, a))
  {
    var next := OpeningStep(s, id, a);
    if next != s {
      PlainStepKeepsReceipts(s, next, id, next.requests[id]);
    }
  }

  lemma PutReceipts(s: State, id: nat, r: Request, input: Input)
    requires Receipts(s) && id in s.requests && s.requests[id] == r && IsPut(r)
    requires Sealed(s, s.active) && (r.PutRestore? ==> Sealed(s, r.before))
    ensures Receipts(PutStep(s, id, r, input))
  {
    var next := PutStep(s, id, r, input);
    if next.history != s.history {
      WriteKeepsReceipts(s, next, id, next.requests[id]);
    } else if next != s {
      PlainStepKeepsReceipts(s, next, id, next.requests[id]);
    }
  }

  lemma OtherReceipts(s: State, id: nat, r: Request, input: Input)
    requires Receipts(s) && id in s.requests && s.requests[id] == r && !r.ApplyRequest? && !IsPut(r)
    ensures Receipts(RequestStep(s, id, r, input))
  {
    if OnDrafts(r) {
      DraftReceipts(s, id, r, input);
    } else {
      SyncReceipts(s, id, r, input);
    }
  }

  lemma DraftReceipts(s: State, id: nat, r: Request, input: Input)
    requires Receipts(s) && id in s.requests && s.requests[id] == r && OnDrafts(r)
    ensures Receipts(DraftStep(s, id, r, input))
  {
    var next := DraftStep(s, id, r, input);
    if next != s {
      PlainStepKeepsReceipts(s, next, id, next.requests[id]);
    }
  }

  lemma SyncReceipts(s: State, id: nat, r: Request, input: Input)
    requires Receipts(s) && id in s.requests && s.requests[id] == r && (r.SyncStart? || r.SyncPlan?)
    ensures Receipts(SyncStep(s, id, r, input))
  {
    var next := SyncStep(s, id, r, input);
    StepKeepsReceipts(s, next, id, next.requests[id]);
  }

  lemma EventReceipts(s: State, e: Event)
    requires Receipts(s) && !e.Run?
    ensures Receipts(Step(s, e))
  {
    match e {
      case StartApply(id, d) => BeginReceipts(s, id, ApplyRequest(Fresh(d)));
      case StartSync(id) => BeginReceipts(s, id, SyncStart);
      case StartPut(id) => BeginReceipts(s, id, PutStart);
      case StartValidate(id, d) => BeginReceipts(s, id, ValidateStart(d));
      case StartCreate(id) => BeginReceipts(s, id, CreateStart);
      case StartRefresh(id, d) => BeginReceipts(s, id, RefreshStart(d));
      case Tick(_) => SameReceipts(s, Step(s, e));
      case Cancel(_) => SameReceipts(s, Step(s, e));
      case Promote(_) => SameReceipts(s, Step(s, e));
    }
  }

  lemma SameReceipts(s: State, next: State)
    requires Receipts(s)
    requires next.requests == s.requests && next.receipts == s.receipts && next.history == s.history && next.seals == s.seals
    ensures Receipts(next)
  {
    forall id | id in next.requests ensures ReceiptOk(next.receipts, next.requests[id]) {
      assert ReceiptOk(s.receipts, s.requests[id]);
    }
    forall k | 0 <= k <= |next.history.writes| ensures Sealed(next, RowAt(next.history, k)) {
      assert Sealed(s, RowAt(s.history, k));
    }
  }

  /** A request that has just begun awaits no receipt. */
  lemma BeginReceipts(s: State, id: nat, r: Request)
    requires Receipts(s) && !Awaiting(r)
    ensures Receipts(Begin(s, id, r))
  {
    var next := Begin(s, id, r);
    forall other | other in next.requests ensures ReceiptOk(next.receipts, next.requests[other]) {
      assert other in s.requests ==> ReceiptOk(s.receipts, s.requests[other]);
    }
    forall k | 0 <= k <= |next.history.writes| ensures Sealed(next, RowAt(next.history, k)) {
      assert Sealed(s, RowAt(s.history, k));
    }
  }

  lemma StepReceipts(s: State, e: Event)
    requires Receipts(s) && Sound(s)
    ensures Receipts(Step(s, e))
  {
    if !e.Run? {
      EventReceipts(s, e);
    } else if e.id in s.requests {
      CaptureIsSealed(s, e.id);
      RunReceipts(s, e.id, e.input);
    }
  }

  lemma RunReceipts(s: State, id: nat, input: Input)
    requires Receipts(s) && id in s.requests && s.active == RowAt(s.history, |s.history.writes|) && Sealed(s, s.active)
    requires s.requests[id].ApplyRequest? && !s.requests[id].a.phase.Capture? ==> Sealed(s, s.requests[id].a.before)
    requires s.requests[id].PutRestore? ==> Sealed(s, s.requests[id].before)
    ensures Receipts(RequestStep(s, id, s.requests[id], input))
  {
    var r := s.requests[id];
    if r.ApplyRequest? {
      if InClaim(r.a.phase) {
        ClaimedReceipts(s, id, r.a, input);
      } else if AfterCommit(r.a.phase) {
        AppliedReceipts(s, id, r.a, input);
      } else {
        OpeningReceipts(s, id, r.a);
      }
    } else if IsPut(r) {
      PutReceipts(s, id, r, input);
    } else {
      OtherReceipts(s, id, r, input);
    }
  }

  lemma {:induction false} AlwaysReceipts(s: State, events: seq<Event>)
    requires Initial(s)
    ensures Receipts(Execution(s, events))
    decreases |events|
  {
    if events != [] {
      AlwaysReceipts(s, events[..|events| - 1]);
      AlwaysSound(s, events[..|events| - 1]);
      StepReceipts(Execution(s, events[..|events| - 1]), events[|events| - 1]);
    }
  }

  // ----- outcomes

  /** After its commit a request writes nothing but override lists, on its own revision, and its own rollback. */
  predicate OnlyOwn(h: History, id: nat, committedAt: nat, revision: int) {
    forall k :: committedAt < k < |h.writes| ==> OwnWrite(h, k, id, revision)
  }

  predicate OwnWrite(h: History, k: nat, id: nat, revision: int)
    requires k < |h.writes|
  {
    h.writes[k].owner == id ==> (h.writes[k].kind.AttachWrite? && Holds(RowAt(h, k), revision)) || h.writes[k].kind.RollbackWrite?
  }

  lemma OnlyOwnGrows(later: History, h: History, id: nat, committedAt: nat, revision: int)
    requires OnlyOwn(h, id, committedAt, revision) && Extends(later, h)
    requires forall k :: |h.writes| <= k < |later.writes| ==> OwnWrite(later, k, id, revision)
    ensures OnlyOwn(later, id, committedAt, revision)
  {
    forall k | committedAt < k < |later.writes| ensures OwnWrite(later, k, id, revision) {
      if k < |h.writes| {
        assert OwnWrite(h, k, id, revision) && later.writes[k] == h.writes[k] && RowAt(later, k) == RowAt(h, k);
      }
    }
  }

  lemma RecordOwn(h: History, w: Write, id: nat, committedAt: nat, revision: int)
    requires OnlyOwn(h, id, committedAt, revision)
    requires (w.kind.AttachWrite? && Holds(RowAt(h, |h.writes|), revision)) || w.kind.RollbackWrite?
    ensures OnlyOwn(Record(h, w), id, committedAt, revision)
  {
    var later := Record(h, w);
    assert RowAt(later, |h.writes|) == RowAt(h, |h.writes|) && later.writes[|h.writes|] == w;
    OnlyOwnGrows(later, h, id, committedAt, revision);
  }

  /** Somebody else has replaced or removed the row since the commit. */
  predicate Overtaken(h: History, id: nat, a: Apply) {
    exists k :: a.committedAt < k < |h.writes| && h.writes[k].owner != id && !h.writes[k].kind.AttachWrite?
  }

  predicate Conflicted(phase: Phase) {
    phase.MarkRollbackConflict? || phase == Ended(HitRollbackConflict)
  }

  predicate OutcomeOk(h: History, r: Request, id: nat) {
    r.ApplyRequest? ==>
      && (HasCommitted(r.a.phase) ==> OnlyOwn(h, id, r.a.committedAt, r.a.revision))
      && (Conflicted(r.a.phase) ==> Overtaken(h, id, r.a))
  }

  lemma OutcomeGrows(later: History, h: History, r: Request, id: nat)
    requires OutcomeOk(h, r, id) && Extends(later, h)
    requires forall k :: |h.writes| <= k < |later.writes| ==> later.writes[k].owner != id
    ensures OutcomeOk(later, r, id)
  {
    if r.ApplyRequest? && HasCommitted(r.a.phase) {
      OnlyOwnGrows(later, h, id, r.a.committedAt, r.a.revision);
    }
    if r.ApplyRequest? && Overtaken(h, id, r.a) {
      var k :| r.a.committedAt < k < |h.writes| && h.writes[k].owner != id && !h.writes[k].kind.AttachWrite?;
      assert later.writes[k] == h.writes[k];
    }
  }

  lemma OthersOutcome(s: State, e: Event, id: nat)
    requires id in s.requests && OutcomeOk(s.history, s.requests[id], id) && (e.Run? ==> e.id != id)
    ensures id in Step(s, e).requests && OutcomeOk(Step(s, e).history, Step(s, e).requests[id], id)
  {
    StrangersStay(s, e, id);
    StrangersWrite(s, e, id);
    OutcomeGrows(Step(s, e).history, s.history, s.requests[id], id);
  }

  lemma StrangersWrite(s: State, e: Event, id: nat)
    requires e.Run? ==> e.id != id
    ensures var later := Step(s, e).history;
            Extends(later, s.history) && forall k :: |s.history.writes| <= k < |later.writes| ==> later.writes[k].owner != id
  {
    if e.Run? && e.id in s.requests {
      RunnersWrite(s, e.id, e.input);
    } else {
      EventsWriteNothing(s, e);
    }
  }

  lemma EventsWriteNothing(s: State, e: Event)
    requires e.Run? ==> e.id !in s.requests
    ensures Step(s, e).history == s.history
  {
  }

  lemma RunnersWrite(s: State, id: nat, input: Input)
    requires id in s.requests
    ensures OwnWrites(RequestStep(s, id, s.requests[id], input).history, s.history, id)
  {
    var r := s.requests[id];
    if !r.ApplyRequest? {
      OthersWrite(s, id, r, input);
    } else if InClaim(r.a.phase) {
      ClaimedWrites(s, id, r.a, input);
    } else if AfterCommit(r.a.phase) {
      AppliedWrites(s, id, r.a, input);
    }
  }

  /** A rollback that finds another revision in place has been overtaken. */
  lemma LostRaceMeansOvertaken(h: History, id: nat, a: Apply)
    requires HistoryOk(h) && CommittedAt(h, id, a) && NeverRolledBack(h, id) && OnlyOwn(h, id, a.committedAt, a.revision)
    requires !Holds(RowAt(h, |h.writes|), a.revision)
    ensures Overtaken(h, id, a)
  {
    if OnlyAttachments(h, a.committedAt + 1, |h.writes|) {
      AttachmentsKeepRow(h, a.committedAt + 1, |h.writes|);
    }
    var k :| a.committedAt + 1 <= k < |h.writes| && !h.writes[k].kind.AttachWrite?;
    assert OwnWrite(h, k, id, a.revision) && h.writes[k].owner != id;
  }

  lemma CommitOutcome(s: State, id: nat, a: Apply, input: Input)
    requires id in s.requests && s.requests[id] == ApplyRequest(a) && a.phase.WriteBatch?
    ensures var next := CommitBatch(s, id, a, input);
            id in next.requests && OutcomeOk(next.history, next.requests[id], id)
  {
    if CommitTakesEffect(s.active, a.current) {
      assert CommitBatch(s, id, a, input).requests[id].a.committedAt == |s.history.writes|;
    }
  }

  lemma ClaimedOutcome(s: State, id: nat, a: Apply, input: Input)
    requires id in s.requests && s.requests[id] == ApplyRequest(a) && InClaim(a.phase) && OutcomeOk(s.history, s.requests[id], id)
    ensures var next := ClaimedStep(s, id, a, input);
            id in next.requests && OutcomeOk(next.history, next.requests[id], id)
  {
    if a.phase.WriteBatch? && !input.fails {
      CommitOutcome(s, id, a, input);
    } else {
      ClaimedPhase(s, id, a, input);
    }
  }

  lemma ClaimedPhase(s: State, id: nat, a: Apply, input: Input)
    requires InClaim(a.phase) && (a.phase.WriteBatch? ==> input.fails)
    ensures var next := ClaimedStep(s, id, a, input);
            && next.history == s.history && id in next.requests && next.requests[id].ApplyRequest?
            && var b := next.requests[id].a;
               && b.committedAt == a.committedAt && b.revision == (if HasCommitted(b.phase) then a.revision else b.revision)
               && (HasCommitted(b.phase) ==> HasCommitted(a.phase)) && !Conflicted(b.phase)
  {
    if input.fails && a.phase != CatchError {
      assert ClaimedStep(s, id, a, input) == Catch(s, id, a);
    } else if a.phase.MarkApplied? {
      assert ClaimedStep(s, id, a, input) == Goto(SetStatus(s, a.draft, Applied), id, ApplyRequest(a.(phase := Attach)));
    }
  }

  lemma AttachOutcome(s: State, id: nat, a: Apply, overrides: set<F.Field>)
    requires id in s.requests && s.requests[id] == ApplyRequest(a) && a.phase.Attach?
    requires OnlyOwn(s.history, id, a.committedAt, a.revision) && s.active == RowAt(s.history, |s.history.writes|)
    ensures var next := AttachBatch(s, id, a, overrides);
            id in next.requests && OutcomeOk(next.history, next.requests[id], id)
  {
    if CanAttach(s, a) {
      RecordOwn(s.history, AttachBatch(s, id, a, overrides).history.writes[|s.history.writes|], id, a.committedAt, a.revision);
    }
  }

  lemma RollbackOutcome(s: State, id: nat, a: Apply)
    requires Sound(s) && id in s.requests && s.requests[id] == ApplyRequest(a) && a.phase.Rollback?
    requires OnlyOwn(s.history, id, a.committedAt, a.revision)
    ensures var next := RollbackCas(s, id, a);
            id in next.requests && OutcomeOk(next.history, next.requests[id], id)
  {
    if Holds(s.active, a.revision) {
      var w := Write(id, RollbackWrite(a.committedAt), a.beforeAt, PutBack(a.before, a.revision, s.now));
      RecordOwn(s.history, w, id, a.committedAt, a.revision);
    } else {
      RequestStands(s, id);
      LostRaceMeansOvertaken(s.history, id, a);
    }
  }

  lemma QuietOutcome(s: State, id: nat, a: Apply, input: Input)
    requires id in s.requests && s.requests[id] == ApplyRequest(a) && AfterCommit(a.phase) && OutcomeOk(s.history, s.requests[id], id)
    requires input.fails || (!a.phase.Attach? && !a.phase.Consume? && !a.phase.Rollback?)
    ensures var next := AppliedStep(s, id, a, input);
            id in next.requests && OutcomeOk(next.history, next.requests[id], id)
  {
  }

  lemma ConsumeOutcome(s: State, id: nat, a: Apply)
    requires Receipts(s) && id in s.requests && s.requests[id] == ApplyRequest(a) && a.phase.Consume? && OutcomeOk(s.history, s.requests[id], id)
    ensures var next := ConsumeReceipt(s, id, a);
            id in next.requests && OutcomeOk(next.history, next.requests[id], id)
  {
    ConsumeReceipts(s, id, a);
  }

  lemma AppliedOutcome(s: State, id: nat, a: Apply, input: Input)
    requires Sound(s) && Receipts(s)
    requires id in s.requests && s.requests[id] == ApplyRequest(a) && AfterCommit(a.phase) && OutcomeOk(s.history, s.requests[id], id)
    ensures var next := AppliedStep(s, id, a, input);
            id in next.requests && OutcomeOk(next.history, next.requests[id], id)
  {
    if input.fails || (!a.phase.Attach? && !a.phase.Consume? && !a.phase.Rollback?) {
      QuietOutcome(s, id, a, input);
    } else if a.phase.Attach? {
      assert AppliedStep(s, id, a, input) == AttachBatch(s, id, a, input.overrides);
      AttachOutcome(s, id, a, input.overrides);
    } else if a.phase.Consume? {
      ConsumeOutcome(s, id, a);
    } else {
      assert AppliedStep(s, id, a, input) == RollbackCas(s, id, a);
      RollbackOutcome(s, id, a);
    }
  }

  lemma OpeningOutcome(s: State, id: nat, a: Apply)
    requires id in s.requests && s.requests[id] == ApplyRequest(a) && !InClaim(a.phase) && !AfterCommit(a.phase)
    requires OutcomeOk(s.history, s.requests[id], id)
    ensures var next := OpeningStep(s, id, a);
            id in next.requests && OutcomeOk(next.history, next.requests[id], id)
  {
    OpeningPhase(s, id, a);
  }

  lemma OpeningPhase(s: State, id: nat, a: Apply)
    requires id in s.requests && !InClaim(a.phase) && !AfterCommit(a.phase)
    ensures var next := OpeningStep(s, id, a);
            || next == s
            || (id in next.requests && next.requests[id].ApplyRequest?
                && !HasCommitted(next.requests[id].a.phase) && !Conflicted(next.requests[id].a.phase))
  {
  }

  lemma RunnerOutcome(s: State, id: nat, input: Input)
    requires Sound(s) && Receipts(s) && id in s.requests && OutcomeOk(s.history, s.requests[id], id)
    ensures var next := RequestStep(s, id, s.requests[id], input);
            id in next.requests && OutcomeOk(next.history, next.requests[id], id)
  {
    var r := s.requests[id];
    if !r.ApplyRequest? {
      OthersClaimNothing(s, id, input);
    } else if InClaim(r.a.phase) {
      ClaimedOutcome(s, id, r.a, input);
    } else if AfterCommit(r.a.phase) {
      AppliedOutcome(s, id, r.a, input);
    } else {
      OpeningOutcome(s, id, r.a);
    }
  }

  lemma NewcomerOutcome(s: State, e: Event, id: nat)
    requires id in Step(s, e).requests && id !in s.requests && !e.Run?
    ensures OutcomeOk(Step(s, e).history, Step(s, e).requests[id], id)
  {
  }

  lemma NoNewcomerRuns(s: State, id: nat, input: Input, other: nat)
    requires id in s.requests && other !in s.requests
    ensures other !in RequestStep(s, id, s.requests[id], input).requests
  {
    if s.requests[id].ApplyRequest? {
      ApplyMovesItself(s, id, s.requests[id].a, input);
    } else {
      OthersMoveThemselves(s, id, input);
    }
  }

  lemma StepOutcome(s: State, e: Event, id: nat)
    requires Sound(s) && Receipts(s) && id in Step(s, e).requests
    requires id in s.requests ==> OutcomeOk(s.history, s.requests[id], id)
    ensures OutcomeOk(Step(s, e).history, Step(s, e).requests[id], id)
  {
    if id in s.requests {
      if e.Run? && e.id == id {
        RunnerOutcome(s, id, e.input);
      } else {
        OthersOutcome(s, e, id);
      }
    } else if e.Run? {
      if e.id in s.requests {
        NoNewcomerRuns(s, e.id, e.input, id);
      }
    } else {
      NewcomerOutcome(s, e, id);
    }
  }

  lemma {:induction false} AlwaysOutcome(s: State, events: seq<Event>, id: nat)
    requires Initial(s) && id in Execution(s, events).requests
    ensures OutcomeOk(Execution(s, events).history, Execution(s, events).requests[id], id)
    decreases |events|
  {
    if events != [] {
      var earlier := events[..|events| - 1];
      AlwaysSound(s, earlier);
      AlwaysReceipts(s, earlier);
      if id in Execution(s, earlier).requests {
        AlwaysOutcome(s, earlier, id);
      }
      StepOutcome(Execution(s, earlier), events[|events| - 1], id);
    }
  }

  // ----- the two ends of a failed health check

  /**
   An apply that ended rolled back has its commit and its rollback in the history, and the rollback put
   back the captured row under a larger revision, or no row where none was captured. With no removal
   since its draft read its base that undoes the commit: only override lists changed in between, and
   the captured row is the one the commit had replaced, up to its override list.
   */
  lemma RolledBackOutcome(s: State, events: seq<Event>, id: nat, a: Apply)
    requires Initial(s) && id in Execution(s, events).requests && Execution(s, events).requests[id] == ApplyRequest(a)
    requires a.phase == Ended(WasRolledBack)
    ensures var h := Execution(s, events).history;
            && a.beforeAt <= a.committedAt < a.rolledBackAt < |h.writes|
            && a.before == RowAt(h, a.beforeAt)
            && IsCommitOf(h.writes[a.committedAt], a.draft) && h.writes[a.committedAt].owner == id
            && h.writes[a.rolledBackAt].kind.RollbackWrite? && h.writes[a.rolledBackAt].owner == id
            && Holds(RowAt(h, a.rolledBackAt), a.revision)
            && PutsBack(a.before, RowAt(h, a.rolledBackAt), RowAt(h, a.rolledBackAt + 1))
            && (NoRemoval(h, StoryStart(h, a.rolledBackAt), a.rolledBackAt) ==>
                  && OnlyAttachments(h, a.committedAt + 1, a.rolledBackAt)
                  && SameRow(a.before, RowAt(h, a.committedAt)))
  {
    AlwaysSound(s, events);
    RequestStands(Execution(s, events), id);
    var h := Execution(s, events).history;
    assert WriteOk(h, a.rolledBackAt);
    if NoRemoval(h, StoryStart(h, a.rolledBackAt), a.rolledBackAt) {
      RollbackRestores(h, a.rolledBackAt);
    }
  }

  /**
   Removals or not, with fresh insertion stamps the captured row is the one the commit had replaced
   exactly when it was captured under the draft's base revision, which no step of an apply compares.
   */
  lemma RolledBackExactly(s: State, events: seq<Event>, id: nat, a: Apply)
    requires Initial(s) && id in Execution(s, events).requests && Execution(s, events).requests[id] == ApplyRequest(a)
    requires a.phase == Ended(WasRolledBack) && FreshInsertions(Execution(s, events).history)
    ensures a.draft in Execution(s, events).drafts
    ensures var h := Execution(s, events).history;
            && a.committedAt < a.rolledBackAt < |h.writes|
            && OnlyAttachments(h, a.committedAt + 1, a.rolledBackAt)
            && (SameRow(a.before, RowAt(h, a.committedAt)) <==> RevisionOf(a.before) == Execution(s, events).drafts[a.draft].base)
  {
    AlwaysSound(s, events);
    RequestStands(Execution(s, events), id);
    assert Owned(Execution(s, events), Execution(s, events).history.writes[a.committedAt]);
    RollbackRestoresExactly(Execution(s, events).history, a.rolledBackAt);
  }

  /**
   The same for the whole row: the list is back as well exactly when, besides, the captured list reads
   like the one of the replaced row.
   */
  lemma RolledBackWholeExactly(s: State, events: seq<Event>, id: nat, a: Apply)
    requires Initial(s) && id in Execution(s, events).requests && Execution(s, events).requests[id] == ApplyRequest(a)
    requires a.phase == Ended(WasRolledBack) && FreshInsertions(Execution(s, events).history)
    ensures a.draft in Execution(s, events).drafts && a.committedAt < |Execution(s, events).history.writes|
    ensures var replaced := RowAt(Execution(s, events).history, a.committedAt);
            SameWholeRow(a.before, replaced) <==>
              RevisionOf(a.before) == Execution(s, events).drafts[a.draft].base && ListOf(a.before) == ListOf(replaced)
  {
    RolledBackExactly(s, events, id, a);
    WholeRowIsRowAndList(a.before, RowAt(Execution(s, events).history, a.committedAt));
  }

  /**
   And only an attachment in between can make the lists differ: without one, and without a removal since
   the draft's base was read, the captured row is the replaced one as it stands.
   */
  lemma RolledBackWithoutAttachment(s: State, events: seq<Event>, id: nat, a: Apply)
    requires Initial(s) && id in Execution(s, events).requests && Execution(s, events).requests[id] == ApplyRequest(a)
    requires a.phase == Ended(WasRolledBack)
    ensures a.draft in Execution(s, events).drafts
    ensures var h, d := Execution(s, events).history, Execution(s, events).drafts[a.draft];
            && d.baseAt <= a.beforeAt <= a.committedAt < |h.writes|
            && (NoAttachment(h, a.beforeAt, a.committedAt)
                && (NoRemoval(h, d.baseAt, a.committedAt) || (FreshInsertions(h) && RevisionOf(a.before) == d.base)) ==>
                  a.before == RowAt(h, a.committedAt))
  {
    AlwaysSound(s, events);
    RequestStands(Execution(s, events), id);
    var h, d := Execution(s, events).history, Execution(s, events).drafts[a.draft];
    assert Owned(Execution(s, events), h.writes[a.committedAt]) && WriteOk(h, a.committedAt) && DraftSound(h, d);
    if NoAttachment(h, a.beforeAt, a.committedAt) {
      if NoRemoval(h, d.baseAt, a.committedAt) {
        UnattachedIsSame(h, d.baseAt, a.beforeAt, a.committedAt);
      } else if FreshInsertions(h) && RevisionOf(a.before) == d.base {
        UnattachedIsSameAlways(h, a.beforeAt, a.committedAt);
      }
    }
  }

  /**
   An apply that ended in a rollback conflict committed, then somebody else replaced or removed the row,
   and it has written nothing since its commit but, at most, an override list on the revision it had
   committed; with fresh insertion stamps that came before anybody else's write.
   */
  lemma RollbackConflictOutcome(s: State, events: seq<Event>, id: nat, a: Apply)
    requires Initial(s) && id in Execution(s, events).requests && Execution(s, events).requests[id] == ApplyRequest(a)
    requires a.phase == Ended(HitRollbackConflict)
    ensures var h := Execution(s, events).history;
            && a.committedAt < |h.writes| && IsCommitOf(h.writes[a.committedAt], a.draft) && h.writes[a.committedAt].owner == id
            && Overtaken(h, id, a)
            && (forall k :: a.committedAt < k < |h.writes| && h.writes[k].owner == id ==>
                  && h.writes[k].kind.AttachWrite? && Holds(RowAt(h, k), a.revision)
                  && (FreshInsertions(h) ==> OnlyAttachments(h, a.committedAt + 1, k)))
  {
    AlwaysSound(s, events);
    RequestStands(Execution(s, events), id);
    AlwaysOutcome(s, events, id);
    var h := Execution(s, events).history;
    forall k | a.committedAt < k < |h.writes| && h.writes[k].owner == id
      ensures h.writes[k].kind.AttachWrite? && Holds(RowAt(h, k), a.revision)
      ensures FreshInsertions(h) ==> OnlyAttachments(h, a.committedAt + 1, k)
    {
      OwnAttachment(h, id, a, k);
    }
  }

  lemma OwnAttachment(h: History, id: nat, a: Apply, k: nat)
    requires HistoryOk(h) && CommittedAt(h, id, a) && NeverRolledBack(h, id) && OnlyOwn(h, id, a.committedAt, a.revision)
    requires a.committedAt < k < |h.writes| && h.writes[k].owner == id
    ensures h.writes[k].kind.AttachWrite? && Holds(RowAt(h, k), a.revision)
    ensures FreshInsertions(h) ==> OnlyAttachments(h, a.committedAt + 1, k)
  {
    assert OwnWrite(h, k, id, a.revision);
    if FreshInsertions(h) {
      RevisionIdentifiesRowAlways(h, a.committedAt + 1, k);
    }
  }
}
