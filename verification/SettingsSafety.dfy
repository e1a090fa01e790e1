/**
 What every interleaving of settings requests keeps: the history of the row stays a good one, and
 every request's local variables say true things about it.
 */
module SettingsSafety {
  import opened Prelude
  import F = SettingsFields
  import D = SettingsDrafts
  import opened SettingsProtocol
  import opened SettingsHistory

  // ----- what a request knows about the history

  predicate HasSeen(phase: Phase) {
    phase.Claim? || InClaim(phase) || HasCommitted(phase)
  }

  predicate HasCommitted(phase: Phase) {
    || phase.MarkApplied? || AfterCommit(phase)
    || (phase.Ended? && (phase.outcome == Succeeded || phase.outcome == WasRolledBack || phase.outcome == HitRollbackConflict))
  }

  predicate HasRolledBack(phase: Phase) {
    phase.MarkRolledBack? || phase == Ended(WasRolledBack)
  }

  predicate CommittedAt(h: History, id: nat, a: Apply) {
    && a.beforeAt <= a.committedAt < |h.writes|
    && var w := h.writes[a.committedAt];
       && w.kind.CommitWrite? && w.owner == id && w.kind.draft == a.draft && w.kind.baseAt <= a.beforeAt
       && w.after.Some? && w.after.value.revision == a.revision
  }

  predicate RolledBackAt(h: History, id: nat, a: Apply) {
    && a.committedAt < a.rolledBackAt < |h.writes|
    && var w := h.writes[a.rolledBackAt];
       w.kind == RollbackWrite(a.committedAt) && w.owner == id && w.readAt == a.beforeAt
  }

  predicate NeverRolledBack(h: History, id: nat) {
    forall k :: 0 <= k < |h.writes| && h.writes[k].owner == id ==> !h.writes[k].kind.RollbackWrite?
  }

  predicate ApplySound(h: History, drafts: map<nat, Draft>, id: nat, a: Apply) {
    && a.draft in drafts
    && (!a.phase.Capture? ==> drafts[a.draft].baseAt <= a.beforeAt <= |h.writes| && a.before == RowAt(h, a.beforeAt))
    && (HasSeen(a.phase) ==> a.seen.base == drafts[a.draft].base && a.seen.baseAt == drafts[a.draft].baseAt)
    && (a.phase.WriteBatch? ==>
          && a.beforeAt <= a.currentAt <= |h.writes| && a.current == RowAt(h, a.currentAt)
          && RevisionOf(a.current) == a.seen.base < a.revision)
    && (HasCommitted(a.phase) ==> CommittedAt(h, id, a))
    && (HasRolledBack(a.phase) ==> RolledBackAt(h, id, a))
    && (!HasRolledBack(a.phase) && a.phase != Ended(Errored) ==> NeverRolledBack(h, id))
  }

  predicate PutSound(h: History, id: nat, before: Option<Row>, beforeAt: nat, revision: int, putAt: nat) {
    && beforeAt <= putAt < |h.writes| && before == RowAt(h, beforeAt)
    && var w := h.writes[putAt];
       w.kind.PutWrite? && w.owner == id && w.after.Some? && w.after.value.revision == revision
  }

  predicate RequestSound(h: History, drafts: map<nat, Draft>, id: nat, r: Request) {
    match r
    case ApplyRequest(a) => ApplySound(h, drafts, id, a)
    case SyncPlan(row, readAt, _, revision) => readAt <= |h.writes| && RowAt(h, readAt) == Some(row) && row.revision < revision
    case PutReady(before, beforeAt) => beforeAt <= |h.writes| && before == RowAt(h, beforeAt)
    case PutAttach(before, beforeAt, revision, putAt) => PutSound(h, id, before, beforeAt, revision, putAt)
    case PutRestore(before, beforeAt, revision, putAt) =>
      PutSound(h, id, before, beforeAt, revision, putAt) && !OnlyAttachments(h, putAt + 1, |h.writes|)
    case CreateReady(base, baseAt) => baseAt <= |h.writes| && RevisionOf(RowAt(h, baseAt)) == base
    case RefreshReady(_, status, _) => Open(status)
    case _ => true
  }

  predicate DraftSound(h: History, d: Draft) {
    d.baseAt <= |h.writes| && RevisionOf(RowAt(h, d.baseAt)) == d.base
  }

  /** A commit in the history belongs to a known request and carries its draft's base. */
  predicate Owned(s: State, w: Write) {
    && w.owner in s.requests
    && (w.kind.CommitWrite? ==> w.kind.draft in s.drafts && w.kind.base == s.drafts[w.kind.draft].base)
  }

  ghost predicate Sound(s: State) {
    && HistoryOk(s.history)
    && s.active == RowAt(s.history, |s.history.writes|)
    && (forall k :: 0 <= k < |s.history.writes| ==> Owned(s, s.history.writes[k]))
    && (forall d :: d in s.drafts ==> d < s.seals && DraftSound(s.history, s.drafts[d]))
    && (forall id :: id in s.requests ==> RequestSound(s.history, s.drafts, id, s.requests[id]))
  }

  // ----- how a step may change things

  /** Drafts stay and keep their base. */
  predicate DraftsKept(later: map<nat, Draft>, drafts: map<nat, Draft>) {
    forall d :: d in drafts ==> d in later && later[d].base == drafts[d].base && later[d].baseAt == drafts[d].baseAt
  }

  /** Nothing was written by anyone but `id`. */
  predicate OwnWrites(later: History, h: History, id: nat) {
    Extends(later, h) && forall k :: |h.writes| <= k < |later.writes| ==> later.writes[k].owner == id
  }

  lemma RequestStaysSound(later: History, h: History, laterDrafts: map<nat, Draft>, drafts: map<nat, Draft>, writer: nat, id: nat, r: Request)
    requires OwnWrites(later, h, writer) && DraftsKept(laterDrafts, drafts) && id != writer
    requires RequestSound(h, drafts, id, r)
    ensures RequestSound(later, laterDrafts, id, r)
  {
    if r.ApplyRequest? {
      ApplyStaysSound(later, h, laterDrafts, drafts, writer, id, r.a);
    } else if r.PutRestore? {
      var k :| r.putAt + 1 <= k < |h.writes| && !h.writes[k].kind.AttachWrite?;
      assert later.writes[k] == h.writes[k];
    }
  }

  lemma ApplyStaysSound(later: History, h: History, laterDrafts: map<nat, Draft>, drafts: map<nat, Draft>, writer: nat, id: nat, a: Apply)
    requires OwnWrites(later, h, writer) && DraftsKept(laterDrafts, drafts) && id != writer
    requires ApplySound(h, drafts, id, a)
    ensures ApplySound(later, laterDrafts, id, a)
  {
    if NeverRolledBack(h, id) {
      forall k | 0 <= k < |later.writes| && later.writes[k].owner == id ensures !later.writes[k].kind.RollbackWrite? {
        assert k < |h.writes|;
      }
    }
  }

  /** A step of one request keeps soundness when it leaves a good history and a sound request. */
  lemma StepKeepsSound(s: State, next: State, id: nat, r: Request)
    requires Sound(s) && next.requests == s.requests[id := r]
    requires OwnWrites(next.history, s.history, id) && DraftsKept(next.drafts, s.drafts)
    requires HistoryOk(next.history) && next.active == RowAt(next.history, |next.history.writes|)
    requires forall d :: d in next.drafts ==> d < next.seals && DraftSound(next.history, next.drafts[d])
    requires RequestSound(next.history, next.drafts, id, r)
    requires forall k :: |s.history.writes| <= k < |next.history.writes| ==> Owned(next, next.history.writes[k])
    ensures Sound(next)
  {
    forall k | 0 <= k < |next.history.writes| ensures Owned(next, next.history.writes[k]) {
      if k < |s.history.writes| {
        assert next.history.writes[k] == s.history.writes[k] && Owned(s, s.history.writes[k]);
      }
    }
    forall other | other in next.requests ensures RequestSound(next.history, next.drafts, other, next.requests[other]) {
      if other != id {
        RequestStaysSound(next.history, s.history, next.drafts, s.drafts, id, other, s.requests[other]);
      }
    }
  }

  /** The common case: no write, and no draft but in its status, material or stamp. */
  predicate Quiet(s: State, next: State, id: nat) {
    && id in next.requests && next.requests == s.requests[id := next.requests[id]]
    && next.history == s.history && next.active == s.active && next.seals == s.seals
    && next.drafts.Keys == s.drafts.Keys && DraftsKept(next.drafts, s.drafts)
    && RequestSound(next.history, next.drafts, id, next.requests[id])
  }

  lemma QuietKeepsSound(s: State, next: State, id: nat)
    requires Sound(s) && Quiet(s, next, id)
    ensures Sound(next)
  {
    StepKeepsSound(s, next, id, next.requests[id]);
  }

  /** The other case: one write by the request itself. */
  ghost predicate Writing(s: State, next: State, id: nat, w: Write) {
    && id in next.requests && next.requests == s.requests[id := next.requests[id]] && w.owner == id
    && next.history == Record(s.history, w) && next.active == w.after && next.seals >= s.seals && next.drafts == s.drafts
    && Linked(w.kind, s.active, w.after) && Grounded(s.history, |s.history.writes|, w) && Owned(next, w)
    && RequestSound(next.history, next.drafts, id, next.requests[id])
  }

  lemma DraftStaysSound(later: History, h: History, d: Draft)
    requires Extends(later, h) && DraftSound(h, d)
    ensures DraftSound(later, d)
  {
  }

  lemma WritingKeepsSound(s: State, next: State, id: nat, w: Write)
    requires Sound(s) && Writing(s, next, id, w)
    ensures Sound(next)
  {
    RecordKeeps(s.history, w);
    forall d | d in next.drafts ensures d < next.seals && DraftSound(next.history, next.drafts[d]) {
      DraftStaysSound(next.history, s.history, s.drafts[d]);
    }
    assert next.history.writes[|s.history.writes|] == w;
    StepKeepsSound(s, next, id, next.requests[id]);
  }

  /** What a step may rely on: its own request, and the row as the history has it. */
  predicate Stands(s: State, id: nat, r: Request) {
    && id in s.requests && s.requests[id] == r && RequestSound(s.history, s.drafts, id, r)
    && s.active == RowAt(s.history, |s.history.writes|)
    && (r.ApplyRequest? ==> r.a.draft in s.drafts && DraftSound(s.history, s.drafts[r.a.draft]))
  }

  lemma AttachedIsSame(row: Row, overrides: set<F.Field>)
    ensures SameButOverrides(row, row.(content := D.Attached(row.content, overrides)))
  {
    forall key: F.Name | key != F.OverridesKey
      ensures F.Get(D.Attached(row.content, overrides).config, key) == F.Get(row.content.config, key)
    {
      D.AttachedMeans(row.content, overrides, F.DemoMode, key);
    }
  }

  // ----- the apply request

  /** Moving on is quiet when the new request is sound. */
  lemma GotoIsQuiet(s: State, id: nat, r: Request)
    requires id in s.requests && RequestSound(s.history, s.drafts, id, r)
    ensures Quiet(s, Goto(s, id, r), id)
  {
  }

  /** So is moving on with another status on one draft. */
  lemma MarkIsQuiet(s: State, id: nat, draft: nat, status: Status, r: Request)
    requires id in s.requests && RequestSound(s.history, s.drafts, id, r)
    ensures Quiet(s, Goto(SetStatus(s, draft, status), id, r), id)
  {
    var marked := SetStatus(s, draft, status);
    assert DraftsKept(marked.drafts, s.drafts) && marked.drafts.Keys == s.drafts.Keys;
    SoundUnderStatus(s.history, marked.drafts, s.drafts, id, r);
  }

  lemma SoundUnderStatus(h: History, later: map<nat, Draft>, drafts: map<nat, Draft>, id: nat, r: Request)
    requires DraftsKept(later, drafts) && RequestSound(h, drafts, id, r)
    ensures RequestSound(h, later, id, r)
  {
  }

  lemma ReadDraftQuiet(s: State, id: nat, a: Apply)
    requires Stands(s, id, ApplyRequest(a)) && a.phase.ReadDraft?
    ensures Quiet(s, OpeningStep(s, id, a), id)
  {
    if s.drafts[a.draft].status != Validated {
      GotoIsQuiet(s, id, ApplyRequest(a.(phase := Ended(Refused))));
    } else {
      GotoIsQuiet(s, id, ApplyRequest(a.(phase := Claim, seen := s.drafts[a.draft])));
    }
  }

  lemma ClaimQuiet(s: State, id: nat, a: Apply)
    requires Stands(s, id, ApplyRequest(a)) && a.phase.Claim?
    ensures Quiet(s, OpeningStep(s, id, a), id)
  {
    if s.drafts[a.draft].status != Validated {
      GotoIsQuiet(s, id, ApplyRequest(a.(phase := Ended(Refused))));
    } else {
      MarkIsQuiet(s, id, a.draft, Applying, ApplyRequest(a.(phase := ReadActive)));
    }
  }

  lemma OpeningStepQuiet(s: State, id: nat, a: Apply)
    requires Stands(s, id, ApplyRequest(a)) && !InClaim(a.phase) && !AfterCommit(a.phase)
    ensures Quiet(s, OpeningStep(s, id, a), id)
  {
    if a.phase.Capture? {
      GotoIsQuiet(s, id, ApplyRequest(a.(phase := ReadDraft, before := s.active, beforeAt := |s.history.writes|)));
    } else if a.phase.ReadDraft? {
      ReadDraftQuiet(s, id, a);
    } else if a.phase.Claim? {
      ClaimQuiet(s, id, a);
    } else {
      assert s.requests == s.requests[id := s.requests[id]];
    }
  }

  lemma CommitWrites(s: State, id: nat, a: Apply, input: Input)
    requires Stands(s, id, ApplyRequest(a)) && a.phase.WriteBatch? && CommitTakesEffect(s.active, a.current)
    ensures var row := Row(D.Committed(ContentOf(a.current, input.content), a.seen.material), s.seals, a.revision);
            var kind := CommitWrite(a.draft, a.seen.base, a.seen.baseAt, a.seen.material);
            Writing(s, CommitBatch(s, id, a, input), id, Write(id, kind, a.currentAt, Some(row)))
  {
  }

  /** A commit without effect inserts no receipt either: nobody else holds the row it meant to write. */
  lemma CommitWithoutEffect(s: State, id: nat, a: Apply, input: Input)
    requires Stands(s, id, ApplyRequest(a)) && a.phase.WriteBatch? && !CommitTakesEffect(s.active, a.current)
    ensures var next := CommitBatch(s, id, a, input);
            Quiet(s, next.(seals := s.seals), id) && next.seals == s.seals + 1
  {
  }

  lemma SealsMayGrow(s: State, next: State, seals: nat)
    requires Sound(s) && seals >= s.seals && next == s.(seals := seals)
    ensures Sound(next)
  {
  }

  lemma ReadActiveQuiet(s: State, id: nat, a: Apply, input: Input)
    requires Stands(s, id, ApplyRequest(a)) && a.phase.ReadActive? && !input.fails
    ensures Quiet(s, ClaimedStep(s, id, a, input), id)
  {
    if RevisionOf(s.active) != a.seen.base {
      GotoIsQuiet(s, id, ApplyRequest(a.(phase := MarkConflict)));
    } else {
      GotoIsQuiet(s, id, ApplyRequest(a.(phase := WriteBatch, current := s.active, currentAt := |s.history.writes|,
                                         revision := Max(s.now, a.seen.base + 1))));
    }
  }

  lemma ClaimedStepQuiet(s: State, id: nat, a: Apply, input: Input)
    requires Stands(s, id, ApplyRequest(a)) && InClaim(a.phase) && (a.phase.WriteBatch? ==> input.fails)
    ensures Quiet(s, ClaimedStep(s, id, a, input), id)
  {
    if input.fails && a.phase != CatchError {
      GotoIsQuiet(s, id, ApplyRequest(a.(phase := CatchError)));
    } else if a.phase.ReadActive? {
      ReadActiveQuiet(s, id, a, input);
    } else {
      MarkingQuiet(s, id, a, input);
    }
  }

  lemma MarkingQuiet(s: State, id: nat, a: Apply, input: Input)
    requires Stands(s, id, ApplyRequest(a)) && (a.phase.CatchError? || ((a.phase.MarkApplied? || a.phase.MarkConflict?) && !input.fails))
    ensures Quiet(s, ClaimedStep(s, id, a, input), id)
  {
    var next := ClaimedStep(s, id, a, input);
    if a.phase.MarkApplied? {
      var r := ApplyRequest(a.(phase := Attach));
      assert next == Goto(SetStatus(s, a.draft, Applied), id, r);
      MarkIsQuiet(s, id, a.draft, Applied, r);
    } else if a.phase.MarkConflict? {
      var r := ApplyRequest(a.(phase := Ended(Refused)));
      assert next == Goto(SetStatus(s, a.draft, Conflict), id, r);
      MarkIsQuiet(s, id, a.draft, Conflict, r);
    } else {
      CatchQuiet(s, id, a, input);
    }
  }

  lemma CatchQuiet(s: State, id: nat, a: Apply, input: Input)
    requires Stands(s, id, ApplyRequest(a)) && a.phase.CatchError?
    ensures Quiet(s, ClaimedStep(s, id, a, input), id)
  {
    var next, r := ClaimedStep(s, id, a, input), ApplyRequest(a.(phase := Ended(Errored)));
    if s.drafts[a.draft].status == Applying {
      assert next == Goto(SetStatus(s, a.draft, Validated), id, r);
      MarkIsQuiet(s, id, a.draft, Validated, r);
    } else {
      assert next == Goto(s, id, r);
      GotoIsQuiet(s, id, r);
    }
  }

  lemma ClaimedStepSound(s: State, id: nat, a: Apply, input: Input)
    requires Sound(s) && Stands(s, id, ApplyRequest(a)) && InClaim(a.phase)
    ensures Sound(ClaimedStep(s, id, a, input))
  {
    var next := ClaimedStep(s, id, a, input);
    if !a.phase.WriteBatch? || input.fails {
      ClaimedStepQuiet(s, id, a, input);
      QuietKeepsSound(s, next, id);
    } else if CommitTakesEffect(s.active, a.current) {
      CommitWrites(s, id, a, input);
      WritingKeepsSound(s, next, id, next.history.writes[|s.history.writes|]);
    } else {
      CommitWithoutEffect(s, id, a, input);
      QuietKeepsSound(s, next.(seals := s.seals), id);
      SealsMayGrow(next.(seals := s.seals), next, next.seals);
    }
  }

  predicate CanAttach(s: State, a: Apply) {
    Holds(s.active, a.revision) && a.commit in s.receipts && s.receipts[a.commit].row.revision == a.revision
  }

  lemma AttachWrites(s: State, id: nat, a: Apply, overrides: set<F.Field>)
    requires Stands(s, id, ApplyRequest(a)) && a.phase.Attach? && CanAttach(s, a)
    ensures var next := AttachBatch(s, id, a, overrides);
            |next.history.writes| > |s.history.writes| && Writing(s, next, id, next.history.writes[|s.history.writes|])
  {
    var row := s.active.value.(content := D.Attached(s.active.value.content, overrides));
    var w := Write(id, AttachWrite, |s.history.writes|, Some(row));
    AttachedIsSame(s.active.value, overrides);
    assert AttachBatch(s, id, a, overrides).history == Record(s.history, w);
    AttachedRequestSound(s.history, s.drafts, id, a, w);
  }

  lemma AttachedRequestSound(h: History, drafts: map<nat, Draft>, id: nat, a: Apply, w: Write)
    requires a.phase.Attach? && ApplySound(h, drafts, id, a) && w.kind.AttachWrite?
    ensures ApplySound(Record(h, w), drafts, id, a.(phase := Consume, detached := false))
  {
  }

  lemma RollbackWrites(s: State, id: nat, a: Apply)
    requires Stands(s, id, ApplyRequest(a)) && a.phase.Rollback? && Holds(s.active, a.revision)
    ensures var w := Write(id, RollbackWrite(a.committedAt), a.beforeAt, PutBack(a.before, a.revision, s.now));
            Writing(s, RollbackCas(s, id, a), id, w)
  {
  }

  lemma ConsumeQuiet(s: State, id: nat, a: Apply)
    requires Stands(s, id, ApplyRequest(a)) && a.phase.Consume?
    ensures Quiet(s, ConsumeReceipt(s, id, a), id)
  {
    GotoIsQuiet(s, id, ApplyRequest(a.(phase := Health)));
    GotoIsQuiet(s, id, ApplyRequest(a.(phase := MarkRollbackConflict)));
  }

  lemma FinalMarkQuiet(s: State, id: nat, a: Apply, input: Input)
    requires Stands(s, id, ApplyRequest(a)) && (a.phase.MarkRolledBack? || a.phase.MarkRollbackConflict?) && !input.fails
    ensures Quiet(s, AppliedStep(s, id, a, input), id)
  {
    var next := AppliedStep(s, id, a, input);
    if a.phase.MarkRolledBack? {
      var r := ApplyRequest(a.(phase := Ended(WasRolledBack)));
      assert next == Goto(SetStatus(s, a.draft, RolledBack), id, r);
      MarkIsQuiet(s, id, a.draft, RolledBack, r);
    } else {
      var r := ApplyRequest(a.(phase := Ended(HitRollbackConflict)));
      assert next == Goto(SetStatus(s, a.draft, RollbackConflict), id, r);
      MarkIsQuiet(s, id, a.draft, RollbackConflict, r);
    }
  }

  lemma HealthQuiet(s: State, id: nat, a: Apply, input: Input)
    requires Stands(s, id, ApplyRequest(a)) && !input.fails
    requires a.phase.Health? || (a.phase.Rollback? && !Holds(s.active, a.revision))
    ensures Quiet(s, AppliedStep(s, id, a, input), id)
  {
    var phase := if a.phase.Rollback? then MarkRollbackConflict else if input.ok && !a.detached then Ended(Succeeded) else Rollback;
    assert AppliedStep(s, id, a, input) == Goto(s, id, ApplyRequest(a.(phase := phase)));
    GotoIsQuiet(s, id, ApplyRequest(a.(phase := phase)));
  }

  lemma AppliedStepQuiet(s: State, id: nat, a: Apply, input: Input)
    requires Stands(s, id, ApplyRequest(a)) && AfterCommit(a.phase)
    requires a.phase.Attach? ==> input.fails
    requires a.phase.Rollback? ==> input.fails || !Holds(s.active, a.revision)
    ensures Quiet(s, AppliedStep(s, id, a, input), id)
  {
    if input.fails {
      GotoIsQuiet(s, id, ApplyRequest(a.(phase := Ended(Errored))));
    } else if a.phase.Consume? {
      ConsumeQuiet(s, id, a);
    } else if a.phase.Health? || a.phase.Rollback? {
      HealthQuiet(s, id, a, input);
    } else {
      FinalMarkQuiet(s, id, a, input);
    }
  }

  lemma AttachStepSound(s: State, id: nat, a: Apply, overrides: set<F.Field>)
    requires Sound(s) && Stands(s, id, ApplyRequest(a)) && a.phase.Attach?
    ensures Sound(AttachBatch(s, id, a, overrides))
  {
    if CanAttach(s, a) {
      var next := AttachBatch(s, id, a, overrides);
      AttachWrites(s, id, a, overrides);
      WritingKeepsSound(s, next, id, next.history.writes[|s.history.writes|]);
    } else {
      DetachedQuiet(s, id, a, overrides);
      QuietKeepsSound(s, AttachBatch(s, id, a, overrides), id);
    }
  }

  lemma DetachedQuiet(s: State, id: nat, a: Apply, overrides: set<F.Field>)
    requires Stands(s, id, ApplyRequest(a)) && a.phase.Attach? && !CanAttach(s, a)
    ensures Quiet(s, AttachBatch(s, id, a, overrides), id)
  {
    var r := ApplyRequest(a.(phase := Consume, detached := true));
    assert AttachBatch(s, id, a, overrides) == Goto(s, id, r);
    GotoIsQuiet(s, id, r);
  }

  lemma AppliedStepSound(s: State, id: nat, a: Apply, input: Input)
    requires Sound(s) && Stands(s, id, ApplyRequest(a)) && AfterCommit(a.phase)
    ensures Sound(AppliedStep(s, id, a, input))
  {
    if a.phase.Attach? && !input.fails {
      assert AppliedStep(s, id, a, input) == AttachBatch(s, id, a, input.overrides);
      AttachStepSound(s, id, a, input.overrides);
    } else if a.phase.Rollback? && !input.fails && Holds(s.active, a.revision) {
      assert AppliedStep(s, id, a, input) == RollbackCas(s, id, a);
      RollbackStepSound(s, id, a);
    } else {
      AppliedQuietSound(s, id, a, input);
    }
  }

  lemma RollbackStepSound(s: State, id: nat, a: Apply)
    requires Sound(s) && Stands(s, id, ApplyRequest(a)) && a.phase.Rollback? && Holds(s.active, a.revision)
    ensures Sound(RollbackCas(s, id, a))
  {
    RollbackWrites(s, id, a);
    WritingKeepsSound(s, RollbackCas(s, id, a), id, Write(id, RollbackWrite(a.committedAt), a.beforeAt, PutBack(a.before, a.revision, s.now)));
  }

  lemma AppliedQuietSound(s: State, id: nat, a: Apply, input: Input)
    requires Sound(s) && Stands(s, id, ApplyRequest(a)) && AfterCommit(a.phase)
    requires a.phase.Attach? ==> input.fails
    requires a.phase.Rollback? ==> input.fails || !Holds(s.active, a.revision)
    ensures Sound(AppliedStep(s, id, a, input))
  {
    AppliedStepQuiet(s, id, a, input);
    QuietKeepsSound(s, AppliedStep(s, id, a, input), id);
  }

  // ----- the other requests

  lemma SyncWrites(s: State, id: nat, r: Request, input: Input)
    requires Stands(s, id, r) && r.SyncPlan? && Holds(s.active, r.row.revision)
    ensures var next := SyncStep(s, id, r, input);
            |next.history.writes| > |s.history.writes| && Writing(s, next, id, next.history.writes[|s.history.writes|])
  {
  }

  lemma SyncQuiet(s: State, id: nat, r: Request, input: Input)
    requires Stands(s, id, r) && (r.SyncStart? || (r.SyncPlan? && !Holds(s.active, r.row.revision)))
    ensures Quiet(s, SyncStep(s, id, r, input), id)
  {
  }

  lemma SyncStepSound(s: State, id: nat, r: Request, input: Input)
    requires Sound(s) && Stands(s, id, r) && (r.SyncStart? || r.SyncPlan?)
    ensures Sound(SyncStep(s, id, r, input))
  {
    var next := SyncStep(s, id, r, input);
    if r.SyncPlan? && Holds(s.active, r.row.revision) {
      SyncWrites(s, id, r, input);
      WritingKeepsSound(s, next, id, next.history.writes[|s.history.writes|]);
    } else {
      SyncQuiet(s, id, r, input);
      QuietKeepsSound(s, next, id);
    }
  }

  predicate IsPut(r: Request) {
    r.PutStart? || r.PutReady? || r.PutAttach? || r.PutRestore?
  }

  lemma PutWrites(s: State, id: nat, r: Request, input: Input)
    requires Stands(s, id, r) && r.PutReady? && s.now > RevisionOf(s.active)
    ensures var next := PutStep(s, id, r, input);
            |next.history.writes| > |s.history.writes| && Writing(s, next, id, next.history.writes[|s.history.writes|])
  {
  }

  lemma PutAttaches(s: State, id: nat, r: Request, input: Input)
    requires Stands(s, id, r) && r.PutAttach? && Holds(s.active, r.revision)
    ensures var next := PutStep(s, id, r, input);
            |next.history.writes| > |s.history.writes| && Writing(s, next, id, next.history.writes[|s.history.writes|])
  {
    AttachedIsSame(s.active.value, input.overrides);
  }

  lemma PutRestores(s: State, id: nat, r: Request, input: Input)
    requires Stands(s, id, r) && r.PutRestore? && Holds(s.active, r.revision)
    ensures var next := PutStep(s, id, r, input);
            |next.history.writes| > |s.history.writes| && Writing(s, next, id, next.history.writes[|s.history.writes|])
  {
  }

  /** An attachment fails only when somebody else has written in between. */
  lemma PutOvertaken(s: State, id: nat, r: Request)
    requires HistoryOk(s.history) && Stands(s, id, r) && r.PutAttach? && !Holds(s.active, r.revision)
    ensures RequestSound(s.history, s.drafts, id, PutRestore(r.before, r.beforeAt, r.revision, r.putAt))
  {
    if OnlyAttachments(s.history, r.putAt + 1, |s.history.writes|) {
      AttachmentsKeepRow(s.history, r.putAt + 1, |s.history.writes|);
    }
  }

  lemma PutStepMoves(s: State, id: nat, r: Request, input: Input)
    requires HistoryOk(s.history) && Stands(s, id, r) && IsPut(r)
    ensures var next := PutStep(s, id, r, input);
            || next == s || Quiet(s, next, id)
            || (|next.history.writes| > |s.history.writes| && Writing(s, next, id, next.history.writes[|s.history.writes|]))
  {
    if r.PutReady? {
      if s.now > RevisionOf(s.active) {
        PutWrites(s, id, r, input);
      }
    } else if r.PutAttach? {
      if Holds(s.active, r.revision) {
        PutAttaches(s, id, r, input);
      } else {
        PutOvertaken(s, id, r);
        GotoIsQuiet(s, id, PutRestore(r.before, r.beforeAt, r.revision, r.putAt));
      }
    } else if r.PutRestore? {
      if Holds(s.active, r.revision) {
        PutRestores(s, id, r, input);
      } else {
        GotoIsQuiet(s, id, Done);
      }
    } else {
      GotoIsQuiet(s, id, PutReady(s.active, |s.history.writes|));
    }
  }

  lemma PutStepSound(s: State, id: nat, r: Request, input: Input)
    requires Sound(s) && Stands(s, id, r) && IsPut(r)
    ensures Sound(PutStep(s, id, r, input))
  {
    var next := PutStep(s, id, r, input);
    PutStepMoves(s, id, r, input);
    if Quiet(s, next, id) {
      QuietKeepsSound(s, next, id);
    } else if next != s {
      WritingKeepsSound(s, next, id, next.history.writes[|s.history.writes|]);
    }
  }

  predicate OnDrafts(r: Request) {
    !r.ApplyRequest? && !r.SyncStart? && !r.SyncPlan? && !IsPut(r)
  }

  lemma DraftStepQuiet(s: State, id: nat, r: Request, input: Input)
    requires Stands(s, id, r) && OnDrafts(r) && !r.CreateReady?
    ensures DraftStep(s, id, r, input) == s || Quiet(s, DraftStep(s, id, r, input), id)
  {
    if r.RefreshReady? {
      RefreshQuiet(s, id, r, input);
    } else if r.ValidateConflict? || r.ValidateFinish? {
      GotoIsQuiet(s, id, Done);
      MarkIsQuiet(s, id, r.draft, if r.ValidateConflict? then Conflict else if input.ok then Validated else Invalid, Done);
    }
  }

  lemma RefreshQuiet(s: State, id: nat, r: Request, input: Input)
    requires Stands(s, id, r) && r.RefreshReady?
    ensures Quiet(s, DraftStep(s, id, r, input), id)
  {
  }

  lemma DraftStepSound(s: State, id: nat, r: Request, input: Input)
    requires Sound(s) && Stands(s, id, r) && OnDrafts(r)
    ensures Sound(DraftStep(s, id, r, input))
  {
    var next := DraftStep(s, id, r, input);
    if r.CreateReady? {
      StepKeepsSound(s, next, id, Done);
    } else {
      DraftStepQuiet(s, id, r, input);
      if next != s {
        QuietKeepsSound(s, next, id);
      }
    }
  }

  lemma RequestStands(s: State, id: nat)
    requires Sound(s) && id in s.requests
    ensures Stands(s, id, s.requests[id])
  {
    assert RequestSound(s.history, s.drafts, id, s.requests[id]);
  }

  lemma RequestStepSound(s: State, id: nat, input: Input)
    requires Sound(s) && id in s.requests
    ensures Sound(RequestStep(s, id, s.requests[id], input))
  {
    var r := s.requests[id];
    RequestStands(s, id);
    if r.ApplyRequest? {
      if InClaim(r.a.phase) {
        ClaimedStepSound(s, id, r.a, input);
      } else if AfterCommit(r.a.phase) {
        AppliedStepSound(s, id, r.a, input);
      } else {
        OpeningStepQuiet(s, id, r.a);
        QuietKeepsSound(s, OpeningStep(s, id, r.a), id);
      }
    } else if r.SyncStart? || r.SyncPlan? {
      SyncStepSound(s, id, r, input);
    } else if IsPut(r) {
      PutStepSound(s, id, r, input);
    } else {
      DraftStepSound(s, id, r, input);
    }
  }

  lemma BeginSound(s: State, id: nat, r: Request)
    requires Sound(s) && (RequestSound(s.history, s.drafts, id, r) || id in s.requests)
    ensures Sound(Begin(s, id, r))
  {
    if id !in s.requests {
      QuietKeepsSound(s, Begin(s, id, r), id);
    }
  }

  lemma StatusSound(s: State, next: State)
    requires Sound(s) && next.requests == s.requests && next.history == s.history && next.active == s.active && next.seals == s.seals
    requires next.drafts.Keys == s.drafts.Keys && DraftsKept(next.drafts, s.drafts)
    ensures Sound(next)
  {
    forall id | id in next.requests ensures RequestSound(next.history, next.drafts, id, next.requests[id]) {
      assert RequestSound(s.history, s.drafts, id, s.requests[id]);
    }
    forall k | 0 <= k < |next.history.writes| ensures Owned(next, next.history.writes[k]) {
      assert Owned(s, s.history.writes[k]);
    }
  }

  lemma StartSound(s: State, e: Event)
    requires Sound(s) && !e.Tick? && !e.Cancel? && !e.Promote? && !e.Run?
    ensures Sound(Step(s, e))
  {
    match e {
      case StartApply(id, d) => FreshApplySound(s, id, d);
      case StartSync(id) => BeginSound(s, id, SyncStart);
      case StartPut(id) => BeginSound(s, id, PutStart);
      case StartValidate(id, d) => BeginSound(s, id, ValidateStart(d));
      case StartCreate(id) => BeginSound(s, id, CreateStart);
      case StartRefresh(id, d) => BeginSound(s, id, RefreshStart(d));
    }
  }

  lemma FreshApplySound(s: State, id: nat, d: nat)
    requires Sound(s)
    ensures d in s.drafts ==> Sound(Begin(s, id, ApplyRequest(Fresh(d))))
  {
    if d in s.drafts && id !in s.requests {
      StrangerNeverRolledBack(s, id);
      BeginSound(s, id, ApplyRequest(Fresh(d)));
    }
  }

  lemma StrangerNeverRolledBack(s: State, id: nat)
    requires id !in s.requests && forall k :: 0 <= k < |s.history.writes| ==> Owned(s, s.history.writes[k])
    ensures NeverRolledBack(s.history, id)
  {
    forall k | 0 <= k < |s.history.writes| ensures s.history.writes[k].owner != id {
      assert Owned(s, s.history.writes[k]);
    }
  }

  lemma StepSound(s: State, e: Event)
    requires Sound(s)
    ensures Sound(Step(s, e))
  {
    if e.Run? {
      if e.id in s.requests {
        RequestStepSound(s, e.id, e.input);
      }
    } else {
      EventSound(s, e);
    }
  }

  lemma StatusEventSound(s: State, e: Event)
    requires Sound(s) && (e.Tick? || e.Cancel? || e.Promote?)
    ensures Sound(Step(s, e))
  {
    StatusEventKeeps(s, e);
    StatusSound(s, Step(s, e));
  }

  lemma StatusEventKeeps(s: State, e: Event)
    requires e.Tick? || e.Cancel? || e.Promote?
    ensures var next := Step(s, e);
            && next.requests == s.requests && next.history == s.history && next.active == s.active && next.seals == s.seals
            && next.drafts.Keys == s.drafts.Keys && DraftsKept(next.drafts, s.drafts)
  {
  }

  lemma EventSound(s: State, e: Event)
    requires Sound(s) && !e.Run?
    ensures Sound(Step(s, e))
  {
    if e.Tick? || e.Cancel? || e.Promote? {
      StatusEventSound(s, e);
    } else {
      StartSound(s, e);
    }
  }

  /** Every reachable state has a good history and sound requests. */
  lemma {:induction false} AlwaysSound(s: State, events: seq<Event>)
    requires Initial(s)
    ensures Sound(Execution(s, events))
    decreases |events|
  {
    if events != [] {
      AlwaysSound(s, events[..|events| - 1]);
      StepSound(Execution(s, events[..|events| - 1]), events[|events| - 1]);
    }
  }

  /**
   In every run a commit replaces exactly its draft's base revision, so a draft whose base is stale never
   reaches the row, and it leaves a larger revision.
   */
  lemma CommitsReplaceTheirBase(s: State, events: seq<Event>, k: nat)
    requires Initial(s) && k < |Execution(s, events).history.writes| && Execution(s, events).history.writes[k].kind.CommitWrite?
    ensures var now := Execution(s, events);
            var w := now.history.writes[k];
            && w.kind.draft in now.drafts && now.drafts[w.kind.draft].base == w.kind.base
            && RevisionOf(RowAt(now.history, k)) == w.kind.base
            && w.after.Some? && w.after.value.revision > w.kind.base
  {
    AlwaysSound(s, events);
    assert WriteOk(Execution(s, events).history, k);
    assert Owned(Execution(s, events), Execution(s, events).history.writes[k]);
  }

  /** In every run two commits of one draft have a removal of the row between them. */
  lemma CommittedOncePerLife(s: State, events: seq<Event>, i: nat, k: nat)
    requires Initial(s) && i < k < |Execution(s, events).history.writes|
    requires var h := Execution(s, events).history;
             h.writes[i].kind.CommitWrite? && h.writes[k].kind.CommitWrite? && h.writes[i].kind.draft == h.writes[k].kind.draft
    ensures !NoRemoval(Execution(s, events).history, i, k)
  {
    var now := Execution(s, events);
    AlwaysSound(s, events);
    assert Owned(now, now.history.writes[i]) && Owned(now, now.history.writes[k]);
    if NoRemoval(now.history, i, k) {
      CommitsDifferInBase(now.history, i, k);
    }
  }
}
