/**
 The settings lifecycle as concurrent requests: each step below is one SQL statement or batch of one
 request, and any number of requests interleave freely. The source lock expires, so nothing here
 relies on it. The history of the settings row is kept beside the state, only to be reasoned about.
 */
module SettingsProtocol {
  import opened Prelude
  import F = SettingsFields
  import D = SettingsDrafts

  // ----- the tables

  /** A stored row; `seal` tells one encryption of the secrets from every other. */
  datatype Row = Row(content: F.Content, seal: nat, revision: int)

  datatype Status = Drafted | Validated | Invalid | Applying | Conflict | Applied | Cancelled | RolledBack | RollbackConflict
  /** `baseAt` is the point in the row's history at which the base revision was read. */
  datatype Draft = Draft(base: int, baseAt: nat, material: D.Material, status: Status, updated: int)
  datatype Receipt = Receipt(draft: nat, row: Row)

  function RevisionOf(row: Option<Row>): int {
    if row.Some? then row.value.revision else 0
  }

  function ContentOf(row: Option<Row>, initial: F.Content): F.Content {
    if row.Some? then row.value.content else initial
  }

  // ----- the history of the settings row

  datatype Kind = CommitWrite(draft: nat, base: int, baseAt: nat, material: D.Material)
                | AttachWrite
                | RollbackWrite(committedAt: nat)
                | SyncWrite(env: F.Environment)
                | PutWrite
                | RestoreWrite(putAt: nat)

  /** One change of the row: who made it, what it had read and when, and what it left. */
  datatype Write = Write(owner: nat, kind: Kind, readAt: nat, after: Option<Row>)
  datatype History = History(initial: Option<Row>, writes: seq<Write>)

  /** The row after the first `k` writes. */
  function RowAt(h: History, k: nat): Option<Row>
    requires k <= |h.writes|
  {
    if k == 0 then h.initial else h.writes[k - 1].after
  }

  function Record(h: History, w: Write): History {
    h.(writes := h.writes + [w])
  }

  // ----- requests

  datatype Outcome = Refused | Errored | Succeeded | WasRolledBack | HitRollbackConflict

  datatype Phase = Capture | ReadDraft | Claim | ReadActive | WriteBatch | MarkApplied | MarkConflict | CatchError
                 | Attach | Consume | Health | Rollback | MarkRolledBack | MarkRollbackConflict | Ended(outcome: Outcome)

  /** One apply request with its local variables. */
  datatype Apply = Apply(draft: nat, phase: Phase, before: Option<Row>, beforeAt: nat, seen: Draft,
                         current: Option<Row>, currentAt: nat, revision: int, commit: nat, committedAt: nat, rolledBackAt: nat, detached: bool)

  datatype Request = ApplyRequest(a: Apply)
                   | SyncStart
                   | SyncPlan(row: Row, readAt: nat, env: F.Environment, revision: int)
                   | PutStart
                   | PutReady(before: Option<Row>, beforeAt: nat)
                   | PutAttach(before: Option<Row>, beforeAt: nat, revision: int, putAt: nat)
                   | PutRestore(before: Option<Row>, beforeAt: nat, revision: int, putAt: nat)
                   | ValidateStart(draft: nat)
                   | ValidateReady(draft: nat, base: int)
                   | ValidateConflict(draft: nat)
                   | ValidateFinish(draft: nat)
                   | CreateStart
                   | CreateReady(base: int, baseAt: nat)
                   | RefreshStart(draft: nat)
                   | RefreshReady(draft: nat, status: Status, updated: int)
                   | Done

  datatype State = State(active: Option<Row>, drafts: map<nat, Draft>, receipts: map<nat, Receipt>, now: int, seals: nat,
                         requests: map<nat, Request>, history: History)

  /** What a step takes from outside: failures, check results and the values requests bring along. */
  datatype Input = Input(fails: bool, ok: bool, content: F.Content, material: D.Material, overrides: set<F.Field>, env: F.Environment)

  datatype Event = Tick(elapsed: nat)
                 | StartApply(id: nat, draft: nat)
                 | StartSync(id: nat)
                 | StartPut(id: nat)
                 | StartValidate(id: nat, draft: nat)
                 | StartCreate(id: nat)
                 | StartRefresh(id: nat, draft: nat)
                 | Cancel(draft: nat)
                 | Promote(draft: nat)
                 | Run(id: nat, input: Input)

  // ----- statements

  function SetStatus(s: State, draft: nat, status: Status): State {
    if draft !in s.drafts then s
    else s.(drafts := s.drafts[draft := s.drafts[draft].(status := status, updated := s.now)])
  }

  function Goto(s: State, id: nat, request: Request): State {
    s.(requests := s.requests[id := request])
  }

  function Wrote(s: State, w: Write): State {
    s.(active := w.after, history := Record(s.history, w))
  }

  predicate Holds(active: Option<Row>, revision: int) {
    active.Some? && active.value.revision == revision
  }

  /** The write half of the commit batch: an update of the revision read, or an insert where no row was read. */
  function CommitWriteStatement(active: Option<Row>, current: Option<Row>, row: Row): Option<Row> {
    if current.Some? then if Holds(active, current.value.revision) then Some(row) else active
    else if active.None? then Some(row) else active
  }

  /** Whether that statement changes a row. */
  predicate CommitTakesEffect(active: Option<Row>, current: Option<Row>) {
    if current.Some? then Holds(active, current.value.revision) else active.None?
  }

  /** The receipt half: inserted when the row just written is the one in place. */
  predicate ReceiptInserted(active: Option<Row>, row: Row) {
    active == Some(row)
  }

  /** The row a rollback or compensation puts back in place of `replaced`. */
  function PutBack(before: Option<Row>, replaced: int, now: int): Option<Row> {
    if before.None? then None else Some(before.value.(revision := Max(now, replaced + 1)))
  }

  // ----- the apply request

  function CommitBatch(s: State, id: nat, a: Apply, input: Input): State {
    var content := D.Committed(ContentOf(a.current, input.content), a.seen.material);
    var row := Row(content, s.seals, a.revision);
    var active := CommitWriteStatement(s.active, a.current, row);
    var numbered := s.(seals := s.seals + 1);
    if !CommitTakesEffect(s.active, a.current) || !ReceiptInserted(active, row) then
      Goto(numbered.(receipts := if ReceiptInserted(active, row) then s.receipts[s.seals := Receipt(a.draft, row)] else s.receipts,
                     active := active), id, ApplyRequest(a.(phase := MarkConflict)))
    else
      var written := Wrote(numbered, Write(id, CommitWrite(a.draft, a.seen.base, a.seen.baseAt, a.seen.material), a.currentAt, active));
      Goto(written.(receipts := s.receipts[s.seals := Receipt(a.draft, row)]), id,
           ApplyRequest(a.(phase := MarkApplied, commit := s.seals, committedAt := |s.history.writes|)))
  }

  function AttachBatch(s: State, id: nat, a: Apply, overrides: set<F.Field>): State {
    if Holds(s.active, a.revision) && a.commit in s.receipts && s.receipts[a.commit].row.revision == a.revision then
      var row := s.active.value.(content := D.Attached(s.active.value.content, overrides));
      var receipt := s.receipts[a.commit].(row := s.receipts[a.commit].row.(content := s.receipts[a.commit].row.content.(config := row.content.config)));
      Goto(Wrote(s, Write(id, AttachWrite, |s.history.writes|, Some(row))).(receipts := s.receipts[a.commit := receipt]), id,
           ApplyRequest(a.(phase := Consume, detached := false)))
    else Goto(s, id, ApplyRequest(a.(phase := Consume, detached := true)))
  }

  function ConsumeReceipt(s: State, id: nat, a: Apply): State {
    if a.commit in s.receipts && s.receipts[a.commit].draft == a.draft && s.receipts[a.commit].row.revision == a.revision then
      Goto(s.(receipts := s.receipts - {a.commit}), id, ApplyRequest(a.(phase := Health)))
    else Goto(s, id, ApplyRequest(a.(phase := MarkRollbackConflict)))
  }

  function RollbackCas(s: State, id: nat, a: Apply): State {
    if Holds(s.active, a.revision) then
      Goto(Wrote(s, Write(id, RollbackWrite(a.committedAt), a.beforeAt, PutBack(a.before, a.revision, s.now))), id,
           ApplyRequest(a.(phase := MarkRolledBack, rolledBackAt := |s.history.writes|)))
    else Goto(s, id, ApplyRequest(a.(phase := MarkRollbackConflict)))
  }

  function End(s: State, id: nat, a: Apply, outcome: Outcome): State {
    Goto(s, id, ApplyRequest(a.(phase := Ended(outcome))))
  }

  function Catch(s: State, id: nat, a: Apply): State {
    Goto(s, id, ApplyRequest(a.(phase := CatchError)))
  }

  /** The steps inside the claim: an exception there is caught and hands the draft back. */
  function ClaimedStep(s: State, id: nat, a: Apply, input: Input): State {
    if input.fails && a.phase != CatchError then Catch(s, id, a)
    else
      match a.phase
      case ReadActive =>
        if RevisionOf(s.active) != a.seen.base then Goto(s, id, ApplyRequest(a.(phase := MarkConflict)))
        else Goto(s, id, ApplyRequest(a.(phase := WriteBatch, current := s.active, currentAt := |s.history.writes|,
                                         revision := Max(s.now, a.seen.base + 1))))
      case WriteBatch => CommitBatch(s, id, a, input)
      case MarkApplied => Goto(SetStatus(s, a.draft, Applied), id, ApplyRequest(a.(phase := Attach)))
      case MarkConflict => End(SetStatus(s, a.draft, Conflict), id, a, Refused)
      case _ =>
        End(if a.draft in s.drafts && s.drafts[a.draft].status == Applying then SetStatus(s, a.draft, Validated) else s, id, a, Errored)
  }

  /** The steps after a commit: an exception there ends the request as it stands. */
  function AppliedStep(s: State, id: nat, a: Apply, input: Input): State {
    if input.fails then End(s, id, a, Errored)
    else
      match a.phase
      case Attach => AttachBatch(s, id, a, input.overrides)
      case Consume => ConsumeReceipt(s, id, a)
      case Health =>
        if input.ok && !a.detached then End(s, id, a, Succeeded) else Goto(s, id, ApplyRequest(a.(phase := Rollback)))
      case Rollback => RollbackCas(s, id, a)
      case MarkRolledBack => End(SetStatus(s, a.draft, RolledBack), id, a, WasRolledBack)
      case _ => End(SetStatus(s, a.draft, RollbackConflict), id, a, HitRollbackConflict)
  }

  predicate InClaim(phase: Phase) {
    phase.ReadActive? || phase.WriteBatch? || phase.MarkApplied? || phase.MarkConflict? || phase.CatchError?
  }

  predicate AfterCommit(phase: Phase) {
    phase.Attach? || phase.Consume? || phase.Health? || phase.Rollback? || phase.MarkRolledBack? || phase.MarkRollbackConflict?
  }

  /** The steps up to the claim. */
  function OpeningStep(s: State, id: nat, a: Apply): State {
    match a.phase
    case Capture => Goto(s, id, ApplyRequest(a.(phase := ReadDraft, before := s.active, beforeAt := |s.history.writes|)))
    case ReadDraft =>
      if a.draft !in s.drafts || s.drafts[a.draft].status != Validated then End(s, id, a, Refused)
      else Goto(s, id, ApplyRequest(a.(phase := Claim, seen := s.drafts[a.draft])))
    case Claim =>
      if a.draft !in s.drafts || s.drafts[a.draft].status != Validated then End(s, id, a, Refused)
      else Goto(SetStatus(s, a.draft, Applying), id, ApplyRequest(a.(phase := ReadActive)))
    case _ => s
  }

  function ApplyStep(s: State, id: nat, a: Apply, input: Input): State {
    if InClaim(a.phase) then ClaimedStep(s, id, a, input)
    else if AfterCommit(a.phase) then AppliedStep(s, id, a, input)
    else OpeningStep(s, id, a)
  }

  // ----- the other requests

  predicate Open(status: Status) {
    status == Drafted || status == Validated || status == Invalid
  }

  function SyncStep(s: State, id: nat, r: Request, input: Input): State {
    if r.SyncStart? then
      if s.active.None? || F.Synchronized(s.active.value.content, input.env) == s.active.value.content then Goto(s, id, Done)
      else
        var row := s.active.value;
        Goto(s, id, SyncPlan(row, |s.history.writes|, input.env, Max(s.now, row.revision + 1)))
    else if r.SyncPlan? && Holds(s.active, r.row.revision) then
      var row := Row(F.Synchronized(r.row.content, r.env), s.seals, r.revision);
      Goto(Wrote(s.(seals := s.seals + 1), Write(id, SyncWrite(r.env), r.readAt, Some(row))), id, Done)
    else Goto(s, id, Done)
  }

  /**
   The direct update writes without a comparison. Its time stamp is assumed to lie past the stored
   revision; without that the step does not happen.
   */
  function PutStep(s: State, id: nat, r: Request, input: Input): State {
    match r
    case PutStart => Goto(s, id, PutReady(s.active, |s.history.writes|))
    case PutReady(before, beforeAt) =>
      if s.now <= RevisionOf(s.active) then s
      else
        var row := Row(input.content, s.seals, s.now);
        Goto(Wrote(s.(seals := s.seals + 1), Write(id, PutWrite, |s.history.writes|, Some(row))), id,
             PutAttach(before, beforeAt, s.now, |s.history.writes|))
    case PutAttach(before, beforeAt, revision, putAt) =>
      if Holds(s.active, revision) then
        var row := s.active.value.(content := D.Attached(s.active.value.content, input.overrides));
        Goto(Wrote(s, Write(id, AttachWrite, |s.history.writes|, Some(row))), id, Done)
      else Goto(s, id, PutRestore(before, beforeAt, revision, putAt))
    case PutRestore(before, beforeAt, revision, putAt) =>
      if Holds(s.active, revision) then
        Goto(Wrote(s, Write(id, RestoreWrite(putAt), beforeAt, PutBack(before, revision, s.now))), id, Done)
      else Goto(s, id, Done)
    case _ => s
  }

  function DraftStep(s: State, id: nat, r: Request, input: Input): State {
    match r
    case ValidateStart(d) =>
      if d in s.drafts && Open(s.drafts[d].status) then Goto(s, id, ValidateReady(d, s.drafts[d].base)) else Goto(s, id, Done)
    case ValidateReady(d, base) =>
      Goto(s, id, if RevisionOf(s.active) != base then ValidateConflict(d) else ValidateFinish(d))
    case ValidateConflict(d) =>
      Goto(if d in s.drafts && s.drafts[d].status != Applied && s.drafts[d].status != Cancelled then SetStatus(s, d, Conflict) else s, id, Done)
    case ValidateFinish(d) =>
      Goto(if d in s.drafts && Open(s.drafts[d].status) then SetStatus(s, d, if input.ok then Validated else Invalid) else s, id, Done)
    case CreateStart => Goto(s, id, CreateReady(RevisionOf(s.active), |s.history.writes|))
    case CreateReady(base, baseAt) =>
      Goto(s.(drafts := s.drafts[s.seals := Draft(base, baseAt, input.material, Drafted, s.now)], seals := s.seals + 1), id, Done)
    case RefreshStart(d) =>
      if d in s.drafts && Open(s.drafts[d].status) then Goto(s, id, RefreshReady(d, s.drafts[d].status, s.drafts[d].updated)) else Goto(s, id, Done)
    case RefreshReady(d, status, updated) =>
      if d in s.drafts && s.drafts[d].status == status && s.drafts[d].updated == updated then
        Goto(SetStatus(s.(drafts := s.drafts[d := s.drafts[d].(material := input.material)]), d, Drafted), id, Done)
      else Goto(s, id, Done)
    case _ => s
  }

  function RequestStep(s: State, id: nat, r: Request, input: Input): State {
    match r
    case ApplyRequest(a) => ApplyStep(s, id, a, input)
    case SyncStart => SyncStep(s, id, r, input)
    case SyncPlan(_, _, _, _) => SyncStep(s, id, r, input)
    case PutStart => PutStep(s, id, r, input)
    case PutReady(_, _) => PutStep(s, id, r, input)
    case PutAttach(_, _, _, _) => PutStep(s, id, r, input)
    case PutRestore(_, _, _, _) => PutStep(s, id, r, input)
    case _ => DraftStep(s, id, r, input)
  }

  function Begin(s: State, id: nat, r: Request): State {
    if id in s.requests then s else Goto(s, id, r)
  }

  function Fresh(draft: nat): Apply {
    Apply(draft, Capture, None, 0, Draft(0, 0, D.Material([], []), Drafted, 0), None, 0, 0, 0, 0, 0, false)
  }

  function Step(s: State, e: Event): State {
    match e
    case Tick(elapsed) => s.(now := s.now + elapsed)
    case StartApply(id, d) => if d in s.drafts then Begin(s, id, ApplyRequest(Fresh(d))) else s
    case StartSync(id) => Begin(s, id, SyncStart)
    case StartPut(id) => Begin(s, id, PutStart)
    case StartValidate(id, d) => Begin(s, id, ValidateStart(d))
    case StartCreate(id) => Begin(s, id, CreateStart)
    case StartRefresh(id, d) => Begin(s, id, RefreshStart(d))
    case Cancel(d) =>
      if d in s.drafts && Open(s.drafts[d].status) then
        SetStatus(s.(drafts := s.drafts[d := s.drafts[d].(material := s.drafts[d].material.(secrets := []))]), d, Cancelled)
      else s
    case Promote(d) => if d in s.drafts && s.drafts[d].status == Invalid then SetStatus(s, d, Validated) else s
    case Run(id, input) => if id in s.requests then RequestStep(s, id, s.requests[id], input) else s
  }

  function Execution(s: State, events: seq<Event>): State
    decreases |events|
  {
    if events == [] then s else Step(Execution(s, events[..|events| - 1]), events[|events| - 1])
  }

  /** Where runs start: any row or none, and nothing else. A request can only name a draft that exists. */
  predicate Initial(s: State) {
    && s.requests == map[] && s.receipts == map[] && s.drafts == map[]
    && s.history == History(s.active, [])
    && (s.active.Some? ==> s.active.value.revision > 0 && s.active.value.seal < s.seals)
  }
}
