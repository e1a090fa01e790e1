/**
 Three runs of the settings lifecycle, whatever the time, the content and the draft material: a draft
 that is committed twice, a rollback that brings back a row rolled back before, and a rollback that
 loses an override list attached meanwhile.
 */
module SettingsWitnesses {
  import opened Prelude
  import F = SettingsFields
  import D = SettingsDrafts
  import opened SettingsProtocol
  import opened SettingsHistory
  import opened SettingsSafety
  import opened SettingsFreshStamps

  ghost predicate Reached(start: State, s: State) {
    exists events: seq<Event> :: Execution(start, events) == s
  }

  lemma ReachedAtOnce(start: State)
    ensures Reached(start, start)
  {
    assert Execution(start, []) == start;
  }

  lemma Next(start: State, s: State, e: Event)
    requires Reached(start, s)
    ensures Reached(start, Step(s, e))
  {
    var events: seq<Event> :| Execution(start, events) == s;
    assert (events + [e])[..|events|] == events;
    assert Execution(start, events + [e]) == Step(s, e);
  }

  /** Nothing fails and every check passes. */
  predicate Good(input: Input) {
    !input.fails && input.ok
  }

  // ----- stretches of one request, undisturbed

  /** A new draft on the row as it stands. */
  function Created(s: State, id: nat, input: Input): State {
    Goto(s.(drafts := s.drafts[s.seals := Draft(RevisionOf(s.active), |s.history.writes|, input.material, Drafted, s.now)],
            seals := s.seals + 1), id, Done)
  }

  lemma Creates(start: State, s: State, id: nat, input: Input)
    requires Reached(start, s) && id !in s.requests
    ensures Reached(start, Created(s, id, input))
  {
    var s1 := Step(s, StartCreate(id));
    var s2 := Step(s1, Run(id, input));
    Next(start, s, StartCreate(id));
    Next(start, s1, Run(id, input));
    Next(start, s2, Run(id, input));
    assert Step(s2, Run(id, input)) == Created(s, id, input);
  }

  function Checked(s: State, id: nat, d: nat): State {
    Goto(SetStatus(s, d, Validated), id, Done)
  }

  lemma Validates(start: State, s: State, id: nat, d: nat, input: Input)
    requires Reached(start, s) && Good(input) && id !in s.requests
    requires d in s.drafts && Open(s.drafts[d].status) && s.drafts[d].base == RevisionOf(s.active)
    ensures Reached(start, Checked(s, id, d))
  {
    Next(start, s, StartValidate(id, d));
    Moves(start, s, id, ValidateStart(d), ValidateReady(d, s.drafts[d].base), input);
    Moves(start, s, id, ValidateReady(d, s.drafts[d].base), ValidateFinish(d), input);
    Next(start, Goto(s, id, ValidateFinish(d)), Run(id, input));
    FinishChecks(s, id, d, input);
  }

  lemma FinishChecks(s: State, id: nat, d: nat, input: Input)
    requires d in s.drafts && Open(s.drafts[d].status) && input.ok
    ensures Step(Goto(s, id, ValidateFinish(d)), Run(id, input)) == Checked(s, id, d)
  {
    Retargets(SetStatus(s, d, Validated), id, ValidateFinish(d), Done);
  }

  /** A step that only moves its request on. */
  lemma Moves(start: State, s: State, id: nat, r: Request, next: Request, input: Input)
    requires Reached(start, Goto(s, id, r)) && OnDrafts(r) && DraftStep(Goto(s, id, r), id, r, input) == Goto(Goto(s, id, r), id, next)
    ensures Reached(start, Goto(s, id, next))
  {
    Next(start, Goto(s, id, r), Run(id, input));
    RunsDraftStep(Goto(s, id, r), id, r, input);
    Retargets(s, id, r, next);
  }

  lemma RunsDraftStep(s: State, id: nat, r: Request, input: Input)
    requires id in s.requests && s.requests[id] == r && OnDrafts(r)
    ensures Step(s, Run(id, input)) == DraftStep(s, id, r, input)
  {
  }

  lemma Retargets(s: State, id: nat, a: Request, b: Request)
    ensures Goto(Goto(s, id, a), id, b) == Goto(s, id, b)
  {
    assert s.requests[id := a][id := b] == s.requests[id := b];
  }

  /** A draft on the row as it stands, created and validated. */
  lemma Prepares(start: State, s: State, create: nat, validate: nat, input: Input) returns (t: State)
    requires Reached(start, s) && Good(input) && create !in s.requests && validate !in s.requests && create != validate
    ensures Reached(start, t) && t.active == s.active && t.history == s.history && t.receipts == s.receipts && t.now == s.now
    ensures t.seals == s.seals + 1 && t.requests == s.requests[create := Done][validate := Done]
    ensures t.drafts == s.drafts[s.seals := Draft(RevisionOf(s.active), |s.history.writes|, input.material, Validated, s.now)]
  {
    Creates(start, s, create, input);
    Validates(start, Created(s, create, input), validate, s.seals, input);
    t := Checked(Created(s, create, input), validate, s.seals);
  }

  function Capturing(s: State, d: nat): Apply {
    Fresh(d).(phase := ReadDraft, before := s.active, beforeAt := |s.history.writes|)
  }

  /** An apply that has captured the row and done nothing more. */
  function Captured(s: State, id: nat, d: nat): State {
    Goto(s, id, ApplyRequest(Capturing(s, d)))
  }

  lemma Captures(start: State, s: State, id: nat, d: nat, input: Input)
    requires Reached(start, s) && id !in s.requests && d in s.drafts
    ensures Reached(start, Captured(s, id, d))
  {
    var s1 := Step(s, StartApply(id, d));
    Next(start, s, StartApply(id, d));
    Next(start, s1, Run(id, input));
    assert Step(s1, Run(id, input)) == Captured(s, id, d);
  }

  /** The row a commit of draft `d` now leaves. */
  function NewRow(s: State, d: nat, input: Input): Row
    requires d in s.drafts
  {
    Row(D.Committed(ContentOf(s.active, input.content), s.drafts[d].material), s.seals, Max(s.now, s.drafts[d].base + 1))
  }

  function Committing(s: State, a: Apply): Apply
    requires a.draft in s.drafts
  {
    a.(phase := MarkApplied, seen := s.drafts[a.draft], current := s.active, currentAt := |s.history.writes|,
       revision := Max(s.now, s.drafts[a.draft].base + 1), commit := s.seals, committedAt := |s.history.writes|)
  }

  /** From the capture to the commit. */
  function Committed(s: State, id: nat, a: Apply, input: Input): State
    requires a.draft in s.drafts
  {
    var d := s.drafts[a.draft];
    var row := NewRow(s, a.draft, input);
    Goto(Wrote(SetStatus(s, a.draft, Applying), Write(id, CommitWrite(a.draft, d.base, d.baseAt, d.material), |s.history.writes|, Some(row)))
           .(seals := s.seals + 1, receipts := s.receipts[s.seals := Receipt(a.draft, row)]),
         id, ApplyRequest(Committing(s, a)))
  }

  /** The draft claimed and its base revision found in place. */
  function Claimed(s: State, id: nat, a: Apply): State
    requires a.draft in s.drafts
  {
    Goto(SetStatus(s, a.draft, Applying), id,
         ApplyRequest(a.(phase := WriteBatch, seen := s.drafts[a.draft], current := s.active, currentAt := |s.history.writes|,
                         revision := Max(s.now, s.drafts[a.draft].base + 1))))
  }

  lemma Claims(start: State, s: State, id: nat, a: Apply, input: Input)
    requires Reached(start, s) && Good(input) && id in s.requests && s.requests[id] == ApplyRequest(a) && a.phase == ReadDraft
    requires a.draft in s.drafts && s.drafts[a.draft].status == Validated && s.drafts[a.draft].base == RevisionOf(s.active)
    ensures Reached(start, Claimed(s, id, a))
  {
    var run := Run(id, input);
    var a1 := a.(phase := Claim, seen := s.drafts[a.draft]);
    var s1 := Goto(s, id, ApplyRequest(a1));
    Next(start, s, run);
    assert Step(s, run) == s1;
    ClaimsSeen(start, s1, id, a1, input);
    Retargets(SetStatus(s, a.draft, Applying), id, ApplyRequest(a1), ApplyRequest(Claiming(s, a1)));
  }

  /** The locals of an apply that is about to write. */
  function Claiming(s: State, a: Apply): Apply
    requires a.draft in s.drafts
  {
    a.(phase := WriteBatch, current := s.active, currentAt := |s.history.writes|, revision := Max(s.now, a.seen.base + 1))
  }

  lemma ClaimsSeen(start: State, s: State, id: nat, a: Apply, input: Input)
    requires Reached(start, s) && Good(input) && id in s.requests && s.requests[id] == ApplyRequest(a) && a.phase == Phase.Claim
    requires a.draft in s.drafts && s.drafts[a.draft].status == Validated && a.seen.base == RevisionOf(s.active)
    ensures Reached(start, Goto(SetStatus(s, a.draft, Applying), id, ApplyRequest(Claiming(s, a))))
  {
    var r := ApplyRequest(a.(phase := ReadActive));
    var s1 := Goto(SetStatus(s, a.draft, Applying), id, r);
    Next(start, s, Run(id, input));
    assert Step(s, Run(id, input)) == s1;
    Next(start, s1, Run(id, input));
    assert Step(s1, Run(id, input)) == Goto(s1, id, ApplyRequest(Claiming(s, a)));
    Retargets(SetStatus(s, a.draft, Applying), id, r, ApplyRequest(Claiming(s, a)));
  }

  lemma BatchInPlace(s: State, id: nat, a: Apply, input: Input)
    requires CommitTakesEffect(s.active, a.current)
    ensures var row := Row(D.Committed(ContentOf(a.current, input.content), a.seen.material), s.seals, a.revision);
            CommitBatch(s, id, a, input)
              == Goto(Wrote(s, Write(id, CommitWrite(a.draft, a.seen.base, a.seen.baseAt, a.seen.material), a.currentAt, Some(row)))
                        .(seals := s.seals + 1, receipts := s.receipts[s.seals := Receipt(a.draft, row)]),
                      id, ApplyRequest(a.(phase := MarkApplied, commit := s.seals, committedAt := |s.history.writes|)))
  {
  }

  lemma BatchCommits(s1: State, s: State, id: nat, a: Apply, input: Input)
    requires a.draft in s.drafts && s1 == Claimed(s, id, a) && s.drafts[a.draft].base == RevisionOf(s.active)
    ensures CommitBatch(s1, id, s1.requests[id].a, input) == Committed(s, id, a, input)
  {
    BatchInPlace(s1, id, s1.requests[id].a, input);
    assert s1.requests[id := ApplyRequest(Committing(s, a))] == s.requests[id := ApplyRequest(Committing(s, a))];
  }

  lemma ClaimedCommits(start: State, s1: State, s: State, id: nat, a: Apply, input: Input)
    requires Reached(start, s1) && Good(input) && a.draft in s.drafts && s1 == Claimed(s, id, a)
    requires s.drafts[a.draft].base == RevisionOf(s.active)
    ensures Reached(start, Committed(s, id, a, input))
  {
    Next(start, s1, Run(id, input));
    assert Step(s1, Run(id, input)) == CommitBatch(s1, id, s1.requests[id].a, input);
    BatchCommits(s1, s, id, a, input);
  }

  lemma Commits(start: State, s: State, id: nat, a: Apply, input: Input) returns (t: State, c: Apply)
    requires Reached(start, s) && Good(input) && id in s.requests && s.requests[id] == ApplyRequest(a) && a.phase == ReadDraft
    requires a.draft in s.drafts && s.drafts[a.draft].status == Validated && s.drafts[a.draft].base == RevisionOf(s.active)
    ensures Reached(start, t) && c == Committing(s, a) && InPlace(t, id, c) && t.active == Some(NewRow(s, a.draft, input))
    ensures t.now == s.now && t.seals == s.seals + 1 && t.requests == s.requests[id := ApplyRequest(c)]
    ensures t.drafts == SetStatus(s, a.draft, Applying).drafts
    ensures Extends(t.history, s.history) && |t.history.writes| == |s.history.writes| + 1
    ensures CommitOf(t.history, |s.history.writes|, a.draft) && RowAt(t.history, |t.history.writes|) == t.active
  {
    Claims(start, s, id, a, input);
    ClaimedCommits(start, Claimed(s, id, a), s, id, a, input);
    t, c := Committed(s, id, a, input), Committing(s, a);
  }

  /** A whole apply up to its commit, with nothing in between. */
  lemma CapturesAndCommits(start: State, s: State, id: nat, d: nat, input: Input) returns (t: State, c: Apply)
    requires Reached(start, s) && Good(input) && id !in s.requests
    requires d in s.drafts && s.drafts[d].status == Validated && s.drafts[d].base == RevisionOf(s.active)
    ensures Reached(start, t) && c == Committing(s, Capturing(s, d)) && InPlace(t, id, c) && t.active == Some(NewRow(s, d, input))
    ensures t.now == s.now && t.seals == s.seals + 1 && t.requests == s.requests[id := ApplyRequest(c)]
    ensures t.drafts == SetStatus(s, d, Applying).drafts
    ensures Extends(t.history, s.history) && |t.history.writes| == |s.history.writes| + 1
    ensures CommitOf(t.history, |s.history.writes|, d) && RowAt(t.history, |t.history.writes|) == t.active
  {
    Captures(start, s, id, d, input);
    CaptureChangesNothing(s, id, d, input);
    t, c := Commits(start, Captured(s, id, d), id, Capturing(s, d), input);
    Retargets(s, id, ApplyRequest(Capturing(s, d)), ApplyRequest(c));
  }

  lemma CaptureChangesNothing(s: State, id: nat, d: nat, input: Input)
    requires d in s.drafts
    ensures var s1, a := Captured(s, id, d), Capturing(s, d);
            && NewRow(s1, d, input) == NewRow(s, d, input) && Committing(s1, a) == Committing(s, a)
            && SetStatus(s1, d, Applying).drafts == SetStatus(s, d, Applying).drafts
  {
  }

  /** An exception right after the commit: the draft is handed back as validated. */
  function HandedBack(s: State, id: nat, a: Apply): State {
    Goto(SetStatus(s, a.draft, Validated), id, ApplyRequest(a.(phase := Ended(Errored))))
  }

  lemma FailsLate(start: State, s: State, id: nat, a: Apply, input: Input)
    requires Reached(start, s) && Good(input) && id in s.requests && s.requests[id] == ApplyRequest(a) && a.phase == MarkApplied
    requires a.draft in s.drafts && s.drafts[a.draft].status == Applying
    ensures Reached(start, HandedBack(s, id, a))
  {
    var s1 := Step(s, Run(id, input.(fails := true)));
    Next(start, s, Run(id, input.(fails := true)));
    Next(start, s1, Run(id, input));
    assert Step(s1, Run(id, input)) == HandedBack(s, id, a);
  }

  /** The list of overrides is attached to the row just committed. */
  function Attached(s: State, id: nat, a: Apply, overrides: set<F.Field>): State
    requires s.active.Some? && a.commit in s.receipts
  {
    var content := D.Attached(s.active.value.content, overrides);
    var receipt := s.receipts[a.commit];
    Goto(Wrote(SetStatus(s, a.draft, Applied), Write(id, AttachWrite, |s.history.writes|, Some(s.active.value.(content := content))))
           .(receipts := s.receipts[a.commit := receipt.(row := receipt.row.(content := receipt.row.content.(config := content.config)))]),
         id, ApplyRequest(a.(phase := Consume, detached := false)))
  }

  /** Committed by this request, and in place. */
  predicate InPlace(s: State, id: nat, a: Apply) {
    && id in s.requests && s.requests[id] == ApplyRequest(a) && a.draft in s.drafts
    && Holds(s.active, a.revision) && a.commit in s.receipts
    && s.receipts[a.commit].draft == a.draft && s.receipts[a.commit].row.revision == a.revision
  }

  lemma Attaches(start: State, s: State, id: nat, a: Apply, input: Input)
    requires Reached(start, s) && Good(input) && a.phase == MarkApplied && InPlace(s, id, a)
    ensures Reached(start, Attached(s, id, a, input.overrides))
  {
    var s1 := Step(s, Run(id, input));
    Next(start, s, Run(id, input));
    Next(start, s1, Run(id, input));
    assert Step(s1, Run(id, input)) == Attached(s, id, a, input.overrides);
  }

  function Rolling(a: Apply): Apply {
    a.(phase := Rollback, detached := false)
  }

  /** The health check fails, so that a rollback is next. */
  function Unhealthy(s: State, id: nat, a: Apply): State {
    Goto(s.(receipts := s.receipts - {a.commit}), id, ApplyRequest(Rolling(a)))
  }

  lemma FailsHealth(start: State, s: State, id: nat, a: Apply, input: Input)
    requires Reached(start, s) && Good(input) && a.phase == Consume && !a.detached && InPlace(s, id, a)
    ensures Reached(start, Unhealthy(s, id, a))
  {
    var s1 := Step(s, Run(id, input));
    Next(start, s, Run(id, input));
    Next(start, s1, Run(id, input.(ok := false)));
    assert Step(s1, Run(id, input.(ok := false))) == Unhealthy(s, id, a);
  }

  function PutBackNow(s: State, id: nat, a: Apply): State {
    Goto(Wrote(s, Write(id, RollbackWrite(a.committedAt), a.beforeAt, PutBack(a.before, a.revision, s.now))), id,
         ApplyRequest(a.(phase := MarkRolledBack, rolledBackAt := |s.history.writes|)))
  }

  lemma RollsBack(start: State, s: State, id: nat, a: Apply, input: Input)
    requires Reached(start, s) && Good(input) && id in s.requests && s.requests[id] == ApplyRequest(a) && a.phase == Rollback
    requires Holds(s.active, a.revision)
    ensures Reached(start, PutBackNow(s, id, a))
  {
    Next(start, s, Run(id, input));
  }

  // ----- a draft committed twice, all within one millisecond

  function Empty(t: int): State {
    State(None, map[], map[], t, 0, map[], History(None, []))
  }

  predicate IdsBelow(s: State, n: nat) {
    forall i :: i in s.requests ==> i < n
  }

  predicate Ready(s: State, d: nat, base: int) {
    d in s.drafts && s.drafts[d].status == Validated && s.drafts[d].base == base
  }

  predicate CommitOf(h: History, k: nat, d: nat) {
    k < |h.writes| && h.writes[k].kind.CommitWrite? && h.writes[k].kind.draft == d
  }

  /** From a commit to the rollback step. */
  lemma ToRollback(start: State, s: State, id: nat, a: Apply, input: Input) returns (t: State)
    requires Reached(start, s) && Good(input) && a.phase == MarkApplied && InPlace(s, id, a)
    ensures Reached(start, t) && t.requests == s.requests[id := ApplyRequest(Rolling(a))] && t.now == s.now && t.seals == s.seals
    ensures Holds(t.active, a.revision) && t.drafts == SetStatus(s, a.draft, Applied).drafts
    ensures |t.history.writes| == |s.history.writes| + 1 && Extends(t.history, s.history) && RowAt(t.history, |t.history.writes|) == t.active
  {
    Attaches(start, s, id, a, input);
    var s1, a1 := Attached(s, id, a, input.overrides), a.(phase := Consume, detached := false);
    FailsHealth(start, s1, id, a1, input);
    t := Unhealthy(s1, id, a1);
  }

  lemma TwoPrepared(t: int, input: Input) returns (s: State)
    requires Good(input)
    ensures Reached(Empty(t), s) && s.now == t && s.active == None && s.history == History(None, []) && IdsBelow(s, 4)
    ensures Ready(s, 0, 0) && Ready(s, 1, 0) && s.seals == 2
  {
    var start := Empty(t);
    ReachedAtOnce(start);
    var s1 := Prepares(start, start, 0, 1, input);
    s := Prepares(start, s1, 2, 3, input);
  }

  lemma FirstRow(t: int, input: Input) returns (s: State, c: Apply)
    requires Good(input)
    ensures Reached(Empty(t), s) && s.now == t && RevisionOf(s.active) == Max(t, 1) && IdsBelow(s, 5)
    ensures s.history.initial == None && |s.history.writes| == 1 && RowAt(s.history, 1) == s.active
    ensures Ready(s, 1, 0) && s.seals == 3
    ensures InPlace(s, 4, c) && c.phase == MarkApplied && c.before == None && c.committedAt == 0 && c.draft == 0
  {
    var s1 := TwoPrepared(t, input);
    s, c := CapturesAndCommits(Empty(t), s1, 4, 0, input);
  }

  /** A first apply puts a row into the empty table and is about to take it away again; draft 1 waits. */
  lemma FirstApply(t: int, input: Input) returns (s: State, x: Apply)
    requires Good(input)
    ensures Reached(Empty(t), s) && s.now == t && RevisionOf(s.active) == Max(t, 1) && |s.history.writes| == 2 && IdsBelow(s, 5)
    ensures Ready(s, 1, 0) && s.seals == 3
    ensures s.history.initial == None && RevisionOf(RowAt(s.history, 1)) == Max(t, 1) && RowAt(s.history, 2) == s.active
    ensures 4 in s.requests && s.requests[4] == ApplyRequest(x)
    ensures x.phase == Rollback && x.before == None && Holds(s.active, x.revision) && x.committedAt == 0
  {
    var s1, c := FirstRow(t, input);
    x := Rolling(c);
    s := ToRollback(Empty(t), s1, 4, c, input);
  }

  /** Draft 1 waits on the empty table, draft 3 on the revision that was there and is gone. */
  lemma TwoDrafts(t: int, input: Input) returns (s: State)
    requires Good(input)
    ensures Reached(Empty(t), s) && s.now == t && s.active == None && |s.history.writes| == 3 && IdsBelow(s, 7)
    ensures Ready(s, 1, 0) && Ready(s, 3, Max(t, 1))
  {
    var start := Empty(t);
    var s1, x := FirstApply(t, input);
    var s2 := Prepares(start, s1, 5, 6, input);
    RollsBack(start, s2, 4, x, input);
    s := PutBackNow(s2, 4, x);
  }

  /** The apply of draft 3 captures no row; then draft 1 is committed, and handed back by a late failure. */
  lemma FirstCommit(t: int, input: Input) returns (s: State, z: Apply)
    requires Good(input)
    ensures Reached(Empty(t), s) && s.now == t && RevisionOf(s.active) == Max(t, 1) && |s.history.writes| == 4 && IdsBelow(s, 9)
    ensures Ready(s, 1, 0) && Ready(s, 3, Max(t, 1)) && CommitOf(s.history, 3, 1)
    ensures 7 in s.requests && s.requests[7] == ApplyRequest(z) && z.phase == ReadDraft && z.before == None && z.draft == 3
  {
    var start := Empty(t);
    var s1 := TwoDrafts(t, input);
    z := Capturing(s1, 3);
    Captures(start, s1, 7, 3, input);
    var s2 := Captured(s1, 7, 3);
    var s3, c := CapturesAndCommits(start, s2, 8, 1, input);
    FailsLate(start, s3, 8, c, input);
    s := HandedBack(s3, 8, c);
  }

  /** The apply of draft 3 goes through and is rolled back to the empty table that it captured. */
  lemma TakenAway(t: int, input: Input) returns (s: State)
    requires Good(input)
    ensures Reached(Empty(t), s) && s.now == t && s.active == None && |s.history.writes| == 7 && IdsBelow(s, 9)
    ensures Ready(s, 1, 0) && CommitOf(s.history, 3, 1)
  {
    var start := Empty(t);
    var s1, z := FirstCommit(t, input);
    var s2, a := Commits(start, s1, 7, z, input);
    var s3 := ToRollback(start, s2, 7, a, input);
    RollsBack(start, s3, 7, Rolling(a), input);
    s := PutBackNow(s3, 7, Rolling(a));
  }

  /** After a late failure, with the row taken away and put in again, draft 1 is committed a second time. */
  lemma DraftCommittedTwice(t: int, input: Input) returns (events: seq<Event>)
    requires Good(input)
    ensures Initial(Empty(t))
    ensures var h := Execution(Empty(t), events).history; CommitOf(h, 3, 1) && CommitOf(h, 7, 1)
  {
    var start := Empty(t);
    var s1 := TakenAway(t, input);
    var s2, _ := CapturesAndCommits(start, s1, 9, 1, input);
    events :| Execution(start, events) == s2;
  }

  // ----- a rolled back row that comes back

  /** A second apply captures the row of a first one; then the first takes its row away again, and time passes. */
  lemma CapturedDoomedRow(t: nat, input: Input) returns (s: State, a: Apply)
    requires Good(input)
    ensures Reached(Empty(t), s) && s.now == t + 2 && s.active == None && |s.history.writes| == 3 && IdsBelow(s, 6)
    ensures RevisionOf(RowAt(s.history, 1)) == RevisionOf(RowAt(s.history, 2)) == Max(t, 1) && RowAt(s.history, 3) == None
    ensures RowAt(s.history, 0) == None && s.history.writes[2].kind == RollbackWrite(0)
    ensures 5 in s.requests && s.requests[5] == ApplyRequest(a) && a.phase == ReadDraft && a.draft == 1 && Ready(s, 1, 0)
    ensures a.before.Some? && a.before == RowAt(s.history, 2)
  {
    var start := Empty(t);
    var s1, x := FirstApply(t, input);
    Captures(start, s1, 5, 1, input);
    var s2 := Captured(s1, 5, 1);
    a := Capturing(s1, 1);
    RollsBack(start, s2, 4, x, input);
    var s3 := PutBackNow(s2, 4, x);
    Next(start, s3, Tick(2));
    s := Step(s3, Tick(2));
  }

  lemma SixFreshWrites(h: History, r: int)
    requires |h.writes| == 6 && h.initial == None && RowAt(h, 3) == None && RowAt(h, 4).Some? && RowAt(h, 5).Some?
    requires RevisionOf(RowAt(h, 1)) == RevisionOf(RowAt(h, 2)) == r && 0 < r < RevisionOf(RowAt(h, 4))
    ensures FreshInsertions(h)
  {
    assert RowAt(h, 1).Some?;
    forall k | 0 <= k < 6 ensures FreshInsertion(h, k) {
      if k == 3 {
        forall i | 0 <= i <= 3 ensures RevisionOf(RowAt(h, i)) < RevisionOf(RowAt(h, 4)) {
          assert i == 0 || i == 1 || i == 2 || i == 3;
        }
      }
    }
  }

  /** Although every insertion has a fresh stamp, the rollback of a commit into the empty table leaves a row: one rolled back before. */
  lemma RollbackRevivesRow(t: nat, input: Input) returns (events: seq<Event>)
    requires Good(input)
    ensures Initial(Empty(t))
    ensures var h := Execution(Empty(t), events).history;
            && |h.writes| == 6 && FreshInsertions(h) && CommitOf(h, 3, 1)
            && h.writes[2].kind == RollbackWrite(0) && h.writes[5].kind == RollbackWrite(3)
            && RowAt(h, 3) == None && PutsBack(RowAt(h, 2), RowAt(h, 5), RowAt(h, 6)) && RowAt(h, 2).Some?
  {
    var start := Empty(t);
    var s1, a := CapturedDoomedRow(t, input);
    var s2, c := Commits(start, s1, 5, a, input);
    var s3 := ToRollback(start, s2, 5, c, input);
    RollsBack(start, s3, 5, Rolling(c), input);
    var s4 := PutBackNow(s3, 5, Rolling(c));
    SixFreshWrites(s4.history, Max(t, 1));
    events :| Execution(start, events) == s4;
  }

  // ----- an override list lost by a rollback

  function Stored(row: Row, t: int): State {
    State(Some(row), map[], map[], t, row.seal + 1, map[], History(Some(row), []))
  }

  predicate Listed(row: Row) {
    F.Has(row.content.config, F.OverridesKey)
  }

  lemma CommitKeepsList(s: State, d: nat, input: Input)
    requires d in s.drafts && s.active.Some?
    ensures Listed(NewRow(s, d, input)) == Listed(s.active.value)
  {
    D.CommittedKey(s.active.value.content, s.drafts[d].material, F.OverridesKey);
  }

  lemma OnePrepared(row: Row, t: int, input: Input) returns (s: State)
    requires Good(input)
    ensures Reached(Stored(row, t), s) && s.active == Some(row) && |s.history.writes| == 0 && IdsBelow(s, 2)
    ensures Ready(s, row.seal + 1, row.revision) && s.seals == row.seal + 2
  {
    ReachedAtOnce(Stored(row, t));
    s := Prepares(Stored(row, t), Stored(row, t), 0, 1, input);
  }

  /** One apply has committed but not yet attached its list. */
  lemma NotYetAttached(row: Row, t: int, input: Input) returns (s: State, a: Apply)
    requires Good(input) && row.revision > 0 && !Listed(row)
    ensures Reached(Stored(row, t), s) && |s.history.writes| == 1 && RowAt(s.history, 1) == s.active
    ensures a.phase == MarkApplied && InPlace(s, 2, a) && !Listed(s.active.value)
    ensures IdsBelow(s, 3) && a.commit < s.seals && a.draft < s.seals
  {
    var s1 := OnePrepared(row, t, input);
    CommitKeepsList(s1, row.seal + 1, input);
    s, a := CapturesAndCommits(Stored(row, t), s1, 2, row.seal + 1, input);
  }

  /** Another apply captures the row in between. */
  lemma CapturedBetween(row: Row, t: int, input: Input) returns (s: State, a: Apply, b: Apply)
    requires Good(input) && row.revision > 0 && !Listed(row)
    ensures Reached(Stored(row, t), s) && |s.history.writes| == 1 && RowAt(s.history, 1) == s.active
    ensures a.phase == MarkApplied && InPlace(s, 2, a) && !Listed(s.active.value)
    ensures 5 in s.requests && s.requests[5] == ApplyRequest(b) && b.phase == ReadDraft && b.before == s.active && b.beforeAt == 1
    ensures b.draft != a.draft && Ready(s, b.draft, a.revision) && a.commit != s.seals
  {
    var start := Stored(row, t);
    var s1;
    s1, a := NotYetAttached(row, t, input);
    var s2 := Prepares(start, s1, 3, 4, input);
    Captures(start, s2, 5, s1.seals, input);
    s, b := Captured(s2, 5, s1.seals), Capturing(s2, s1.seals);
  }

  lemma AttachedIsListed(row: Row, overrides: set<F.Field>)
    ensures var r := row.(content := D.Attached(row.content, overrides));
            Listed(r) && F.OverrideSet(Some(r.content.config)) == overrides
  {
    D.AttachedMeans(row.content, overrides, F.DemoMode, F.OverridesKey);
    F.GetOfPut(row.content.config, F.OverridesKey, F.OverrideList(overrides), F.OverridesKey);
  }

  lemma AttachList(start: State, s: State, a: Apply, input: Input) returns (t: State)
    requires Reached(start, s) && Good(input) && a.phase == MarkApplied && InPlace(s, 2, a)
    ensures Reached(start, t) && Holds(t.active, a.revision)
    ensures Listed(t.active.value) && F.OverrideSet(Some(t.active.value.content.config)) == input.overrides
    ensures t.requests.Keys == s.requests.Keys && forall i :: i in s.requests && i != 2 ==> t.requests[i] == s.requests[i]
    ensures t.drafts.Keys == s.drafts.Keys && forall d :: d in s.drafts && d != a.draft ==> t.drafts[d] == s.drafts[d]
    ensures Extends(t.history, s.history) && |t.history.writes| == |s.history.writes| + 1 && RowAt(t.history, |t.history.writes|) == t.active
  {
    Attaches(start, s, 2, a, input);
    AttachedIsListed(s.active.value, input.overrides);
    t := Attached(s, 2, a, input.overrides);
  }

  /** The list is attached; then the other apply commits over the row that has it. */
  lemma CommittedOverList(row: Row, t: int, input: Input) returns (s: State, b: Apply)
    requires Good(input) && row.revision > 0 && !Listed(row)
    ensures Reached(Stored(row, t), s) && |s.history.writes| == 3
    ensures b.phase == MarkApplied && InPlace(s, 5, b) && b.before.Some? && !Listed(b.before.value) && b.beforeAt == 1 && b.committedAt == 2
    ensures CommitOf(s.history, 2, b.draft) && RowAt(s.history, 1) == b.before
    ensures var replaced := RowAt(s.history, 2);
            replaced.Some? && replaced.value.revision == b.before.value.revision
            && F.OverrideSet(Some(replaced.value.content.config)) == input.overrides && Listed(replaced.value)
  {
    var start := Stored(row, t);
    var s1, a, c := CapturedBetween(row, t, input);
    var s2 := AttachList(start, s1, a, input);
    s, b := Commits(start, s2, 5, c, input);
  }

  /** The row that the commit replaced had the list; the row that the rollback of that commit puts back has none. */
  lemma RollbackLosesOverrideList(row: Row, t: int, input: Input) returns (events: seq<Event>)
    requires Good(input) && row.revision > 0 && !Listed(row)
    ensures Initial(Stored(row, t))
    ensures var h := Execution(Stored(row, t), events).history;
            && |h.writes| == 5 && h.writes[2].kind.CommitWrite? && h.writes[4].kind == RollbackWrite(2)
            && var replaced, restored := RowAt(h, 2), RowAt(h, 5);
               && replaced.Some? && Listed(replaced.value) && F.OverrideSet(Some(replaced.value.content.config)) == input.overrides
               && restored.Some? && !Listed(restored.value)
  {
    var start := Stored(row, t);
    var s1, b := CommittedOverList(row, t, input);
    var s2 := ToRollback(start, s1, 5, b, input);
    RollsBack(start, s2, 5, Rolling(b), input);
    events :| Execution(start, events) == PutBackNow(s2, 5, Rolling(b));
  }
}
