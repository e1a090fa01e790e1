/**
 What holds when a row inserted into the empty table gets a revision above every earlier one, as it does
 whenever the clock has moved on: revisions then rise over the whole history, removals included, and a
 draft is committed at most once whatever fails.
 */
module SettingsFreshStamps {
  import opened Prelude
  import opened SettingsProtocol
  import opened SettingsHistory
  import opened SettingsSafety
  import opened SettingsClaims
  import opened SettingsOnce

  predicate FreshInsertion(h: History, k: nat)
    requires k < |h.writes|
  {
    RowAt(h, k).None? && h.writes[k].after.Some? ==>
      forall i :: 0 <= i <= k ==> RevisionOf(RowAt(h, i)) < h.writes[k].after.value.revision
  }

  predicate FreshInsertions(h: History) {
    forall k :: 0 <= k < |h.writes| ==> FreshInsertion(h, k)
  }

  lemma {:induction false} RevisionsNeverRepeat(h: History, i: nat, j: nat)
    requires HistoryOk(h) && FreshInsertions(h) && i <= j <= |h.writes| && RowAt(h, j).Some?
    ensures RevisionOf(RowAt(h, i)) <= RevisionOf(RowAt(h, j))
    ensures !OnlyAttachments(h, i, j) ==> RevisionOf(RowAt(h, i)) < RevisionOf(RowAt(h, j))
    decreases j - i
  {
    if i < j {
      assert WriteOk(h, j - 1) && FreshInsertion(h, j - 1);
      if RowAt(h, j - 1).Some? {
        RevisionsNeverRepeat(h, i, j - 1);
        assert OnlyAttachments(h, i, j - 1) && h.writes[j - 1].kind.AttachWrite? ==> OnlyAttachments(h, i, j);
      }
    }
  }

  /** One revision, one content, over the whole history. */
  lemma RevisionIdentifiesRowAlways(h: History, i: nat, j: nat)
    requires HistoryOk(h) && FreshInsertions(h) && i <= j <= |h.writes|
    requires RowAt(h, i).Some? && RowAt(h, j).Some? && RowAt(h, i).value.revision == RowAt(h, j).value.revision
    ensures OnlyAttachments(h, i, j) && SameButOverrides(RowAt(h, i).value, RowAt(h, j).value)
  {
    RevisionsNeverRepeat(h, i, j);
    AttachmentsKeepRow(h, i, j);
  }

  lemma UnattachedIsSameAlways(h: History, i: nat, j: nat)
    requires HistoryOk(h) && FreshInsertions(h) && i <= j <= |h.writes| && NoAttachment(h, i, j)
    requires RevisionOf(RowAt(h, i)) == RevisionOf(RowAt(h, j))
    ensures RowAt(h, i) == RowAt(h, j)
  {
    AlwaysPositive(h, i);
    AlwaysPositive(h, j);
    if RowAt(h, i).Some? {
      RevisionIdentifiesRowAlways(h, i, j);
      AttachmentsOrNothing(h, i, j);
    }
  }

  /** A commit or synchronisation that read a row replaces that row, whatever was removed in the meantime. */
  lemma NoUpdateIsEverLost(h: History, k: nat)
    requires HistoryOk(h) && FreshInsertions(h) && k < |h.writes|
    requires h.writes[k].kind.CommitWrite? || h.writes[k].kind.SyncWrite?
    requires h.writes[k].readAt <= k && RowAt(h, h.writes[k].readAt).Some?
    ensures RowAt(h, k).Some? && OnlyAttachments(h, h.writes[k].readAt, k)
    ensures SameButOverrides(RowAt(h, h.writes[k].readAt).value, RowAt(h, k).value)
  {
    assert WriteOk(h, k);
    RevisionIdentifiesRowAlways(h, h.writes[k].readAt, k);
  }

  // ----- a commit and the removal of what it inserted

  /** The next write that leaves no row. */
  lemma {:induction false} NextRemoval(h: History, i: nat, k: nat) returns (j: nat)
    requires i <= k <= |h.writes| && RowAt(h, i).Some? && RowAt(h, k).None?
    ensures i <= j < k && NoRemoval(h, i, j) && h.writes[j].after.None?
    decreases k - i
  {
    if h.writes[i].after.None? {
      j := i;
    } else {
      j := NextRemoval(h, i + 1, k);
    }
  }

  lemma {:induction false} RowsLast(h: History, i: nat, j: nat)
    requires i <= j <= |h.writes| && RowAt(h, i).Some? && NoRemoval(h, i, j)
    ensures RowAt(h, j).Some?
  {
  }

  /** The row a commit inserted can only be taken away by that commit's own rollback. */
  lemma OnlyItsOwnRollbackRemoves(h: History, i: nat, j: nat)
    requires HistoryOk(h) && FreshInsertions(h) && i < j < |h.writes|
    requires h.writes[i].kind.CommitWrite? && RowAt(h, i).None? && NoRemoval(h, i, j) && h.writes[j].after.None?
    ensures h.writes[j].kind == RollbackWrite(i)
  {
    assert WriteOk(h, i) && WriteOk(h, j);
    RowsLast(h, i + 1, j);
    if h.writes[j].kind.RestoreWrite? {
      RevisionIdentifiesRowAlways(h, h.writes[j].kind.putAt + 1, j);
    } else {
      var c := h.writes[j].kind.committedAt;
      RevisionIdentifiesRowAlways(h, c + 1, j);
      if c > i {
        CapturedInLife(h, i, c, j);
      }
    }
  }

  lemma CapturedInLife(h: History, i: nat, c: nat, j: nat)
    requires HistoryOk(h) && FreshInsertions(h) && i < c < j < |h.writes|
    requires RowAt(h, i + 1).Some? && NoRemoval(h, i, j)
    requires h.writes[j].kind == RollbackWrite(c)
    ensures h.writes[j].after.Some?
  {
    assert WriteOk(h, c) && WriteOk(h, j);
    var baseAt, readAt := h.writes[c].kind.baseAt, h.writes[j].readAt;
    RowsLast(h, i + 1, c);
    AlwaysPositive(h, c);
    RevisionIdentifiesRowAlways(h, baseAt, c);
    AttachmentsKeepRow(h, baseAt, readAt);
  }

  /**
   A rollback takes back exactly its own commit, and it puts back what that commit replaced exactly when
   the captured row has the draft's base revision.
   */
  lemma RollbackRestoresExactly(h: History, k: nat)
    requires HistoryOk(h) && FreshInsertions(h) && k < |h.writes| && h.writes[k].kind.RollbackWrite?
    ensures var c := h.writes[k].kind.committedAt;
            && h.writes[k].readAt <= c < k && h.writes[c].kind.CommitWrite? && OnlyAttachments(h, c + 1, k)
            && (SameRow(RowAt(h, h.writes[k].readAt), RowAt(h, c)) <==> RevisionOf(RowAt(h, h.writes[k].readAt)) == h.writes[c].kind.base)
  {
    var c, readAt := h.writes[k].kind.committedAt, h.writes[k].readAt;
    assert WriteOk(h, k) && WriteOk(h, c);
    RevisionIdentifiesRowAlways(h, c + 1, k);
    AlwaysPositive(h, readAt);
    AlwaysPositive(h, c);
    if RowAt(h, c).Some? && RevisionOf(RowAt(h, readAt)) == h.writes[c].kind.base {
      RevisionIdentifiesRowAlways(h, readAt, c);
    }
  }

  // ----- no commit follows a rollback of the same draft

  predicate RollsBack(h: History, j: nat)
    requires j < |h.writes|
  {
    h.writes[j].kind.RollbackWrite? && h.writes[j].kind.committedAt < j && h.writes[h.writes[j].kind.committedAt].kind.CommitWrite?
  }

  function RolledDraft(h: History, j: nat): nat
    requires j < |h.writes| && RollsBack(h, j)
  {
    h.writes[h.writes[j].kind.committedAt].kind.draft
  }

  predicate Closed(s: State, d: nat) {
    d in s.drafts && Settled(s.drafts[d].status) && Unclaimed(s, d)
  }

  predicate NotAfter(h: History, j: nat, k: nat)
    requires j < |h.writes| && k < |h.writes|
  {
    RollsBack(h, j) ==> !IsCommitOf(h.writes[k], RolledDraft(h, j))
  }

  predicate Quits(s: State) {
    && (forall j :: 0 <= j < |s.history.writes| && RollsBack(s.history, j) ==> Closed(s, RolledDraft(s.history, j)))
    && (forall j, k :: 0 <= j < k < |s.history.writes| ==> NotAfter(s.history, j, k))
  }

  lemma ClosedStays(s: State, e: Event, d: nat)
    requires Sound(s) && Claims(s) && Closed(s, d)
    ensures Closed(Step(s, e), d)
  {
    StepLasts(s, e, d);
    NobodyClaimsSettled(s, e, d);
  }

  /** The rolling back request itself has settled its draft, and nobody else holds it. */
  lemma RollbackCloses(s: State, id: nat, d: nat)
    requires Claims(s) && id in s.requests && s.requests[id].ApplyRequest? && AfterCommit(s.requests[id].a.phase)
    requires s.requests[id].a.draft == d
    ensures Closed(s, d)
  {
    assert ClaimOk(s.drafts, s.requests[id]);
    forall other | other in s.requests && s.requests[other].ApplyRequest? && InClaim(s.requests[other].a.phase)
      ensures s.requests[other].a.draft != d
    {
      assert Involved(s.requests[other]) && Involved(s.requests[id]) && other != id;
    }
  }

  lemma AppliedRollback(s: State, id: nat, a: Apply, input: Input)
    requires id in s.requests && s.requests[id] == ApplyRequest(a) && AfterCommit(a.phase)
    ensures var next := AppliedStep(s, id, a, input);
            |next.history.writes| > |s.history.writes| && next.history.writes[|s.history.writes|].kind.RollbackWrite? ==>
              next.history.writes[|s.history.writes|].kind.committedAt == a.committedAt
  {
  }

  lemma ClaimedNoRollback(s: State, id: nat, a: Apply, input: Input)
    requires InClaim(a.phase)
    ensures var next := ClaimedStep(s, id, a, input);
            |next.history.writes| > |s.history.writes| ==> !next.history.writes[|s.history.writes|].kind.RollbackWrite?
  {
  }

  lemma OthersNoRollback(s: State, id: nat, r: Request, input: Input)
    requires id in s.requests && s.requests[id] == r && !r.ApplyRequest?
    ensures var next := RequestStep(s, id, r, input);
            |next.history.writes| > |s.history.writes| ==> !next.history.writes[|s.history.writes|].kind.RollbackWrite?
  {
    if IsPut(r) {
      assert var next := PutStep(s, id, r, input);
             |next.history.writes| > |s.history.writes| ==> !next.history.writes[|s.history.writes|].kind.RollbackWrite?;
    } else if OnDrafts(r) {
      assert DraftStep(s, id, r, input).history == s.history;
    } else {
      assert var next := SyncStep(s, id, r, input);
             |next.history.writes| > |s.history.writes| ==> !next.history.writes[|s.history.writes|].kind.RollbackWrite?;
    }
  }

  /** A rollback is written only by a request past its commit, and names that commit. */
  lemma RollbacksComeFromApplies(s: State, e: Event)
    requires e.Run? && e.id in s.requests && |Step(s, e).history.writes| > |s.history.writes|
    requires Step(s, e).history.writes[|s.history.writes|].kind.RollbackWrite?
    ensures s.requests[e.id].ApplyRequest? && AfterCommit(s.requests[e.id].a.phase)
    ensures Step(s, e).history.writes[|s.history.writes|].kind.committedAt == s.requests[e.id].a.committedAt
  {
    var r := s.requests[e.id];
    if !r.ApplyRequest? {
      OthersNoRollback(s, e.id, r, e.input);
    } else if InClaim(r.a.phase) {
      ClaimedNoRollback(s, e.id, r.a, e.input);
    } else if AfterCommit(r.a.phase) {
      AppliedRollback(s, e.id, r.a, e.input);
    }
  }

  lemma NewRollbackCloses(s: State, e: Event)
    requires Sound(s) && Claims(s) && e.Run? && e.id in s.requests && OneWrite(s, Step(s, e), e.id)
    requires RollsBack(Step(s, e).history, |s.history.writes|)
    ensures Closed(Step(s, e), RolledDraft(Step(s, e).history, |s.history.writes|))
  {
    RollbacksComeFromApplies(s, e);
    RequestStands(s, e.id);
    var a := s.requests[e.id].a;
    assert Step(s, e).history.writes[a.committedAt] == s.history.writes[a.committedAt];
    RollbackCloses(s, e.id, a.draft);
    ClosedStays(s, e, a.draft);
  }

  lemma OldRollbackStaysClosed(s: State, e: Event, j: nat)
    requires Sound(s) && Claims(s) && Quits(s) && j < |s.history.writes| && Extends(Step(s, e).history, s.history)
    requires RollsBack(Step(s, e).history, j)
    ensures RollsBack(s.history, j) && RolledDraft(s.history, j) == RolledDraft(Step(s, e).history, j)
    ensures Closed(Step(s, e), RolledDraft(Step(s, e).history, j))
  {
    var c := Step(s, e).history.writes[j].kind.committedAt;
    assert Step(s, e).history.writes[j] == s.history.writes[j] && Step(s, e).history.writes[c] == s.history.writes[c];
    ClosedStays(s, e, RolledDraft(s.history, j));
  }

  /** With one more write, no commit follows a rollback of its draft. */
  lemma StillNotAfter(s: State, next: State, id: nat, j: nat, k: nat)
    requires Quits(s) && OneWrite(s, next, id) && j < k < |next.history.writes|
    ensures NotAfter(next.history, j, k)
  {
    if RollsBack(next.history, j) {
      var c := next.history.writes[j].kind.committedAt;
      assert next.history.writes[j] == s.history.writes[j] && next.history.writes[c] == s.history.writes[c];
      assert RollsBack(s.history, j) && RolledDraft(s.history, j) == RolledDraft(next.history, j);
      if k < |s.history.writes| {
        assert NotAfter(s.history, j, k) && next.history.writes[k] == s.history.writes[k];
      } else if next.history.writes[k].kind.CommitWrite? {
        assert Unclaimed(s, RolledDraft(s.history, j));
      }
    }
  }

  lemma RollbackClosed(s: State, e: Event, j: nat)
    requires Sound(s) && Claims(s) && Quits(s) && j < |Step(s, e).history.writes| && RollsBack(Step(s, e).history, j)
    ensures Closed(Step(s, e), RolledDraft(Step(s, e).history, j))
  {
    HistoryGrows(s, e);
    if j < |s.history.writes| {
      OldRollbackStaysClosed(s, e, j);
    } else {
      WritesComeSingly(s, e);
      assert j == |s.history.writes|;
      NewRollbackCloses(s, e);
    }
  }

  lemma HistoryGrows(s: State, e: Event)
    ensures Extends(Step(s, e).history, s.history)
  {
    WritesComeSingly(s, e);
  }

  lemma NoCommitAfterRollback(s: State, e: Event, j: nat, k: nat)
    requires Quits(s) && j < k < |Step(s, e).history.writes|
    ensures NotAfter(Step(s, e).history, j, k)
  {
    WritesComeSingly(s, e);
    if Step(s, e).history == s.history {
      assert NotAfter(s.history, j, k);
    } else {
      StillNotAfter(s, Step(s, e), e.id, j, k);
    }
  }

  lemma StepQuits(s: State, e: Event)
    requires Sound(s) && Claims(s) && Quits(s)
    ensures Quits(Step(s, e))
  {
    forall j | 0 <= j < |Step(s, e).history.writes| && RollsBack(Step(s, e).history, j)
      ensures Closed(Step(s, e), RolledDraft(Step(s, e).history, j))
    {
      RollbackClosed(s, e, j);
    }
    forall j, k | 0 <= j < k < |Step(s, e).history.writes| ensures NotAfter(Step(s, e).history, j, k) {
      NoCommitAfterRollback(s, e, j, k);
    }
  }

  lemma {:induction false} AlwaysQuits(s: State, events: seq<Event>)
    requires Initial(s)
    ensures Quits(Execution(s, events))
    decreases |events|
  {
    if events != [] {
      AlwaysQuits(s, events[..|events| - 1]);
      AlwaysSound(s, events[..|events| - 1]);
      AlwaysClaims(s, events[..|events| - 1]);
      StepQuits(Execution(s, events[..|events| - 1]), events[|events| - 1]);
    }
  }

  // ----- at most one commit, whatever fails

  lemma CommitsOfOneDraft(h: History, i: nat, k: nat)
    requires HistoryOk(h) && FreshInsertions(h) && i < k < |h.writes|
    requires h.writes[i].kind.CommitWrite? && h.writes[k].kind.CommitWrite? && h.writes[i].kind.base == h.writes[k].kind.base
    ensures RowAt(h, i).None? && RowAt(h, k).None?
  {
    assert WriteOk(h, i) && WriteOk(h, k);
    AlwaysPositive(h, i);
    AlwaysPositive(h, k);
    if RowAt(h, k).Some? {
      RevisionsNeverRepeat(h, i, k);
    }
  }

  /** Between two commits from the same base lies a rollback of the first, so they are not of one draft. */
  lemma DraftsOfSameBaseDiffer(h: History, i: nat, k: nat)
    requires HistoryOk(h) && FreshInsertions(h) && i < k < |h.writes|
    requires forall j :: i < j < k ==> NotAfter(h, j, k)
    requires h.writes[i].kind.CommitWrite? && h.writes[k].kind.CommitWrite? && h.writes[i].kind.base == h.writes[k].kind.base
    ensures h.writes[i].kind.draft != h.writes[k].kind.draft
  {
    CommitsOfOneDraft(h, i, k);
    assert WriteOk(h, i);
    var j := NextRemoval(h, i + 1, k);
    OnlyItsOwnRollbackRemoves(h, i, j);
    assert RollsBack(h, j) && RolledDraft(h, j) == h.writes[i].kind.draft;
    assert NotAfter(h, j, k);
  }

  /** With fresh stamps every draft is committed at most once, in every run, late failures and removals included. */
  lemma CommittedOnceWithFreshStamps(s: State, events: seq<Event>, i: nat, k: nat, d: nat)
    requires Initial(s) && FreshInsertions(Execution(s, events).history)
    requires i <= k < |Execution(s, events).history.writes|
    requires IsCommitOf(Execution(s, events).history.writes[i], d) && IsCommitOf(Execution(s, events).history.writes[k], d)
    ensures i == k
  {
    var now := Execution(s, events);
    AlwaysSound(s, events);
    AlwaysQuits(s, events);
    assert Owned(now, now.history.writes[i]) && Owned(now, now.history.writes[k]);
    if i < k {
      assert forall j :: i < j < k ==> NotAfter(now.history, j, k);
      DraftsOfSameBaseDiffer(now.history, i, k);
    }
  }
}
