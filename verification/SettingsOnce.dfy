/**
 A draft reaches the settings row at most once: always while the row is not removed, and altogether in
 runs where nothing fails between a commit and the draft being marked applied.
 */
module SettingsOnce {
  import opened Prelude
  import F = SettingsFields
  import opened SettingsProtocol
  import opened SettingsHistory
  import opened SettingsSafety
  import opened SettingsClaims

  /**
   What decides whether a draft is committed, the first time or again: a commit batch that does not fail
   writes exactly when the row in place, or its absence, has the draft's base revision.
   */
  lemma CommitsExactly(s: State, events: seq<Event>, id: nat, a: Apply, input: Input)
    requires Initial(s) && id in Execution(s, events).requests && Execution(s, events).requests[id] == ApplyRequest(a)
    requires a.phase.WriteBatch? && !input.fails
    ensures a.draft in Execution(s, events).drafts
    ensures var now, next := Execution(s, events), Execution(s, events + [Run(id, input)]);
            var written := |next.history.writes| > |now.history.writes|;
            && (written <==> RevisionOf(now.active) == now.drafts[a.draft].base)
            && (written ==> |next.history.writes| == |now.history.writes| + 1 && IsCommitOf(next.history.writes[|now.history.writes|], a.draft))
  {
    var now := Execution(s, events);
    AlwaysSound(s, events);
    CommitFindsBase(now, id, a);
    CommitGrows(now, id, a, input);
    LastStep(s, events, [Run(id, input)]);
    assert events + [] == events;
  }

  lemma CommitFindsBase(s: State, id: nat, a: Apply)
    requires Sound(s) && id in s.requests && s.requests[id] == ApplyRequest(a) && a.phase.WriteBatch?
    ensures a.draft in s.drafts && (CommitTakesEffect(s.active, a.current) <==> RevisionOf(s.active) == s.drafts[a.draft].base)
  {
    RequestStands(s, id);
    AlwaysPositive(s.history, a.currentAt);
    AlwaysPositive(s.history, |s.history.writes|);
  }

  lemma CommitGrows(s: State, id: nat, a: Apply, input: Input)
    requires id in s.requests && s.requests[id] == ApplyRequest(a) && a.phase.WriteBatch? && !input.fails
    ensures var now, next := s.history, Step(s, Run(id, input)).history;
            && (|next.writes| > |now.writes| <==> CommitTakesEffect(s.active, a.current))
            && (|next.writes| > |now.writes| ==> |next.writes| == |now.writes| + 1 && IsCommitOf(next.writes[|now.writes|], a.draft))
  {
    assert Step(s, Run(id, input)) == CommitBatch(s, id, a, input);
  }

  /** A failure that strikes between a commit and the draft being marked applied. */
  predicate LateFailure(s: State, e: Event) {
    e.Run? && e.input.fails && e.id in s.requests && s.requests[e.id].ApplyRequest? && s.requests[e.id].a.phase.MarkApplied?
  }

  predicate NoLateFailure(s: State, events: seq<Event>)
    decreases |events|
  {
    events == [] || (NoLateFailure(s, events[..|events| - 1]) && !LateFailure(Execution(s, events[..|events| - 1]), events[|events| - 1]))
  }

  predicate Unclaimed(s: State, d: nat) {
    forall id :: id in s.requests && s.requests[id].ApplyRequest? && InClaim(s.requests[id].a.phase) ==> s.requests[id].a.draft != d
  }

  /** A committed draft is about to be marked, or settled and out of reach of further claims. */
  predicate Spent(s: State, k: nat)
    requires k < |s.history.writes|
  {
    s.history.writes[k].kind.CommitWrite? ==>
      && s.history.writes[k].kind.draft in s.drafts
      && (AboutToMark(s, k) || (Settled(s.drafts[s.history.writes[k].kind.draft].status) && Unclaimed(s, s.history.writes[k].kind.draft)))
  }

  predicate DistinctCommits(h: History, i: nat, k: nat)
    requires i < |h.writes| && k < |h.writes|
  {
    h.writes[i].kind.CommitWrite? && h.writes[k].kind.CommitWrite? ==> h.writes[i].kind.draft != h.writes[k].kind.draft
  }

  predicate Once(s: State) {
    && (forall k :: 0 <= k < |s.history.writes| ==> Spent(s, k))
    && (forall i, k :: 0 <= i < k < |s.history.writes| ==> DistinctCommits(s.history, i, k))
  }

  lemma SpentStays(s: State, e: Event, k: nat)
    requires Sound(s) && Claims(s) && k < |s.history.writes| && Spent(s, k) && !LateFailure(s, e)
    requires Extends(Step(s, e).history, s.history)
    ensures Spent(Step(s, e), k)
  {
    var next, w := Step(s, e), s.history.writes[k];
    if w.kind.CommitWrite? {
      var d := w.kind.draft;
      StepLasts(s, e, d);
      if AboutToMark(s, k) {
        if e.Run? && e.id == w.owner {
          MarkingSettles(s, e.id, s.requests[e.id].a, e.input);
          OwnerWasAlone(s, e, d);
        } else {
          StrangersStay(s, e, w.owner);
        }
      } else {
        NobodyClaimsSettled(s, e, d);
      }
    }
  }

  /** Marking a committed draft applied, undisturbed. */
  lemma MarkingSettles(s: State, id: nat, a: Apply, input: Input)
    requires id in s.requests && s.requests[id] == ApplyRequest(a) && a.phase.MarkApplied? && !input.fails && a.draft in s.drafts
    ensures var next := ApplyStep(s, id, a, input);
            && next.drafts[a.draft].status == Applied
            && next.requests == s.requests[id := ApplyRequest(a.(phase := Attach))]
  {
  }

  lemma OwnerWasAlone(s: State, e: Event, d: nat)
    requires Claims(s) && e.Run? && e.id in s.requests && InvolvedOn(s.requests[e.id], d)
    requires Step(s, e).requests == s.requests[e.id := Step(s, e).requests[e.id]]
    requires e.id in Step(s, e).requests && Step(s, e).requests[e.id].ApplyRequest? && !InClaim(Step(s, e).requests[e.id].a.phase)
    ensures Unclaimed(Step(s, e), d)
  {
  }

  lemma NobodyClaimsSettled(s: State, e: Event, d: nat)
    requires d in s.drafts && Settled(s.drafts[d].status) && Unclaimed(s, d)
    ensures Unclaimed(Step(s, e), d)
  {
    var next := Step(s, e);
    forall id | id in next.requests && next.requests[id].ApplyRequest? && InClaim(next.requests[id].a.phase)
      ensures next.requests[id].a.draft != d
    {
      if NewClaim(s, next, id) {
        ClaimsComeFromOpen(s, e, id);
      }
    }
  }

  /** A request about to commit holds a draft no earlier commit has used. */
  lemma FirstCommit(s: State, id: nat, k: nat)
    requires Claims(s) && k < |s.history.writes| && Spent(s, k) && s.history.writes[k].kind.CommitWrite?
    requires id in s.requests && s.requests[id].ApplyRequest? && s.requests[id].a.phase.WriteBatch?
    ensures s.history.writes[k].kind.draft != s.requests[id].a.draft
  {
    if AboutToMark(s, k) {
      var owner := s.history.writes[k].owner;
      assert Involved(s.requests[owner]) && Involved(s.requests[id]) && owner != id;
    }
  }

  lemma NewestIsSpent(s: State, next: State, id: nat)
    requires id in next.requests && RequestSound(next.history, next.drafts, id, next.requests[id]) && OneWrite(s, next, id)
    ensures Spent(next, |s.history.writes|)
  {
  }

  lemma AllDistinct(s: State, next: State, id: nat, i: nat, k: nat)
    requires Claims(s) && Once(s) && OneWrite(s, next, id) && i < k < |next.history.writes|
    ensures DistinctCommits(next.history, i, k)
  {
    assert next.history.writes[i] == s.history.writes[i];
    if k < |s.history.writes| {
      assert DistinctCommits(s.history, i, k) && next.history.writes[k] == s.history.writes[k];
    } else if s.history.writes[i].kind.CommitWrite? && next.history.writes[k].kind.CommitWrite? {
      FirstCommit(s, id, i);
    }
  }

  /** After one more write the commits are still spent and distinct. */
  lemma OnceGrows(s: State, next: State, id: nat)
    requires Claims(s) && Once(s) && OneWrite(s, next, id)
    requires id in next.requests && RequestSound(next.history, next.drafts, id, next.requests[id])
    requires forall k :: 0 <= k < |s.history.writes| ==> Spent(next, k)
    ensures Once(next)
  {
    NewestIsSpent(s, next, id);
    forall i, k | 0 <= i < k < |next.history.writes| ensures DistinctCommits(next.history, i, k) {
      AllDistinct(s, next, id, i, k);
    }
  }

  lemma OnceRests(s: State, next: State)
    requires Once(s) && next.history == s.history
    requires forall k :: 0 <= k < |s.history.writes| ==> Spent(next, k)
    ensures Once(next)
  {
    forall i, k | 0 <= i < k < |next.history.writes| ensures DistinctCommits(next.history, i, k) {
      assert DistinctCommits(s.history, i, k);
    }
  }

  lemma StepOnce(s: State, e: Event)
    requires Sound(s) && Claims(s) && Once(s) && !LateFailure(s, e)
    ensures Once(Step(s, e))
  {
    WritesComeSingly(s, e);
    forall k | 0 <= k < |s.history.writes| ensures Spent(Step(s, e), k) {
      SpentStays(s, e, k);
    }
    if Step(s, e).history == s.history {
      OnceRests(s, Step(s, e));
    } else {
      StepSound(s, e);
      RunnerStays(s, e);
      RequestStands(Step(s, e), e.id);
      OnceGrows(s, Step(s, e), e.id);
    }
  }

  lemma RunnerStays(s: State, e: Event)
    requires e.Run? && e.id in s.requests
    ensures e.id in Step(s, e).requests
  {
    if s.requests[e.id].ApplyRequest? {
      ApplyMovesItself(s, e.id, s.requests[e.id].a, e.input);
    } else {
      OthersMoveThemselves(s, e.id, e.input);
    }
  }

  lemma {:induction false} AlwaysOnce(s: State, events: seq<Event>)
    requires Initial(s) && NoLateFailure(s, events)
    ensures Once(Execution(s, events))
    decreases |events|
  {
    if events != [] {
      AlwaysOnce(s, events[..|events| - 1]);
      AlwaysSound(s, events[..|events| - 1]);
      AlwaysClaims(s, events[..|events| - 1]);
      StepOnce(Execution(s, events[..|events| - 1]), events[|events| - 1]);
    }
  }

  /**
   Without a late failure a draft is committed at most once, whatever else happens to the row, and a
   draft that ends up cancelled never is.
   */
  lemma CommittedAtMostOnce(s: State, events: seq<Event>, i: nat, k: nat, d: nat)
    requires Initial(s) && NoLateFailure(s, events)
    requires i < |Execution(s, events).history.writes| && IsCommitOf(Execution(s, events).history.writes[i], d)
    ensures k < |Execution(s, events).history.writes| && IsCommitOf(Execution(s, events).history.writes[k], d) ==> k == i
    ensures d in Execution(s, events).drafts && Execution(s, events).drafts[d].status != Cancelled
  {
    var now := Execution(s, events);
    AlwaysOnce(s, events);
    AlwaysClaims(s, events);
    assert Spent(now, i);
    if k < |now.history.writes| && k != i {
      assert if k < i then DistinctCommits(now.history, k, i) else DistinctCommits(now.history, i, k);
    }
    if AboutToMark(now, i) {
      assert ClaimOk(now.drafts, now.requests[now.history.writes[i].owner]);
    }
  }

  /** A draft that is cancelled is not committed from then on, in any run. */
  lemma {:induction false} CancelledNeverCommits(s: State, events: seq<Event>, later: seq<Event>, d: nat, k: nat)
    requires Initial(s) && d in Execution(s, events).drafts && Execution(s, events).drafts[d].status == Cancelled
    ensures |Execution(s, events).history.writes| <= k < |Execution(s, events + later).history.writes| ==>
              !IsCommitOf(Execution(s, events + later).history.writes[k], d)
    decreases |later|
  {
    if later == [] {
      assert events + later == events;
    } else {
      var earlier, last := later[..|later| - 1], later[|later| - 1];
      CancelledNeverCommits(s, events, earlier, d, k);
      CancelledIsFinal(s, events, earlier, d);
      AlwaysClaims(s, events + earlier);
      LastStep(s, events, later);
      if k < |Execution(s, events + later).history.writes| {
        NoCommitOfCancelled(Execution(s, events + earlier), last, d, k);
      }
    }
  }

  lemma NoCommitOfCancelled(s: State, e: Event, d: nat, k: nat)
    requires e.Run? && e.id in s.requests ==> ClaimOk(s.drafts, s.requests[e.id])
    requires d in s.drafts && s.drafts[d].status == Cancelled && k < |Step(s, e).history.writes|
    ensures IsCommitOf(Step(s, e).history.writes[k], d) ==> k < |s.history.writes| && IsCommitOf(s.history.writes[k], d)
  {
    NewCommitIsClaimed(s, e, k);
  }

  /** A step leaves the writes before it, and a commit it adds is that of the claim it runs. */
  lemma NewCommitIsClaimed(s: State, e: Event, k: nat)
    requires k < |Step(s, e).history.writes|
    ensures k < |s.history.writes| ==> Step(s, e).history.writes[k] == s.history.writes[k]
    ensures k >= |s.history.writes| && Step(s, e).history.writes[k].kind.CommitWrite? ==>
              && e.Run? && e.id in s.requests && s.requests[e.id].ApplyRequest? && InClaim(s.requests[e.id].a.phase)
              && s.requests[e.id].a.draft == Step(s, e).history.writes[k].kind.draft
  {
    WritesComeSingly(s, e);
  }
}
