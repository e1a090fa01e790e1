/**
 Bulk user operations: the list is normalised and then worked off by up to three workers that
 share one cursor. A worker reads and advances the cursor without being interrupted, runs the
 action on its user, and stores the result at the user's index when the action returns.
 */
module BulkPool {
  import opened Prelude
  import opened Text

  const MAX_BULK_USERS: nat := 50
  const BULK_CONCURRENCY: nat := 3
  const MAX_UID_LENGTH: nat := 160

  // ----- normalisation

  predicate IsUidChar(c: char) {
    'A' <= c <= 'Z' || 'a' <= c <= 'z' || '0' <= c <= '9'
    || c == '_' || c == '.' || c == '@' || c == '$' || c == '-'
  }

  predicate IsUid(s: string) {
    0 < |s| <= MAX_UID_LENGTH && forall i :: 0 <= i < |s| ==> IsUidChar(s[i])
  }

  /** The login an entry stands for, before it is checked. */
  function Candidates(raws: seq<string>): (uids: seq<string>)
    ensures |uids| == |raws| && forall i :: 0 <= i < |raws| ==> uids[i] == Trim(raws[i])
  {
    seq(|raws|, i requires 0 <= i < |raws| => Trim(raws[i]))
  }

  /** The distinct users among the first `i` entries, in order of first occurrence. */
  function UsersUpTo(uids: seq<string>, i: nat): seq<string>
    requires i <= |uids|
  {
    if i == 0 then []
    else
      var before := UsersUpTo(uids, i - 1);
      var uid := uids[i - 1];
      if uid in before then before else before + [uid]
  }

  function UsersOf(uids: seq<string>): seq<string> {
    UsersUpTo(uids, |uids|)
  }

  predicate ValidUpTo(uids: seq<string>, i: nat) {
    i <= |uids| && forall k :: 0 <= k < i ==> IsUid(uids[k])
  }

  /** Entry `i` is not a login, and no error was due before it. */
  predicate InvalidAt(uids: seq<string>, i: nat) {
    i < |uids| && ValidUpTo(uids, i) && |UsersUpTo(uids, i)| <= MAX_BULK_USERS && !IsUid(uids[i])
  }

  /** The first `i` entries are logins but name too many users. */
  predicate OverflowsAt(uids: seq<string>, i: nat) {
    ValidUpTo(uids, i) && |UsersUpTo(uids, i)| > MAX_BULK_USERS
  }

  predicate HasInvalid(uids: seq<string>) {
    exists i :: 0 <= i < |uids| && InvalidAt(uids, i)
  }

  predicate HasOverflow(uids: seq<string>) {
    exists i :: 0 <= i <= |uids| && OverflowsAt(uids, i)
  }

  datatype Normalized = Users(users: seq<string>) | InvalidUid | TooMany | NoUsers

  /** The loop state after `i` entries. */
  ghost predicate Collected(uids: seq<string>, i: nat, result: seq<string>, seen: set<string>) {
    && ValidUpTo(uids, i) && result == UsersUpTo(uids, i) && |result| <= MAX_BULK_USERS
    && forall u :: u in seen <==> u in result
  }

  lemma CollectUser(uids: seq<string>, i: nat, result: seq<string>, seen: set<string>)
    requires i < |uids| && Collected(uids, i, result, seen) && IsUid(uids[i])
    ensures uids[i] in seen ==> Collected(uids, i + 1, result, seen)
    ensures uids[i] !in seen && |result| < MAX_BULK_USERS ==> Collected(uids, i + 1, result + [uids[i]], seen + {uids[i]})
    ensures uids[i] !in seen && |result| == MAX_BULK_USERS ==> OverflowsAt(uids, i + 1)
  {
  }

  /** The entries are trimmed one by one as the loop reaches them; the outcome is the same either way. */
  method NormalizeUsers(raws: seq<string>) returns (r: Normalized)
    ensures r.NoUsers? <==> raws == []
    ensures r.InvalidUid? <==> HasInvalid(Candidates(raws))
    ensures r.TooMany? <==> HasOverflow(Candidates(raws))
    ensures r.Users? ==> ValidUpTo(Candidates(raws), |raws|) && r.users == UsersOf(Candidates(raws)) && 1 <= |r.users| <= MAX_BULK_USERS
  {
    r := CollectUsers(Candidates(raws));
  }

  method CollectUsers(uids: seq<string>) returns (r: Normalized)
    ensures r.NoUsers? <==> uids == []
    ensures r.InvalidUid? <==> HasInvalid(uids)
    ensures r.TooMany? <==> HasOverflow(uids)
    ensures r.Users? ==> ValidUpTo(uids, |uids|) && r.users == UsersOf(uids) && 1 <= |r.users| <= MAX_BULK_USERS
  {
    var result: seq<string> := [];
    var seen: set<string> := {};
    var i := 0;
    while i < |uids|
      invariant 0 <= i <= |uids|
      invariant Collected(uids, i, result, seen)
    {
      var uid := uids[i];
      if !IsUid(uid) {
        InvalidEntryWins(uids, i);
        return InvalidUid;
      }
      CollectUser(uids, i, result, seen);
      if uid !in seen {
        seen := seen + {uid};
        result := result + [uid];
        if |result| > MAX_BULK_USERS {
          OverflowWins(uids, i + 1);
          return TooMany;
        }
      }
      i := i + 1;
    }
    NoError(uids);
    if result == [] {
      return NoUsers;
    }
    r := Users(result);
  }

  lemma {:induction false} FewerBefore(uids: seq<string>, i: nat, k: nat)
    requires k <= i <= |uids|
    ensures |UsersUpTo(uids, k)| <= |UsersUpTo(uids, i)|
  {
    if k < i {
      FewerBefore(uids, i - 1, k);
    }
  }

  lemma InvalidEntryWins(uids: seq<string>, i: nat)
    requires InvalidAt(uids, i)
    ensures HasInvalid(uids) && !HasOverflow(uids)
  {
    forall k: nat ensures !OverflowsAt(uids, k) {
      if k <= i { FewerBefore(uids, i, k); }
    }
  }

  lemma OverflowWins(uids: seq<string>, i: nat)
    requires OverflowsAt(uids, i)
    ensures HasOverflow(uids) && !HasInvalid(uids)
  {
    forall k: nat ensures !InvalidAt(uids, k) {
      if i <= k < |uids| { FewerBefore(uids, k, i); }
    }
  }

  lemma NoError(uids: seq<string>)
    requires ValidUpTo(uids, |uids|) && |UsersOf(uids)| <= MAX_BULK_USERS
    ensures !HasInvalid(uids) && !HasOverflow(uids)
    ensures uids != [] ==> UsersOf(uids) != []
  {
    forall k: nat ensures !OverflowsAt(uids, k) {
      if k <= |uids| { FewerBefore(uids, |uids|, k); }
    }
    if uids != [] {
      FewerBefore(uids, |uids|, 1);
      assert UsersUpTo(uids, 1) == UsersUpTo(uids, 0) + [uids[0]];
    }
  }

  predicate NoRepeats(s: seq<string>) {
    forall i, j :: 0 <= i < j < |s| ==> s[i] != s[j]
  }

  lemma NoRepeatsWith(s: seq<string>, u: string)
    requires NoRepeats(s) && u !in s
    ensures NoRepeats(s + [u])
  {
    assert forall i :: 0 <= i < |s| ==> s[i] in s && (s + [u])[i] == s[i];
  }

  /** No user occurs twice, and none is lost or invented. */
  lemma {:induction false} UsersAreDistinct(uids: seq<string>, n: nat)
    requires n <= |uids|
    ensures NoRepeats(UsersUpTo(uids, n))
    ensures forall u :: u in UsersUpTo(uids, n) <==> u in uids[..n]
  {
    if n > 0 {
      UsersAreDistinct(uids, n - 1);
      var before, u := UsersUpTo(uids, n - 1), uids[n - 1];
      assert uids[..n] == uids[..n - 1] + [u];
      if u !in before {
        NoRepeatsWith(before, u);
      }
    }
  }

  predicate ComesBefore(users: seq<string>, u: string, v: string) {
    exists i, j :: 0 <= i < j < |users| && users[i] == u && users[j] == v
  }

  lemma ComesBeforeLonger(users: seq<string>, longer: seq<string>, u: string, v: string)
    requires ComesBefore(users, u, v) && users <= longer
    ensures ComesBefore(longer, u, v)
  {
    var i, j :| 0 <= i < j < |users| && users[i] == u && users[j] == v;
    assert longer[i] == u && longer[j] == v;
  }

  lemma ComesLast(users: seq<string>, u: string, v: string)
    requires u in users
    ensures ComesBefore(users + [v], u, v)
  {
    var i :| 0 <= i < |users| && users[i] == u;
    assert (users + [v])[i] == u && (users + [v])[|users|] == v;
  }

  /** Users keep the order of their first occurrences. */
  lemma {:induction false} UsersInOrder(uids: seq<string>, n: nat, a: nat, b: nat)
    requires a < b < n <= |uids|
    requires uids[a] !in UsersUpTo(uids, a) && uids[b] !in UsersUpTo(uids, b)
    ensures ComesBefore(UsersUpTo(uids, n), uids[a], uids[b])
  {
    var before := UsersUpTo(uids, n - 1);
    if b < n - 1 {
      UsersInOrder(uids, n - 1, a, b);
      ComesBeforeLonger(before, UsersUpTo(uids, n), uids[a], uids[b]);
    } else {
      UsersAreDistinct(uids, n - 1);
      assert UsersUpTo(uids, n) == before + [uids[b]];
      ComesLast(before, uids[a], uids[b]);
    }
  }

  // ----- the pool

  datatype Worker = Idle | Busy(index: nat) | Finished
  datatype Entry = Entry(uid: string, ok: bool)

  /** `started` records the indices whose action was begun, in order. */
  datatype Pool = Pool(cursor: nat, workers: seq<Worker>, results: seq<Option<Entry>>, started: seq<nat>)

  datatype Event = Take(worker: nat) | Complete(worker: nat, ok: bool)

  function Start(users: seq<string>): Pool {
    Pool(0, seq(Min(BULK_CONCURRENCY, |users|), _ => Idle), seq(|users|, _ => None), [])
  }

  predicate Enabled(p: Pool, e: Event) {
    && e.worker < |p.workers|
    && (e.Take? ==> p.workers[e.worker].Idle?)
    && (e.Complete? ==> p.workers[e.worker].Busy? && p.workers[e.worker].index < |p.results|)
  }

  function Step(users: seq<string>, p: Pool, e: Event): Pool {
    if !Enabled(p, e) || |p.results| != |users| then p
    else match e
    case Take(w) =>
      if p.cursor >= |users| then p.(cursor := p.cursor + 1, workers := p.workers[w := Finished])
      else p.(cursor := p.cursor + 1, workers := p.workers[w := Busy(p.cursor)], started := p.started + [p.cursor])
    case Complete(w, ok) =>
      var index := p.workers[w].index;
      p.(workers := p.workers[w := Idle], results := p.results[index := Some(Entry(users[index], ok))])
  }

  /** The pool as an object: shared cursor, and arrays filled in place. */
  class BulkRun {
    const users: seq<string>
    var cursor: nat
    const workers: array<Worker>
    const results: array<Option<Entry>>
    ghost var started: seq<nat>

    predicate Valid()
      reads this
    {
      results.Length == |users|
    }

    ghost function View(): Pool
      reads this, workers, results
    {
      Pool(cursor, workers[..], results[..], started)
    }

    constructor (users: seq<string>)
      ensures this.users == users && Valid() && View() == Start(users)
      ensures fresh(workers) && fresh(results)
    {
      this.users := users;
      cursor := 0;
      started := [];
      workers := new Worker[Min(BULK_CONCURRENCY, |users|)](_ => Idle);
      results := new Option<Entry>[|users|](_ => None);
    }

    /** One turn of a worker's loop up to its first wait; None when the list is exhausted. */
    method TakeNext(w: nat) returns (index: Option<nat>)
      requires Valid() && Enabled(View(), Take(w))
      modifies this`cursor, this`started, workers
      ensures View() == Step(users, old(View()), Take(w))
      ensures index == if old(cursor) < |users| then Some(old(cursor)) else None
    {
      var mine := cursor;
      cursor := cursor + 1;
      if mine >= |users| {
        workers[w] := Finished;
        return None;
      }
      workers[w] := Busy(mine);
      started := started + [mine];
      index := Some(mine);
    }

    /** The worker's action returned: its result is stored. */
    method StoreResult(w: nat, ok: bool)
      requires Valid() && Enabled(View(), Complete(w, ok))
      modifies workers, results
      ensures View() == Step(users, old(View()), Complete(w, ok))
    {
      var index := workers[w].index;
      results[index] := Some(Entry(users[index], ok));
      workers[w] := Idle;
    }
  }

  function Replay(users: seq<string>, events: seq<Event>): Pool {
    if events == [] then Start(users)
    else Step(users, Replay(users, events[..|events| - 1]), events[|events| - 1])
  }

  /** A run of the pool: every event is enabled when it happens. */
  predicate IsRun(users: seq<string>, events: seq<Event>) {
    forall k :: 0 <= k < |events| ==> Enabled(Replay(users, events[..k]), events[k])
  }

  lemma RunPrefix(users: seq<string>, events: seq<Event>)
    requires IsRun(users, events) && events != []
    ensures IsRun(users, events[..|events| - 1])
    ensures Enabled(Replay(users, events[..|events| - 1]), events[|events| - 1])
  {
    var before := events[..|events| - 1];
    forall k | 0 <= k < |before| ensures Enabled(Replay(users, before[..k]), before[k]) {
      assert before[..k] == events[..k];
    }
  }

  predicate Running(p: Pool, i: nat) {
    exists w :: 0 <= w < |p.workers| && p.workers[w] == Busy(i)
  }

  /** Cursor, started indices and workers fit together. */
  predicate WorkersInv(users: seq<string>, p: Pool) {
    && |p.workers| == Min(BULK_CONCURRENCY, |users|)
    && |p.started| == Min(p.cursor, |users|)
    && (forall i :: 0 <= i < |p.started| ==> p.started[i] == i)
    && (forall w :: 0 <= w < |p.workers| && p.workers[w].Busy? ==> p.workers[w].index < |p.started|)
    && (forall v, w :: 0 <= v < w < |p.workers| && p.workers[v].Busy? && p.workers[w].Busy? ==> p.workers[v].index != p.workers[w].index)
    && (forall w :: 0 <= w < |p.workers| && p.workers[w].Finished? ==> p.cursor >= |users|)
  }

  /** An index has a result of its own user exactly when it was started and is not in flight. */
  predicate ResultsInv(users: seq<string>, p: Pool) {
    && |p.results| == |users|
    && forall i :: 0 <= i < |users| ==>
         && (p.results[i].Some? <==> i < |p.started| && !Running(p, i))
         && (p.results[i].Some? ==> p.results[i].value.uid == users[i])
  }

  predicate Inv(users: seq<string>, p: Pool) {
    WorkersInv(users, p) && ResultsInv(users, p)
  }

  lemma RunningAfter(users: seq<string>, p: Pool, e: Event, i: nat)
    requires WorkersInv(users, p) && |p.results| == |users| && Enabled(p, e)
    ensures Running(Step(users, p, e), i)
            <==> if e.Take? then Running(p, i) || (i == p.cursor < |users|)
                 else Running(p, i) && i != p.workers[e.worker].index
  {
    var q := Step(users, p, e);
    if Running(p, i) {
      var w :| 0 <= w < |p.workers| && p.workers[w] == Busy(i);
      assert w != e.worker ==> q.workers[w] == Busy(i);
    }
    if e.Take? && p.cursor < |users| {
      assert q.workers[e.worker] == Busy(p.cursor);
    }
    if Running(q, i) {
      var w :| 0 <= w < |q.workers| && q.workers[w] == Busy(i);
      assert w != e.worker ==> p.workers[w] == Busy(i);
    }
  }

  lemma StepKeepsInv(users: seq<string>, p: Pool, e: Event)
    requires Inv(users, p) && Enabled(p, e)
    ensures Inv(users, Step(users, p, e))
  {
    forall i | 0 <= i < |users| {
      RunningAfter(users, p, e, i);
    }
    if e.Complete? {
      assert Running(p, p.workers[e.worker].index);
    }
  }

  lemma {:induction false} InvHolds(users: seq<string>, events: seq<Event>)
    requires IsRun(users, events)
    ensures Inv(users, Replay(users, events))
  {
    if events != [] {
      RunPrefix(users, events);
      InvHolds(users, events[..|events| - 1]);
      StepKeepsInv(users, Replay(users, events[..|events| - 1]), events[|events| - 1]);
    }
  }

  // ----- termination

  function Weight(worker: Worker): nat {
    match worker case Idle => 1 case Busy(_) => 2 case Finished => 0
  }

  function Weights(workers: seq<Worker>): nat {
    if workers == [] then 0 else Weight(workers[0]) + Weights(workers[1..])
  }

  /** Steps still to come. */
  function StepsLeft(users: seq<string>, p: Pool): int {
    2 * (|users| - Min(p.cursor, |users|)) + Weights(p.workers)
  }

  lemma {:induction false} WeightsUpdate(workers: seq<Worker>, w: nat, worker: Worker)
    requires w < |workers|
    ensures Weights(workers[w := worker]) == Weights(workers) - Weight(workers[w]) + Weight(worker)
  {
    if w > 0 {
      WeightsUpdate(workers[1..], w - 1, worker);
      assert workers[w := worker][1..] == workers[1..][w - 1 := worker];
    } else {
      assert workers[0 := worker][1..] == workers[1..];
    }
  }

  lemma {:induction false} WeightsOfIdle(n: nat)
    ensures Weights(seq(n, _ => Idle)) == n
  {
    if n > 0 {
      WeightsOfIdle(n - 1);
      assert seq(n, _ => Idle)[1..] == seq(n - 1, _ => Idle);
    }
  }

  lemma {:induction false} NoWeight(workers: seq<Worker>)
    ensures Weights(workers) == 0 <==> forall w :: 0 <= w < |workers| ==> workers[w].Finished?
  {
    if workers != [] {
      NoWeight(workers[1..]);
      assert forall w :: 0 < w < |workers| ==> workers[w] == workers[1..][w - 1];
    }
  }

  /** Every step uses up exactly one of the `2 * users + workers` steps a run has. */
  lemma {:induction false} EveryStepCounts(users: seq<string>, events: seq<Event>)
    requires IsRun(users, events)
    ensures |events| + StepsLeft(users, Replay(users, events)) == 2 * |users| + Min(BULK_CONCURRENCY, |users|)
  {
    if events == [] {
      WeightsOfIdle(Min(BULK_CONCURRENCY, |users|));
      assert Start(users).workers == seq(Min(BULK_CONCURRENCY, |users|), _ => Idle);
    } else {
      var before := events[..|events| - 1];
      var e := events[|events| - 1];
      var p := Replay(users, before);
      RunPrefix(users, events);
      InvHolds(users, before);
      EveryStepCounts(users, before);
      WeightsUpdate(p.workers, e.worker, Replay(users, events).workers[e.worker]);
    }
  }

  predicate AllFinished(p: Pool) {
    forall w :: 0 <= w < |p.workers| ==> p.workers[w].Finished?
  }

  /**
   For every interleaving: a run has at most `2 * users + workers` steps and is that long exactly
   when all workers have finished, and until then some worker can go on.
   */
  lemma PoolTerminates(users: seq<string>, events: seq<Event>)
    requires IsRun(users, events)
    ensures |events| <= 2 * |users| + Min(BULK_CONCURRENCY, |users|)
    ensures AllFinished(Replay(users, events)) <==> |events| == 2 * |users| + Min(BULK_CONCURRENCY, |users|)
    ensures !AllFinished(Replay(users, events)) ==> exists e :: Enabled(Replay(users, events), e)
  {
    var p := Replay(users, events);
    EveryStepCounts(users, events);
    InvHolds(users, events);
    NoWeight(p.workers);
    if !AllFinished(p) {
      var w :| 0 <= w < |p.workers| && !p.workers[w].Finished?;
      if p.workers[w].Idle? {
        assert Enabled(p, Take(w));
      } else {
        assert Enabled(p, Complete(w, true));
      }
    }
  }

  // ----- what a run did

  function CountBusy(workers: seq<Worker>): nat {
    if workers == [] then 0 else (if workers[0].Busy? then 1 else 0) + CountBusy(workers[1..])
  }

  lemma CountBusyBound(workers: seq<Worker>)
    ensures CountBusy(workers) <= |workers|
  {
  }

  function CountOk(results: seq<Option<Entry>>): nat {
    if results == [] then 0
    else (if results[0].Some? && results[0].value.ok then 1 else 0) + CountOk(results[1..])
  }

  function CountFailed(results: seq<Option<Entry>>): nat {
    if results == [] then 0
    else (if results[0].Some? && !results[0].value.ok then 1 else 0) + CountFailed(results[1..])
  }

  lemma {:induction false} CountsAddUp(results: seq<Option<Entry>>)
    requires forall i :: 0 <= i < |results| ==> results[i].Some?
    ensures CountOk(results) + CountFailed(results) == |results|
  {
    if results != [] {
      CountsAddUp(results[1..]);
    }
  }

  /** At any moment at most three actions are in flight, and no index was begun twice. */
  lemma AtMostThreeInFlight(users: seq<string>, events: seq<Event>)
    requires IsRun(users, events)
    ensures var p := Replay(users, events);
            && CountBusy(p.workers) <= 3
            && (forall i, j :: 0 <= i < j < |p.started| ==> p.started[i] != p.started[j])
  {
    InvHolds(users, events);
    CountBusyBound(Replay(users, events).workers);
  }

  /** When the pool is done, each index was executed exactly once, in order, and has its own user's result. */
  lemma FinishedPoolIsComplete(users: seq<string>, events: seq<Event>)
    requires IsRun(users, events) && AllFinished(Replay(users, events))
    ensures var p := Replay(users, events);
            && |p.started| == |users| == |p.results|
            && (forall i :: 0 <= i < |users| ==> p.started[i] == i && p.results[i].Some? && p.results[i].value.uid == users[i])
            && CountOk(p.results) + CountFailed(p.results) == |users|
  {
    var p := Replay(users, events);
    InvHolds(users, events);
    if users != [] {
      assert p.workers[0].Finished?;
    }
    forall i | 0 <= i < |users| ensures p.results[i].Some? {
      assert !Running(p, i);
    }
    CountsAddUp(p.results);
  }

  // ----- the results are the answers

  /** Once an action has answered, its user's entry says what it answered, for good. */
  lemma {:induction false} ResultIsAnswer(users: seq<string>, events: seq<Event>, k: nat)
    requires IsRun(users, events) && k < |events| && events[k].Complete?
    ensures var p := Replay(users, events[..k]);
            var index := p.workers[events[k].worker].index;
            && index < |users| && index < |Replay(users, events).results|
            && Replay(users, events).results[index] == Some(Entry(users[index], events[k].ok))
  {
    var before, last := events[..|events| - 1], events[|events| - 1];
    RunPrefix(users, events);
    InvHolds(users, events[..k]) by { RunOfPrefix(users, events, k); }
    InvHolds(users, before);
    if k < |events| - 1 {
      ResultIsAnswer(users, before, k);
      assert before[..k] == events[..k];
      var p := Replay(users, before);
      if last.Complete? {
        assert Running(p, p.workers[last.worker].index);
      }
    } else {
      assert events[..k] == before;
    }
  }

  lemma RunOfPrefix(users: seq<string>, events: seq<Event>, k: nat)
    requires IsRun(users, events) && k <= |events|
    ensures IsRun(users, events[..k])
  {
    forall j | 0 <= j < k ensures Enabled(Replay(users, events[..k][..j]), events[..k][j]) {
      assert events[..k][..j] == events[..j];
    }
  }

  function Answers(events: seq<Event>, ok: bool): nat {
    if events == [] then 0
    else Answers(events[..|events| - 1], ok) + if events[|events| - 1].Complete? && events[|events| - 1].ok == ok then 1 else 0
  }

  lemma {:induction false} CountsUpdate(results: seq<Option<Entry>>, i: nat, e: Entry)
    requires i < |results| && results[i].None?
    ensures CountOk(results[i := Some(e)]) == CountOk(results) + if e.ok then 1 else 0
    ensures CountFailed(results[i := Some(e)]) == CountFailed(results) + if e.ok then 0 else 1
  {
    if i > 0 {
      CountsUpdate(results[1..], i - 1, e);
      assert results[i := Some(e)][1..] == results[1..][i - 1 := Some(e)];
    } else {
      assert results[0 := Some(e)][1..] == results[1..];
    }
  }

  lemma {:induction false} CountsOfNothing(n: nat)
    ensures CountOk(seq(n, _ => None)) == CountFailed(seq(n, _ => None)) == 0
  {
    if n > 0 {
      CountsOfNothing(n - 1);
      var none: Option<Entry> := None;
      assert seq(n, _ => none)[1..] == seq(n - 1, _ => none);
    }
  }

  /** The counts reported are the numbers of actions that answered well and badly. */
  lemma {:induction false} CountsAreAnswers(users: seq<string>, events: seq<Event>)
    requires IsRun(users, events)
    ensures CountOk(Replay(users, events).results) == Answers(events, true)
    ensures CountFailed(Replay(users, events).results) == Answers(events, false)
  {
    if events == [] {
      CountsOfNothing(|users|);
    } else {
      var before, e := events[..|events| - 1], events[|events| - 1];
      RunPrefix(users, events);
      InvHolds(users, before);
      CountsAreAnswers(users, before);
      var p := Replay(users, before);
      if e.Complete? {
        var index := p.workers[e.worker].index;
        assert Running(p, index);
        CountsUpdate(p.results, index, Entry(users[index], e.ok));
      }
    }
  }

  /** On a normalised list no user is ever acted on twice. */
  lemma NoUserActedOnTwice(raws: seq<string>, events: seq<Event>)
    requires IsRun(UsersOf(Candidates(raws)), events)
    ensures var users := UsersOf(Candidates(raws));
            var started := Replay(users, events).started;
            && (forall i :: 0 <= i < |started| ==> started[i] < |users|)
            && (forall i, j :: 0 <= i < j < |started| ==> users[started[i]] != users[started[j]])
  {
    InvHolds(UsersOf(Candidates(raws)), events);
    UsersAreDistinct(Candidates(raws), |raws|);
  }
}
