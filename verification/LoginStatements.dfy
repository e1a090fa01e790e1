/**
 Logins that overlap: every read and every SQL statement of the rate limiter is a step of its own, and
 the steps of any number of logins interleave freely. A login reads the clock once for its check and
 once for recording its failure; its statements may run arbitrarily later, still carrying that stamp,
 and statements of different logins may run in another order than their stamps. A login whose statement
 fails, before or after taking effect, takes no further step.
 */
module LoginStatements {
  import opened Prelude
  import opened LoginRateLimit

  datatype Subjects = Subjects(client: string, username: string)

  function KeyOf(who: Subjects, scope: Scope): Key {
    Key(scope, if scope == Client then who.client else who.username)
  }

  /** What a failed login still has to send: retention, then a count and a block for each subject. */
  datatype Stage = Purging | Counting(scope: Scope) | Extending(scope: Scope, cooldown: int)

  datatype Login = CheckingClient(who: Subjects, at: nat)
                 | CheckingUsername(who: Subjects, at: nat, client: Decision)
                 | Checked(who: Subjects, decision: Decision)
                 | Failing(who: Subjects, at: nat, stage: Stage, client: Decision)
                 | Succeeding(who: Subjects)
                 | Answered(decision: Decision)

  datatype State = State(table: Table, logins: map<nat, Login>)

  /** `Clear` is the reset of one username when its password is set or its account deleted. */
  datatype Event = Arrive(id: nat, who: Subjects, at: nat)
                 | Finish(id: nat, failed: bool, at: nat)
                 | Advance(id: nat, e: Entropy)
                 | Clear(username: string)

  const START: State := State(map[], map[])

  // ----- steps

  function Cooldown(t: Table, key: Key, at: int, e: Entropy): int {
    JitteredMs(CooldownMs(Counted(t, key, at).failures, Limit(key.scope)), e)
  }

  /** One statement of a failed login; a block without a cooldown sends nothing. */
  function FailingStep(t: Table, who: Subjects, at: nat, stage: Stage, client: Decision, e: Entropy): (Table, Login) {
    match stage
    case Purging => (Purge(t, at), Failing(who, at, Counting(Client), client))
    case Counting(scope) =>
      (CountFailure(t, KeyOf(who, scope), at), Failing(who, at, Extending(scope, Cooldown(t, KeyOf(who, scope), at, e)), client))
    case Extending(scope, cooldown) =>
      var answer := if cooldown <= 0 then Allowed else Limited(RetryAfterSeconds(at + cooldown, at), scope);
      (if cooldown <= 0 then t else ExtendBlock(t, KeyOf(who, scope), at + cooldown, at),
       if scope == Client then Failing(who, at, Counting(Username), answer) else Answered(Combine(client, answer)))
  }

  function LoginStep(t: Table, login: Login, e: Entropy): (Table, Login) {
    match login
    case CheckingClient(who, at) => (t, CheckingUsername(who, at, CheckSubject(t, KeyOf(who, Client), at)))
    case CheckingUsername(who, at, client) => (t, Checked(who, Combine(client, CheckSubject(t, KeyOf(who, Username), at))))
    case Failing(who, at, stage, client) => FailingStep(t, who, at, stage, client, e)
    case Succeeding(who) => (RecordSuccess(t, who.username), Answered(Allowed))
    case _ => (t, login)
  }

  function Step(s: State, event: Event): State {
    match event
    case Arrive(id, who, at) => if id in s.logins then s else s.(logins := s.logins[id := CheckingClient(who, at)])
    case Finish(id, failed, at) =>
      if id !in s.logins || !s.logins[id].Checked? || !s.logins[id].decision.Allowed? then s
      else
        var who := s.logins[id].who;
        s.(logins := s.logins[id := if failed then Failing(who, at, Purging, Allowed) else Succeeding(who)])
    case Advance(id, e) =>
      if id !in s.logins then s
      else
        var (table, next) := LoginStep(s.table, s.logins[id], e);
        State(table, s.logins[id := next])
    case Clear(username) => s.(table := RecordSuccess(s.table, username))
  }

  function Execution(s: State, events: seq<Event>): State
    decreases |events|
  {
    if events == [] then s else Step(Execution(s, events[..|events| - 1]), events[|events| - 1])
  }

  /** The largest stamp of a failure so far. */
  function Latest(events: seq<Event>): nat
    decreases |events|
  {
    if events == [] then 0
    else
      var before := Latest(events[..|events| - 1]);
      if events[|events| - 1].Finish? then Max(before, events[|events| - 1].at) else before
  }

  /** A successful login's statement and a reset forget the username's counter and nothing else. */
  lemma SuccessAndClearForget(s: State, id: nat, e: Entropy, username: string, k: Key)
    requires id in s.logins && s.logins[id].Succeeding? && s.logins[id].who.username == username
    ensures Step(s, Advance(id, e)).table == Step(s, Clear(username)).table
    ensures var t := Step(s, Clear(username)).table;
            && Key(Username, username) !in t
            && (k != Key(Username, username) ==> (k in t <==> k in s.table) && (k in t ==> t[k] == s.table[k]))
    ensures Step(s, Clear(username)).logins == s.logins
  {
    SuccessForgetsUsername(s.table, username, k);
  }

  // ----- the horizon of a block

  predicate RowInHorizon(row: Row, latest: int, lag: int) {
    && 1 <= row.failures
    && 0 <= row.windowStart <= latest && 0 <= row.updatedAt <= latest
    && 0 <= row.blockedUntil <= latest + MAX_COOLDOWN_MS
    && row.blockedUntil <= row.updatedAt + MAX_COOLDOWN_MS + lag
  }

  predicate LoginInHorizon(login: Login, latest: int) {
    login.Failing? ==> login.at <= latest && (login.stage.Extending? ==> login.stage.cooldown <= MAX_COOLDOWN_MS)
  }

  predicate InHorizon(s: State, latest: int, lag: int) {
    && (forall k :: k in s.table ==> RowInHorizon(s.table[k], latest, lag))
    && (forall id :: id in s.logins ==> LoginInHorizon(s.logins[id], latest))
  }

  /** A statement that carries a stamp at most `lag` behind the largest one given out. */
  predicate OnTime(s: State, event: Event, latest: int, lag: int) {
    event.Advance? && event.id in s.logins && s.logins[event.id].Failing? ==> latest - s.logins[event.id].at <= lag
  }

  predicate Lagging(events: seq<Event>, lag: int)
    decreases |events|
  {
    events != [] ==>
      var before := events[..|events| - 1];
      Lagging(before, lag) && OnTime(Execution(START, before), events[|events| - 1], Latest(before), lag)
  }

  lemma FailingStepHorizon(t: Table, who: Subjects, at: nat, stage: Stage, client: Decision, e: Entropy, latest: nat, lag: nat)
    requires forall k :: k in t ==> RowInHorizon(t[k], latest, lag)
    requires at <= latest <= at + lag && (stage.Extending? ==> stage.cooldown <= MAX_COOLDOWN_MS)
    ensures var (t', next) := FailingStep(t, who, at, stage, client, e);
            (forall k :: k in t' ==> RowInHorizon(t'[k], latest, lag)) && LoginInHorizon(next, latest)
  {
    if stage.Counting? {
      CooldownBounds(Counted(t, KeyOf(who, stage.scope), at).failures, Limit(stage.scope), e);
    }
  }

  lemma StepHorizon(s: State, event: Event, latest: nat, lag: nat)
    requires InHorizon(s, latest, lag) && OnTime(s, event, latest, lag)
    ensures InHorizon(Step(s, event), if event.Finish? then Max(latest, event.at) else latest, lag)
  {
    if event.Advance? && event.id in s.logins && s.logins[event.id].Failing? {
      var login := s.logins[event.id];
      FailingStepHorizon(s.table, login.who, login.at, login.stage, login.client, event.e, latest, lag);
    }
  }

  /** If no statement lags further behind the newest stamp, no block reaches further beyond its row's update. */
  lemma {:induction false} LagHorizon(events: seq<Event>, lag: nat)
    requires Lagging(events, lag)
    ensures InHorizon(Execution(START, events), Latest(events), lag)
    decreases |events|
  {
    if events != [] {
      var before := events[..|events| - 1];
      LagHorizon(before, lag);
      StepHorizon(Execution(START, before), events[|events| - 1], Latest(before), lag);
    }
  }

  lemma {:induction false} EveryRunLags(events: seq<Event>, lag: nat)
    requires Latest(events) <= lag
    ensures Lagging(events, lag)
    decreases |events|
  {
    if events != [] {
      EveryRunLags(events[..|events| - 1], lag);
    }
  }

  /** In every run no block reaches further than a minute beyond the newest stamp. */
  lemma HorizonHolds(events: seq<Event>, k: Key)
    requires k in Execution(START, events).table
    ensures var row := Execution(START, events).table[k];
            1 <= row.failures && 0 <= row.blockedUntil <= Latest(events) + MAX_COOLDOWN_MS
  {
    EveryRunLags(events, Latest(events));
    LagHorizon(events, Latest(events));
  }

  /**
   Retention deletion never removes a row that still blocks, as long as no statement is a whole
   retention period, less one cooldown, behind the newest stamp.
   */
  lemma RetentionKeepsActiveBlocks(events: seq<Event>, now: nat, k: Key)
    requires Lagging(events, RETENTION_MS - MAX_COOLDOWN_MS)
    requires k in Execution(START, events).table && Execution(START, events).table[k].blockedUntil >= now
    ensures k in Purge(Execution(START, events).table, now)
  {
    LagHorizon(events, RETENTION_MS - MAX_COOLDOWN_MS);
  }

  lemma RetryCovers(blockedUntil: int, now: int)
    requires now < blockedUntil
    ensures RetryAfterSeconds(blockedUntil, now) >= 1
    ensures now + 1000 * (RetryAfterSeconds(blockedUntil, now) - 1) < blockedUntil <= now + 1000 * RetryAfterSeconds(blockedUntil, now)
  {
  }

  /**
   The two reads of a check may see different tables. Whatever they see, waiting the answer's time ends
   both blocks as read, and the time is at most a minute, counted from the newest stamp if that is later.
   */
  lemma WaitingClearsBothSubjects(events: seq<Event>, later: seq<Event>, who: Subjects, now: nat, again: nat)
    requires Combine(CheckSubject(Execution(START, events).table, KeyOf(who, Client), now),
                     CheckSubject(Execution(START, later).table, KeyOf(who, Username), now)).Limited?
    ensures var client, username := Execution(START, events).table, Execution(START, later).table;
            var seconds := Combine(CheckSubject(client, KeyOf(who, Client), now), CheckSubject(username, KeyOf(who, Username), now)).retryAfterSeconds;
            && 1 <= seconds && now + 1000 * (seconds - 1) < Max(Latest(events), Latest(later)) + MAX_COOLDOWN_MS
            && (again >= now + 1000 * seconds ==>
                  CheckSubject(client, KeyOf(who, Client), again).Allowed? && CheckSubject(username, KeyOf(who, Username), again).Allowed?)
  {
    var client, username := Execution(START, events).table, Execution(START, later).table;
    if Blocked(client, KeyOf(who, Client), now) {
      HorizonHolds(events, KeyOf(who, Client));
      RetryCovers(client[KeyOf(who, Client)].blockedUntil, now);
    }
    if Blocked(username, KeyOf(who, Username), now) {
      HorizonHolds(later, KeyOf(who, Username));
      RetryCovers(username[KeyOf(who, Username)].blockedUntil, now);
    }
  }

  // ----- the ceilings, exactly

  predicate BelowCeilings(t: Table) {
    forall k :: k in t ==> 1 <= t[k].failures <= Ceiling(k.scope)
  }

  /** The event is the count statement of some failure. */
  predicate Counts(s: State, event: Event) {
    && event.Advance? && event.id in s.logins
    && s.logins[event.id].Failing? && s.logins[event.id].stage.Counting?
  }

  function CountedKey(s: State, event: Event): Key
    requires Counts(s, event)
  {
    KeyOf(s.logins[event.id].who, s.logins[event.id].stage.scope)
  }

  /** The row has reached its ceiling in a window that has not ended at that stamp. */
  predicate FullAt(t: Table, key: Key, at: int) {
    key in t && t[key].failures == Ceiling(key.scope) && at < t[key].windowStart + Window(key.scope)
  }

  predicate CountsFull(s: State, event: Event) {
    Counts(s, event) && FullAt(s.table, CountedKey(s, event), s.logins[event.id].at)
  }

  predicate AlwaysBelow(events: seq<Event>)
    decreases |events|
  {
    BelowCeilings(Execution(START, events).table) && (events != [] ==> AlwaysBelow(events[..|events| - 1]))
  }

  predicate NeverCountsFull(events: seq<Event>)
    decreases |events|
  {
    events != [] ==>
      var before := events[..|events| - 1];
      NeverCountsFull(before) && !CountsFull(Execution(START, before), events[|events| - 1])
  }

  /** One step leaves the ceilings exactly when it counts a failure on a row that is full. */
  lemma StepLeavesExactly(s: State, event: Event)
    requires BelowCeilings(s.table)
    ensures BelowCeilings(Step(s, event).table) <==> !CountsFull(s, event)
  {
    if Counts(s, event) {
      var key, at := CountedKey(s, event), s.logins[event.id].at;
      assert Step(s, event).table == CountFailure(s.table, key, at);
      assert key in CountFailure(s.table, key, at);
    } else if event.Advance? && event.id in s.logins && s.logins[event.id].Failing? {
      var login := s.logins[event.id];
      var t := FailingStep(s.table, login.who, login.at, login.stage, login.client, event.e).0;
      assert forall k :: k in t ==> k in s.table && t[k].failures == s.table[k].failures;
    }
  }

  /** In every run: the ceilings 17 and 25 hold throughout exactly when no failure is counted on a full row. */
  lemma {:induction false} CeilingsHoldExactly(events: seq<Event>)
    ensures AlwaysBelow(events) <==> NeverCountsFull(events)
    decreases |events|
  {
    if events != [] {
      var before := events[..|events| - 1];
      CeilingsHoldExactly(before);
      if AlwaysBelow(before) {
        StepLeavesExactly(Execution(START, before), events[|events| - 1]);
      }
    }
  }

  // ----- the blocks keep the ceilings

  /** The login is about to write a block on that key. */
  predicate Writes(login: Login, key: Key) {
    login.Failing? && login.stage.Extending? && login.stage.cooldown > 0 && KeyOf(login.who, login.stage.scope) == key
  }

  predicate Pays(login: Login, key: Key, until: int) {
    Writes(login, key) && login.at + login.stage.cooldown >= until
  }

  ghost predicate Pending(s: State, key: Key) {
    exists id :: id in s.logins && Writes(s.logins[id], key)
  }

  ghost predicate PaidLater(s: State, key: Key, until: int) {
    exists id :: id in s.logins && Pays(s.logins[id], key, until)
  }

  /** The row's block covers the cooldowns its failures have earned, or a login is about to extend it that far. */
  ghost predicate RowCovered(s: State, key: Key)
    requires key in s.table
  {
    var row := s.table[key];
    && 1 <= row.failures <= Ceiling(key.scope)
    && (row.failures >= Limit(key.scope) ==>
          var until := row.windowStart + Served(row.failures, key.scope);
          until <= row.blockedUntil || PaidLater(s, key, until))
  }

  ghost predicate Covered(s: State) {
    forall k :: k in s.table ==> RowCovered(s, k)
  }

  /**
   A failure counted in turn: its subject has no row yet, or a row whose window has begun, whose block
   is over at the failure's stamp, and on which no earlier failure's block is still to be written.
   */
  ghost predicate InTurn(s: State, event: Event) {
    Counts(s, event) && CountedKey(s, event) in s.table ==>
      var key, at := CountedKey(s, event), s.logins[event.id].at;
      s.table[key].windowStart <= at && !Blocked(s.table, key, at) && !Pending(s, key)
  }

  ghost predicate AllInTurn(s: State, events: seq<Event>)
    decreases |events|
  {
    events != [] ==>
      var before := events[..|events| - 1];
      AllInTurn(s, before) && InTurn(Execution(s, before), events[|events| - 1])
  }

  /** A full row is blocked, unless its block is still to be written. */
  lemma FullIsBlocked(s: State, key: Key, at: int)
    requires Covered(s) && !Pending(s, key) && FullAt(s.table, key, at)
    ensures Blocked(s.table, key, at)
  {
    assert RowCovered(s, key);
    CooldownsFillWindow(key.scope);
  }

  lemma CountedRow(t: Table, key: Key, at: nat, e: Entropy)
    requires key in t && t[key].windowStart <= at && t[key].windowStart + Window(key.scope) > at
    requires 1 <= t[key].failures <= Ceiling(key.scope)
    requires t[key].failures >= Limit(key.scope) ==> t[key].windowStart + Served(t[key].failures, key.scope) <= at
    ensures var row := Counted(t, key, at);
            && 1 <= row.failures <= Ceiling(key.scope)
            && (row.failures >= Limit(key.scope) ==>
                  Cooldown(t, key, at, e) > 0 && row.windowStart + Served(row.failures, key.scope) <= at + Cooldown(t, key, at, e))
  {
    var f := t[key].failures;
    CooldownBounds(f + 1, Limit(key.scope), e);
    if f >= Limit(key.scope) {
      CooldownsFillWindow(key.scope);
      assert f != Ceiling(key.scope);
    }
  }

  /** What pays for a row goes on paying when another login moves. */
  lemma PaidStays(s: State, next: State, id: nat, key: Key, until: int)
    requires id in s.logins && id in next.logins && next.logins == s.logins[id := next.logins[id]]
    requires !Writes(s.logins[id], key) && PaidLater(s, key, until)
    ensures PaidLater(next, key, until)
  {
    var other :| other in s.logins && Pays(s.logins[other], key, until);
    assert other in next.logins && Pays(next.logins[other], key, until);
  }

  lemma CountCovered(s: State, event: Event)
    requires Covered(s) && Counts(s, event) && InTurn(s, event)
    ensures Covered(Step(s, event))
  {
    var key, at, next := CountedKey(s, event), s.logins[event.id].at, Step(s, event);
    var row := Counted(s.table, key, at);
    assert next.table == s.table[key := row];
    if key in s.table && s.table[key].windowStart + Window(key.scope) > at {
      assert RowCovered(s, key);
      CountedRow(s.table, key, at, event.e);
      assert row.failures >= Limit(key.scope) ==> Pays(next.logins[event.id], key, row.windowStart + Served(row.failures, key.scope));
    }
    forall k | k in next.table && k != key ensures RowCovered(next, k) {
      assert RowCovered(s, k);
      OthersCovered(s, next, event.id, k);
    }
  }

  lemma OthersCovered(s: State, next: State, id: nat, k: Key)
    requires k in s.table && k in next.table && next.table[k] == s.table[k] && RowCovered(s, k)
    requires id in s.logins && id in next.logins && next.logins == s.logins[id := next.logins[id]] && !Writes(s.logins[id], k)
    ensures RowCovered(next, k)
  {
    var until := s.table[k].windowStart + Served(s.table[k].failures, k.scope);
    if PaidLater(s, k, until) {
      PaidStays(s, next, id, k, until);
    }
  }

  lemma ExtendCovered(s: State, event: Event)
    requires Covered(s) && event.Advance? && event.id in s.logins
    requires s.logins[event.id].Failing? && s.logins[event.id].stage.Extending?
    ensures Covered(Step(s, event))
  {
    var login, next := s.logins[event.id], Step(s, event);
    var key := KeyOf(login.who, login.stage.scope);
    forall k | k in next.table ensures RowCovered(next, k) {
      assert RowCovered(s, k);
      if Writes(login, k) {
        var until := s.table[k].windowStart + Served(s.table[k].failures, k.scope);
        assert next.table[k].blockedUntil >= s.table[k].blockedUntil && next.table[k].blockedUntil >= login.at + login.stage.cooldown;
        if PaidLater(s, k, until) && next.table[k].blockedUntil < until {
          var other :| other in s.logins && Pays(s.logins[other], k, until);
          assert other in next.logins && Pays(next.logins[other], k, until);
        }
      } else {
        OthersCovered(s, next, event.id, k);
      }
    }
  }

  lemma StepCovered(s: State, event: Event)
    requires Covered(s) && InTurn(s, event)
    ensures Covered(Step(s, event))
  {
    var next := Step(s, event);
    if Counts(s, event) {
      CountCovered(s, event);
    } else if event.Advance? && event.id in s.logins && s.logins[event.id].Failing? && s.logins[event.id].stage.Extending? {
      ExtendCovered(s, event);
    } else {
      forall k | k in next.table ensures RowCovered(next, k) {
        assert k in s.table && next.table[k] == s.table[k] && RowCovered(s, k);
        var until := s.table[k].windowStart + Served(s.table[k].failures, k.scope);
        if PaidLater(s, k, until) {
          var other :| other in s.logins && Pays(s.logins[other], k, until);
          assert other in next.logins && Pays(next.logins[other], k, until);
        }
      }
    }
  }

  lemma {:induction false} InTurnCovered(events: seq<Event>)
    requires AllInTurn(START, events)
    ensures Covered(Execution(START, events))
    decreases |events|
  {
    if events != [] {
      var before := events[..|events| - 1];
      InTurnCovered(before);
      StepCovered(Execution(START, before), events[|events| - 1]);
    }
  }

  /**
   However logins overlap: if every failure is counted in turn, no username is ever counted beyond 17
   and no client beyond 25.
   */
  lemma InTurnStaysBelowCeiling(events: seq<Event>, k: Key)
    requires AllInTurn(START, events) && k in Execution(START, events).table
    ensures 1 <= Execution(START, events).table[k].failures <= if k.scope == Client then 25 else 17
  {
    InTurnCovered(events);
    assert RowCovered(Execution(START, events), k);
  }

  // ----- whole requests, one after the other

  function CheckEvents(id: nat, who: Subjects, at: nat, e: Entropy): seq<Event> {
    [Arrive(id, who, at), Advance(id, e), Advance(id, e)]
  }

  function RecordEvents(id: nat, failed: bool, at: nat, e1: Entropy, e2: Entropy): seq<Event> {
    [Finish(id, failed, at), Advance(id, e1), Advance(id, e1), Advance(id, e1), Advance(id, e2), Advance(id, e2)]
  }

  lemma {:induction false} ExecutionConcat(s: State, a: seq<Event>, b: seq<Event>)
    ensures Execution(s, a + b) == Execution(Execution(s, a), b)
    ensures AllInTurn(s, a + b) <==> AllInTurn(s, a) && AllInTurn(Execution(s, a), b)
    decreases |b|
  {
    if b == [] {
      assert a + b == a;
    } else {
      var front, last := b[..|b| - 1], b[|b| - 1];
      ExecutionConcat(s, a, front);
      assert (a + b)[..|a + b| - 1] == a + front && (a + b)[|a + b| - 1] == last;
    }
  }

  lemma OneEvent(s: State, e: Event)
    ensures Execution(s, [e]) == Step(s, e)
    ensures AllInTurn(s, [e]) <==> InTurn(s, e)
  {
    assert [e][..0] == [];
    assert Execution(s, [e][..0]) == s;
  }

  lemma TwoEvents(s: State, a: Event, b: Event)
    ensures Execution(s, [a, b]) == Step(Step(s, a), b)
  {
    OneEvent(s, a);
    OneEvent(Step(s, a), b);
    ExecutionConcat(s, [a], [b]);
    assert [a] + [b] == [a, b];
  }

  lemma ThreeEvents(s: State, a: Event, b: Event, c: Event)
    ensures Execution(s, [a, b, c]) == Step(Step(Step(s, a), b), c)
    ensures InTurn(s, a) && InTurn(Step(s, a), b) && InTurn(Step(Step(s, a), b), c) ==> AllInTurn(s, [a, b, c])
  {
    OneEvent(s, a);
    OneEvent(Step(s, a), b);
    OneEvent(Step(Step(s, a), b), c);
    ExecutionConcat(s, [a], [b]);
    ExecutionConcat(s, [a] + [b], [c]);
    assert [a] + [b] + [c] == [a, b, c];
  }

  /** An undisturbed check is the check of the specification. */
  lemma ChecksAlone(s: State, id: nat, who: Subjects, at: nat, e: Entropy)
    requires id !in s.logins
    ensures Execution(s, CheckEvents(id, who, at, e))
         == s.(logins := s.logins[id := Checked(who, Check(s.table, who.client, who.username, at))])
    ensures AllInTurn(s, CheckEvents(id, who, at, e))
  {
    ThreeEvents(s, Arrive(id, who, at), Advance(id, e), Advance(id, e));
  }

  predicate Free(s: State, k: Key, at: int) {
    k in s.table ==> s.table[k].windowStart <= at && !Blocked(s.table, k, at)
  }

  /** No login but, perhaps, this one is recording a failure. */
  ghost predicate NobodyElseRecords(s: State, id: nat) {
    forall other :: other in s.logins && other != id ==> !s.logins[other].Failing?
  }

  lemma LoginsTwice(logins: map<nat, Login>, id: nat, a: Login, b: Login)
    ensures logins[id := a][id := b] == logins[id := b]
  {
  }

  lemma Advances(s: State, id: nat, a: Login, e: Entropy, t: Table, b: Login)
    requires LoginStep(s.table, a, e) == (t, b)
    ensures Step(s.(logins := s.logins[id := a]), Advance(id, e)) == State(t, s.logins[id := b])
  {
    LoginsTwice(s.logins, id, a, b);
  }

  /** Retention and the count of the client. */
  lemma FailureBegins(s: State, id: nat, who: Subjects, at: nat, e: Entropy)
    requires id in s.logins && s.logins[id] == Checked(who, Allowed)
    ensures var purged := Purge(s.table, at);
            Execution(s, [Finish(id, true, at), Advance(id, e), Advance(id, e)])
              == State(CountFailure(purged, KeyOf(who, Client), at),
                       s.logins[id := Failing(who, at, Extending(Client, Cooldown(purged, KeyOf(who, Client), at, e)), Allowed)])
  {
    var purged, key := Purge(s.table, at), KeyOf(who, Client);
    var counting := Failing(who, at, Counting(Client), Allowed);
    ThreeEvents(s, Finish(id, true, at), Advance(id, e), Advance(id, e));
    Advances(s, id, Failing(who, at, Purging, Allowed), e, purged, counting);
    Advances(State(purged, s.logins), id, counting, e, CountFailure(purged, key, at),
             Failing(who, at, Extending(Client, Cooldown(purged, key, at, e)), Allowed));
  }

  /** What a block statement makes of the table, and what its request answers. */
  function Extended(t: Table, key: Key, at: nat, cooldown: int): (Table, Decision) {
    if cooldown <= 0 then (t, Allowed)
    else (ExtendBlock(t, key, at + cooldown, at), Limited(RetryAfterSeconds(at + cooldown, at), key.scope))
  }

  /** The block of the client. */
  lemma ExtendsClient(s: State, id: nat, who: Subjects, at: nat, cooldown: int, e: Entropy)
    requires id in s.logins && s.logins[id] == Failing(who, at, Extending(Client, cooldown), Allowed)
    ensures var (client, answer) := Extended(s.table, KeyOf(who, Client), at, cooldown);
            Execution(s, [Advance(id, e)]) == State(client, s.logins[id := Failing(who, at, Counting(Username), answer)])
  {
    var first := s.logins[id];
    var (client, answer) := Extended(s.table, KeyOf(who, Client), at, cooldown);
    OneEvent(s, Advance(id, e));
    assert s.logins[id := first] == s.logins;
    Advances(s, id, first, e, client, Failing(who, at, Counting(Username), answer));
  }

  /** Both statements of the username. */
  lemma UsernameRecorded(s: State, id: nat, who: Subjects, at: nat, answer: Decision, e: Entropy)
    requires id in s.logins && s.logins[id] == Failing(who, at, Counting(Username), answer)
    ensures var (t, d) := RecordSubject(s.table, KeyOf(who, Username), at, e);
            Execution(s, [Advance(id, e), Advance(id, e)]) == State(t, s.logins[id := Answered(Combine(answer, d))])
  {
    var key := KeyOf(who, Username);
    var counted := CountFailure(s.table, key, at);
    var third := Failing(who, at, Extending(Username, Cooldown(s.table, key, at, e)), answer);
    var (t, d) := RecordSubject(s.table, key, at, e);
    TwoEvents(s, Advance(id, e), Advance(id, e));
    assert Step(s, Advance(id, e)) == State(counted, s.logins[id := third]);
    CountThenExtend(s.table, key, at, e);
    Advances(State(counted, s.logins), id, third, e, t, Answered(Combine(answer, d)));
  }

  /** The block of the client, and both statements of the username. */
  lemma FailureEnds(s: State, id: nat, who: Subjects, at: nat, cooldown: int, e1: Entropy, e2: Entropy)
    requires id in s.logins && s.logins[id] == Failing(who, at, Extending(Client, cooldown), Allowed)
    ensures var (client, answer) := Extended(s.table, KeyOf(who, Client), at, cooldown);
            var (t, d) := RecordSubject(client, KeyOf(who, Username), at, e2);
            Execution(s, [Advance(id, e1), Advance(id, e2), Advance(id, e2)]) == State(t, s.logins[id := Answered(Combine(answer, d))])
  {
    var (client, answer) := Extended(s.table, KeyOf(who, Client), at, cooldown);
    var second := Failing(who, at, Counting(Username), answer);
    var (t, d) := RecordSubject(client, KeyOf(who, Username), at, e2);
    ExtendsClient(s, id, who, at, cooldown, e1);
    UsernameRecorded(State(client, s.logins[id := second]), id, who, at, answer, e2);
    LoginsTwice(s.logins, id, second, Answered(Combine(answer, d)));
    ExecutionConcat(s, [Advance(id, e1)], [Advance(id, e2), Advance(id, e2)]);
    assert [Advance(id, e1)] + [Advance(id, e2), Advance(id, e2)] == [Advance(id, e1), Advance(id, e2), Advance(id, e2)];
  }

  lemma CountThenExtend(t: Table, key: Key, at: nat, e: Entropy)
    ensures RecordSubject(t, key, at, e) == Extended(CountFailure(t, key, at), key, at, Cooldown(t, key, at, e))
  {
  }

  /** The specification of a recording, with the client's two statements spelled out. */
  lemma ClientThenUsername(t: Table, who: Subjects, at: nat, e1: Entropy, e2: Entropy)
    ensures var key, purged := KeyOf(who, Client), Purge(t, at);
            var (client, answer) := Extended(CountFailure(purged, key, at), key, at, Cooldown(purged, key, at, e1));
            var (t2, d2) := RecordSubject(client, KeyOf(who, Username), at, e2);
            RecordFailure(t, who.client, who.username, at, e1, e2) == (t2, Combine(answer, d2))
  {
    CountThenExtend(Purge(t, at), KeyOf(who, Client), at, e1);
  }

  /** An undisturbed recording is the recording of the specification. */
  lemma RecordsAlone(s: State, id: nat, who: Subjects, at: nat, e1: Entropy, e2: Entropy)
    requires id in s.logins && s.logins[id] == Checked(who, Allowed)
    ensures var (t, d) := RecordFailure(s.table, who.client, who.username, at, e1, e2);
            Execution(s, RecordEvents(id, true, at, e1, e2)) == State(t, s.logins[id := Answered(d)])
  {
    var begin, end := [Finish(id, true, at), Advance(id, e1), Advance(id, e1)], [Advance(id, e1), Advance(id, e2), Advance(id, e2)];
    var middle := Begun(s, id, who, at, e1);
    FailureBegins(s, id, who, at, e1);
    FailureEnds(middle, id, who, at, Cooldown(Purge(s.table, at), KeyOf(who, Client), at, e1), e1, e2);
    ExecutionConcat(s, begin, end);
    assert begin + end == RecordEvents(id, true, at, e1, e2);
    ClientThenUsername(s.table, who, at, e1, e2);
    LoginsTwice(s.logins, id, middle.logins[id], Execution(middle, end).logins[id]);
  }

  /** After retention and the count of the client. */
  function Begun(s: State, id: nat, who: Subjects, at: nat, e: Entropy): State {
    var purged, key := Purge(s.table, at), KeyOf(who, Client);
    State(CountFailure(purged, key, at), s.logins[id := Failing(who, at, Extending(Client, Cooldown(purged, key, at, e)), Allowed)])
  }

  // ----- an undisturbed recording counts in turn

  lemma CountsOnlyCounting(s: State, event: Event)
    requires event.Advance? && event.id in s.logins ==> !(s.logins[event.id].Failing? && s.logins[event.id].stage.Counting?)
    ensures InTurn(s, event)
  {
  }

  lemma CountsAloneInTurn(s: State, id: nat, login: Login, e: Entropy)
    requires id in s.logins && s.logins[id] == login && login.Failing? && login.stage.Counting?
    requires NobodyElseRecords(s, id) && Free(s, KeyOf(login.who, login.stage.scope), login.at)
    ensures InTurn(s, Advance(id, e))
  {
    assert !Pending(s, KeyOf(login.who, login.stage.scope));
  }

  lemma BeginsInTurn(s: State, id: nat, who: Subjects, at: nat, e: Entropy)
    requires id in s.logins && s.logins[id] == Checked(who, Allowed)
    requires NobodyElseRecords(s, id) && Free(s, KeyOf(who, Client), at)
    ensures AllInTurn(s, [Finish(id, true, at), Advance(id, e), Advance(id, e)])
  {
    var s1 := s.(logins := s.logins[id := Failing(who, at, Purging, Allowed)]);
    var counting := Failing(who, at, Counting(Client), Allowed);
    var s2 := State(Purge(s.table, at), s.logins[id := counting]);
    ThreeEvents(s, Finish(id, true, at), Advance(id, e), Advance(id, e));
    Advances(s, id, Failing(who, at, Purging, Allowed), e, s2.table, counting);
    CountsOnlyCounting(s, Finish(id, true, at));
    CountsOnlyCounting(s1, Advance(id, e));
    CountsAloneInTurn(s2, id, counting, e);
  }

  lemma UsernameInTurn(s: State, id: nat, who: Subjects, at: nat, answer: Decision, e: Entropy)
    requires id in s.logins && s.logins[id] == Failing(who, at, Counting(Username), answer)
    requires NobodyElseRecords(s, id) && Free(s, KeyOf(who, Username), at)
    ensures AllInTurn(s, [Advance(id, e), Advance(id, e)])
  {
    var next := Step(s, Advance(id, e));
    CountsAloneInTurn(s, id, s.logins[id], e);
    CountsOnlyCounting(next, Advance(id, e));
    OneEvent(s, Advance(id, e));
    OneEvent(next, Advance(id, e));
    ExecutionConcat(s, [Advance(id, e)], [Advance(id, e)]);
    assert [Advance(id, e)] + [Advance(id, e)] == [Advance(id, e), Advance(id, e)];
  }

  lemma EndsInTurn(s: State, id: nat, who: Subjects, at: nat, cooldown: int, e1: Entropy, e2: Entropy)
    requires id in s.logins && s.logins[id] == Failing(who, at, Extending(Client, cooldown), Allowed)
    requires NobodyElseRecords(s, id) && Free(s, KeyOf(who, Username), at)
    ensures AllInTurn(s, [Advance(id, e1), Advance(id, e2), Advance(id, e2)])
  {
    var (client, answer) := Extended(s.table, KeyOf(who, Client), at, cooldown);
    ExtendsClient(s, id, who, at, cooldown, e1);
    CountsOnlyCounting(s, Advance(id, e1));
    OneEvent(s, Advance(id, e1));
    UsernameInTurn(State(client, s.logins[id := Failing(who, at, Counting(Username), answer)]), id, who, at, answer, e2);
    ExecutionConcat(s, [Advance(id, e1)], [Advance(id, e2), Advance(id, e2)]);
    assert [Advance(id, e1)] + [Advance(id, e2), Advance(id, e2)] == [Advance(id, e1), Advance(id, e2), Advance(id, e2)];
  }

  lemma RecordsInTurn(s: State, id: nat, who: Subjects, at: nat, e1: Entropy, e2: Entropy)
    requires id in s.logins && s.logins[id] == Checked(who, Allowed)
    requires NobodyElseRecords(s, id) && Free(s, KeyOf(who, Client), at) && Free(s, KeyOf(who, Username), at)
    ensures AllInTurn(s, RecordEvents(id, true, at, e1, e2))
  {
    var begin, end := [Finish(id, true, at), Advance(id, e1), Advance(id, e1)], [Advance(id, e1), Advance(id, e2), Advance(id, e2)];
    var middle := Begun(s, id, who, at, e1);
    FailureBegins(s, id, who, at, e1);
    BeginsInTurn(s, id, who, at, e1);
    EndsInTurn(middle, id, who, at, Cooldown(Purge(s.table, at), KeyOf(who, Client), at, e1), e1, e2);
    ExecutionConcat(s, begin, end);
    assert begin + end == RecordEvents(id, true, at, e1, e2);
  }

  // ----- a refused login records nothing, a successful one clears its username

  lemma NothingHappens(s: State, a: Event, b: Event, c: Event)
    requires Step(s, a) == s && Step(s, b) == s && Step(s, c) == s
    requires InTurn(s, a) && InTurn(s, b) && InTurn(s, c)
    ensures Execution(s, [a, b, c]) == s && AllInTurn(s, [a, b, c])
  {
    ThreeEvents(s, a, b, c);
  }

  lemma AtRest(s: State, id: nat, e: Entropy)
    requires id in s.logins && (s.logins[id].Checked? || s.logins[id].Answered?)
    ensures Step(s, Advance(id, e)) == s && InTurn(s, Advance(id, e))
  {
    assert s.logins[id := s.logins[id]] == s.logins;
  }

  lemma RefusedAlone(s: State, id: nat, who: Subjects, d: Decision, failed: bool, at: nat, e1: Entropy, e2: Entropy)
    requires id in s.logins && s.logins[id] == Checked(who, d) && d.Limited?
    ensures Execution(s, RecordEvents(id, failed, at, e1, e2)) == s && AllInTurn(s, RecordEvents(id, failed, at, e1, e2))
  {
    AtRest(s, id, e1);
    AtRest(s, id, e2);
    NothingHappens(s, Finish(id, failed, at), Advance(id, e1), Advance(id, e1));
    NothingHappens(s, Advance(id, e1), Advance(id, e2), Advance(id, e2));
    ExecutionConcat(s, [Finish(id, failed, at), Advance(id, e1), Advance(id, e1)], [Advance(id, e1), Advance(id, e2), Advance(id, e2)]);
    assert [Finish(id, failed, at), Advance(id, e1), Advance(id, e1)] + [Advance(id, e1), Advance(id, e2), Advance(id, e2)]
        == RecordEvents(id, failed, at, e1, e2);
  }

  lemma SuccessBegins(s: State, id: nat, who: Subjects, at: nat, e: Entropy)
    requires id in s.logins && s.logins[id] == Checked(who, Allowed)
    ensures Execution(s, [Finish(id, false, at), Advance(id, e), Advance(id, e)])
         == State(RecordSuccess(s.table, who.username), s.logins[id := Answered(Allowed)])
    ensures AllInTurn(s, [Finish(id, false, at), Advance(id, e), Advance(id, e)])
  {
    var next := State(RecordSuccess(s.table, who.username), s.logins[id := Answered(Allowed)]);
    Advances(s, id, Succeeding(who), e, next.table, Answered(Allowed));
    AtRest(next, id, e);
    CountsOnlyCounting(s, Finish(id, false, at));
    CountsOnlyCounting(s.(logins := s.logins[id := Succeeding(who)]), Advance(id, e));
    ThreeEvents(s, Finish(id, false, at), Advance(id, e), Advance(id, e));
  }

  lemma SuccessAlone(s: State, id: nat, who: Subjects, at: nat, e1: Entropy, e2: Entropy)
    requires id in s.logins && s.logins[id] == Checked(who, Allowed)
    ensures Execution(s, RecordEvents(id, false, at, e1, e2))
         == State(RecordSuccess(s.table, who.username), s.logins[id := Answered(Allowed)])
    ensures AllInTurn(s, RecordEvents(id, false, at, e1, e2))
  {
    var next := State(RecordSuccess(s.table, who.username), s.logins[id := Answered(Allowed)]);
    SuccessBegins(s, id, who, at, e1);
    AtRest(next, id, e1);
    AtRest(next, id, e2);
    NothingHappens(next, Advance(id, e1), Advance(id, e2), Advance(id, e2));
    ExecutionConcat(s, [Finish(id, false, at), Advance(id, e1), Advance(id, e1)], [Advance(id, e1), Advance(id, e2), Advance(id, e2)]);
    assert [Finish(id, false, at), Advance(id, e1), Advance(id, e1)] + [Advance(id, e1), Advance(id, e2), Advance(id, e2)]
        == RecordEvents(id, false, at, e1, e2);
  }

  // ----- sequential logins are one way to interleave

  function SubjectsOf(a: Attempt): Subjects {
    Subjects(a.client, a.username)
  }

  function AttemptEvents(id: nat, a: Attempt): seq<Event> {
    CheckEvents(id, SubjectsOf(a), a.checkedAt, 0.0) + RecordEvents(id, a.failed, a.recordedAt, a.e1, a.e2)
  }

  function EventsOf(run: seq<Attempt>): seq<Event> {
    if run == [] then [] else EventsOf(run[..|run| - 1]) + AttemptEvents(|run| - 1, run[|run| - 1])
  }

  lemma RecordingAlone(s: State, id: nat, a: Attempt, d: Decision)
    requires id in s.logins && s.logins[id] == Checked(SubjectsOf(a), d) && d == Check(s.table, a.client, a.username, a.checkedAt)
    requires NobodyElseRecords(s, id) && TableWithinHorizon(s.table, a.checkedAt) && a.checkedAt <= a.recordedAt
    ensures var t := Execution(s, RecordEvents(id, a.failed, a.recordedAt, a.e1, a.e2));
            t.table == Apply(s.table, a) && id in t.logins && t.logins == s.logins[id := t.logins[id]] && !t.logins[id].Failing?
    ensures AllInTurn(s, RecordEvents(id, a.failed, a.recordedAt, a.e1, a.e2))
  {
    var who := SubjectsOf(a);
    if d.Limited? {
      RefusedAlone(s, id, who, d, a.failed, a.recordedAt, a.e1, a.e2);
      assert s.logins == s.logins[id := s.logins[id]];
    } else if a.failed {
      assert Free(s, KeyOf(who, Client), a.recordedAt) && Free(s, KeyOf(who, Username), a.recordedAt);
      RecordsAlone(s, id, who, a.recordedAt, a.e1, a.e2);
      RecordsInTurn(s, id, who, a.recordedAt, a.e1, a.e2);
    } else {
      SuccessAlone(s, id, who, a.recordedAt, a.e1, a.e2);
    }
  }

  lemma AttemptAlone(s: State, id: nat, a: Attempt)
    requires id !in s.logins && NobodyElseRecords(s, id) && TableWithinHorizon(s.table, a.checkedAt) && a.checkedAt <= a.recordedAt
    ensures var t := Execution(s, AttemptEvents(id, a));
            && t.table == Apply(s.table, a) && t.logins.Keys == s.logins.Keys + {id}
            && NobodyElseRecords(t, id) && !t.logins[id].Failing?
    ensures AllInTurn(s, AttemptEvents(id, a))
  {
    var d := Check(s.table, a.client, a.username, a.checkedAt);
    ChecksAlone(s, id, SubjectsOf(a), a.checkedAt, 0.0);
    RecordingAlone(s.(logins := s.logins[id := Checked(SubjectsOf(a), d)]), id, a, d);
    ExecutionConcat(s, CheckEvents(id, SubjectsOf(a), a.checkedAt, 0.0), RecordEvents(id, a.failed, a.recordedAt, a.e1, a.e2));
  }

  /** The state after the events of a run, attempt by attempt. */
  function StateOf(run: seq<Attempt>): State {
    if run == [] then START else Execution(StateOf(run[..|run| - 1]), AttemptEvents(|run| - 1, run[|run| - 1]))
  }

  lemma {:induction false} SequentialState(run: seq<Attempt>)
    requires Sequential(run)
    ensures StateOf(run).table == Replay(run)
    ensures forall id :: id in StateOf(run).logins ==> id < |run| && !StateOf(run).logins[id].Failing?
    ensures run != [] ==> AllInTurn(StateOf(run[..|run| - 1]), AttemptEvents(|run| - 1, run[|run| - 1]))
  {
    if run != [] {
      var n := |run| - 1;
      var before, a := run[..n], run[n];
      SequentialState(before);
      ReplayHorizon(before);
      assert EndOf(before) <= a.checkedAt <= a.recordedAt;
      AttemptAlone(StateOf(before), n, a);
    }
  }

  lemma LastInTurn(run: seq<Attempt>)
    requires Sequential(run) && run != []
    ensures AllInTurn(StateOf(run[..|run| - 1]), AttemptEvents(|run| - 1, run[|run| - 1]))
  {
    SequentialState(run);
  }

  lemma {:induction false} EventsReachState(run: seq<Attempt>)
    requires Sequential(run)
    ensures Execution(START, EventsOf(run)) == StateOf(run) && AllInTurn(START, EventsOf(run))
  {
    if run != [] {
      var n := |run| - 1;
      EventsReachState(run[..n]);
      LastInTurn(run);
      ExecutionConcat(START, EventsOf(run[..n]), AttemptEvents(n, run[n]));
    }
  }

  /** Their table is the sequential one, and each of their failures is counted in turn. */
  lemma SequentialIsInterleaved(run: seq<Attempt>)
    requires Sequential(run)
    ensures Execution(START, EventsOf(run)).table == Replay(run)
    ensures AllInTurn(START, EventsOf(run))
  {
    SequentialState(run);
    EventsReachState(run);
  }

  /** In every run of sequential attempts no username is counted beyond 17 and no client beyond 25. */
  lemma CountersStayBelowCeiling(run: seq<Attempt>)
    requires Sequential(run)
    ensures forall k :: k in Replay(run) ==> 1 <= Replay(run)[k].failures <= if k.scope == Client then 25 else 17
  {
    SequentialIsInterleaved(run);
    forall k | k in Replay(run) ensures 1 <= Replay(run)[k].failures <= if k.scope == Client then 25 else 17 {
      InTurnStaysBelowCeiling(EventsOf(run), k);
    }
  }

  // ----- logins that are all checked before the first of them is recorded

  function AllChecked(n: nat, who: Subjects, at: nat): seq<Event> {
    if n == 0 then [] else AllChecked(n - 1, who, at) + CheckEvents(n - 1, who, at, 0.0)
  }

  function AllRecorded(k: nat, at: nat, e: Entropy): seq<Event> {
    if k == 0 then [] else AllRecorded(k - 1, at, e) + RecordEvents(k - 1, true, at, e, e)
  }

  /** Logins `k` to `n - 1` passed and have recorded nothing. */
  predicate Waiting(s: State, k: nat, n: nat, who: Subjects) {
    forall id :: k <= id < n ==> id in s.logins && s.logins[id] == Checked(who, Allowed)
  }

  /** The same as a state, login by login. */
  function CheckedState(n: nat, who: Subjects, at: nat): State {
    if n == 0 then START else Execution(CheckedState(n - 1, who, at), CheckEvents(n - 1, who, at, 0.0))
  }

  function RecordedState(s: State, k: nat, at: nat, e: Entropy): State {
    if k == 0 then s else Execution(RecordedState(s, k - 1, at, e), RecordEvents(k - 1, true, at, e, e))
  }

  lemma {:induction false} ChecksReachState(n: nat, who: Subjects, at: nat)
    ensures Execution(START, AllChecked(n, who, at)) == CheckedState(n, who, at)
  {
    if n > 0 {
      ChecksReachState(n - 1, who, at);
      ExecutionConcat(START, AllChecked(n - 1, who, at), CheckEvents(n - 1, who, at, 0.0));
    }
  }

  lemma {:induction false} RecordsReachState(s: State, k: nat, at: nat, e: Entropy)
    ensures Execution(s, AllRecorded(k, at, e)) == RecordedState(s, k, at, e)
  {
    if k > 0 {
      RecordsReachState(s, k - 1, at, e);
      ExecutionConcat(s, AllRecorded(k - 1, at, e), RecordEvents(k - 1, true, at, e, e));
    }
  }

  lemma {:induction false} AllChecksPass(n: nat, who: Subjects, at: nat)
    ensures var s := CheckedState(n, who, at);
            s.table == map[] && Waiting(s, 0, n, who) && forall id :: id in s.logins ==> id < n
  {
    if n > 0 {
      AllChecksPass(n - 1, who, at);
      ChecksAlone(CheckedState(n - 1, who, at), n - 1, who, at, 0.0);
    }
  }

  /** The counter of a subject failing for the `k`-th time at one instant. */
  predicate CountedTogether(t: Table, key: Key, k: nat, at: nat) {
    if k == 0 then key !in t
    else && key in t && t[key].failures == k && t[key].windowStart == at && t[key].updatedAt == at
         && (k >= Limit(key.scope) + 6 ==> t[key].blockedUntil >= at + MAX_COOLDOWN_MS)
  }

  lemma OneMoreSubject(t: Table, key: Key, k: nat, at: nat, e: Entropy)
    requires CountedTogether(t, key, k, at)
    ensures CountedTogether(RecordSubject(t, key, at, e).0, key, k + 1, at)
  {
    if k + 1 >= Limit(key.scope) + 6 {
      LongCooldown(k + 1, Limit(key.scope));
    }
  }

  lemma LongCooldown(failures: int, limit: int)
    requires failures >= limit + 6
    ensures CooldownMs(failures, limit) == MAX_COOLDOWN_MS
  {
    PowersUpTo6();
  }

  lemma OneMoreTogether(t: Table, who: Subjects, k: nat, at: nat, e: Entropy)
    requires CountedTogether(t, KeyOf(who, Client), k, at) && CountedTogether(t, KeyOf(who, Username), k, at)
    ensures var t' := RecordFailure(t, who.client, who.username, at, e, e).0;
            CountedTogether(t', KeyOf(who, Client), k + 1, at) && CountedTogether(t', KeyOf(who, Username), k + 1, at)
  {
    var c, u := KeyOf(who, Client), KeyOf(who, Username);
    var purged := Purge(t, at);
    var first := RecordSubject(purged, c, at, e).0;
    assert CountedTogether(purged, c, k, at) && CountedTogether(purged, u, k, at);
    OneMoreSubject(purged, c, k, at, e);
    RecordSubjectFrame(purged, c, at, e, u);
    OneMoreSubject(first, u, k, at, e);
    RecordSubjectFrame(first, u, at, e, c);
  }

  lemma {:induction false} AllFailuresCount(s: State, k: nat, n: nat, who: Subjects, at: nat, e: Entropy)
    requires k <= n && Waiting(s, 0, n, who) && KeyOf(who, Client) !in s.table && KeyOf(who, Username) !in s.table
    ensures var t := RecordedState(s, k, at, e);
            && Waiting(t, k, n, who) && (forall id :: id in s.logins && id >= k ==> id in t.logins && t.logins[id] == s.logins[id])
            && CountedTogether(t.table, KeyOf(who, Client), k, at) && CountedTogether(t.table, KeyOf(who, Username), k, at)
  {
    if k > 0 {
      var before := RecordedState(s, k - 1, at, e);
      AllFailuresCount(s, k - 1, n, who, at, e);
      OneMoreRecorded(before, k - 1, who, at, e);
      OneMoreTogether(before.table, who, k - 1, at, e);
    }
  }

  lemma OneMoreRecorded(s: State, id: nat, who: Subjects, at: nat, e: Entropy)
    requires id in s.logins && s.logins[id] == Checked(who, Allowed)
    ensures var t := Execution(s, RecordEvents(id, true, at, e, e));
            && t.table == RecordFailure(s.table, who.client, who.username, at, e, e).0
            && forall other :: other in s.logins && other != id ==> other in t.logins && t.logins[other] == s.logins[other]
  {
    RecordsAlone(s, id, who, at, e, e);
  }

  /** Any number of logins checked before the first is recorded all pass, and all their failures count. */
  lemma ConcurrentFailuresAllCount(n: nat, k: nat, who: Subjects, now: nat, e: Entropy)
    requires k <= n
    ensures var s := Execution(START, AllChecked(n, who, now) + AllRecorded(k, now, e));
            && Waiting(s, k, n, who)
            && CountedTogether(s.table, KeyOf(who, Client), k, now) && CountedTogether(s.table, KeyOf(who, Username), k, now)
  {
    AllChecksPass(n, who, now);
    ChecksReachState(n, who, now);
    AllFailuresCount(CheckedState(n, who, now), k, n, who, now, e);
    RecordsReachState(CheckedState(n, who, now), k, now, e);
    ExecutionConcat(START, AllChecked(n, who, now), AllRecorded(k, now, e));
  }

  // ----- a statement that comes a day late

  const LATE: nat := 26
  const LAG: nat := RETENTION_MS - MAX_COOLDOWN_MS + 1

  lemma {:induction false} LatestOfChecks(n: nat, who: Subjects, at: nat)
    ensures forall i :: 0 <= i < |AllChecked(n, who, at)| ==> !AllChecked(n, who, at)[i].Finish?
  {
    if n > 0 {
      LatestOfChecks(n - 1, who, at);
    }
  }

  lemma {:induction false} StampsOfRecords(k: nat, at: nat, e: Entropy)
    ensures forall i :: 0 <= i < |AllRecorded(k, at, e)| && AllRecorded(k, at, e)[i].Finish? ==> AllRecorded(k, at, e)[i].at == at
  {
    if k > 0 {
      StampsOfRecords(k - 1, at, e);
    }
  }

  lemma {:induction false} LatestAtMost(events: seq<Event>, most: nat)
    requires forall i :: 0 <= i < |events| && events[i].Finish? ==> events[i].at <= most
    ensures Latest(events) <= most
    decreases |events|
  {
    if events != [] {
      LatestAtMost(events[..|events| - 1], most);
    }
  }

  /** 27 logins pass; the last fails at time 0, but its statements come after those of the others, stamped `LAG`. */
  function LateEvents(who: Subjects): seq<Event> {
    AllChecked(LATE + 1, who, 0) + [Finish(LATE, true, 0)] + AllRecorded(LATE, LAG, 0.0) + [Advance(LATE, 0.0), Advance(LATE, 0.0)]
  }

  lemma LateEventsLag(who: Subjects)
    ensures Lagging(LateEvents(who), LAG)
  {
    LatestOfChecks(LATE + 1, who, 0);
    StampsOfRecords(LATE, LAG, 0.0);
    LatestAtMost(LateEvents(who), LAG);
    EveryRunLags(LateEvents(who), LAG);
  }

  lemma TwoLateStatements(s: State, id: nat, who: Subjects, at: nat)
    requires id in s.logins && s.logins[id] == Failing(who, at, Purging, Allowed)
    ensures Execution(s, [Advance(id, 0.0), Advance(id, 0.0)]).table == CountFailure(Purge(s.table, at), KeyOf(who, Client), at)
  {
    TwoEvents(s, Advance(id, 0.0), Advance(id, 0.0));
  }

  /** One millisecond more of delay, and retention can remove a row that still blocks. */
  lemma RetentionMayLiftBlock(who: Subjects)
    ensures Lagging(LateEvents(who), RETENTION_MS - MAX_COOLDOWN_MS + 1)
    ensures var t, k, now := Execution(START, LateEvents(who)).table, KeyOf(who, Client), RETENTION_MS + 1;
            k in t && t[k].blockedUntil >= now && k !in Purge(t, now)
  {
    LateEventsLag(who);
    var checks, late, records := AllChecked(LATE + 1, who, 0), [Finish(LATE, true, 0)], AllRecorded(LATE, LAG, 0.0);
    AllChecksPass(LATE + 1, who, 0);
    ChecksReachState(LATE + 1, who, 0);
    var s1 := CheckedState(LATE + 1, who, 0);
    OneEvent(s1, late[0]);
    var s2 := Step(s1, late[0]);
    AllFailuresCount(s2, LATE, LATE, who, LAG, 0.0);
    RecordsReachState(s2, LATE, LAG, 0.0);
    var s3 := RecordedState(s2, LATE, LAG, 0.0);
    TwoLateStatements(s3, LATE, who, 0);
    ExecutionConcat(START, checks, late);
    ExecutionConcat(START, checks + late, records);
    ExecutionConcat(START, checks + late + records, [Advance(LATE, 0.0), Advance(LATE, 0.0)]);
  }
}
