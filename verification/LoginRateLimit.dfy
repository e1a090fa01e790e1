/**
 The login rate limiter: one counter row per (scope, subject), kept in a table.

 Every SQL statement of the limiter is a function on the table (`Purge`, `CountFailure`,
 `ExtendBlock`); a request is the composition of its statements. The class `LoginLimiter`
 runs the statements one after the other on its `rows` field.

 Subjects stand for their hashes (the hash is taken to be injective). The random draw of the
 jitter is the parameter `Entropy`.
 */
module LoginRateLimit {
  import opened Prelude

  const CLIENT_WINDOW_MS: nat := 60_000
  const CLIENT_LIMIT: nat := 20
  const USERNAME_WINDOW_MS: nat := 300_000
  const USERNAME_LIMIT: nat := 8
  const BASE_COOLDOWN_MS: nat := 1_000
  const MAX_COOLDOWN_MS: nat := 60_000
  const MAX_JITTER_MS: nat := 250
  const RETENTION_MS: nat := 86_400_000

  datatype Scope = Client | Username
  datatype Key = Key(scope: Scope, subject: string)
  datatype Row = Row(failures: int, windowStart: int, blockedUntil: int, updatedAt: int)
  datatype Decision = Allowed | Limited(retryAfterSeconds: int, scope: Scope)
  type Table = map<Key, Row>

  /** A 16-bit random draw divided by 65535: both ends are possible. */
  type Entropy = e: real | 0.0 <= e <= 1.0

  function Window(scope: Scope): nat {
    if scope == Client then CLIENT_WINDOW_MS else USERNAME_WINDOW_MS
  }

  function Limit(scope: Scope): nat {
    if scope == Client then CLIENT_LIMIT else USERNAME_LIMIT
  }

  function Pow2(n: nat): nat {
    if n == 0 then 1 else 2 * Pow2(n - 1)
  }

  function CooldownMs(failures: int, limit: int): int {
    if failures < limit then 0
    else Min(MAX_COOLDOWN_MS, BASE_COOLDOWN_MS * Pow2(Min(6, Max(0, failures - limit))))
  }

  function JitteredMs(base: int, e: Entropy): int {
    if base <= 0 || base >= MAX_COOLDOWN_MS then base
    else
      var spread := Min(MAX_JITTER_MS, Max(1, base / 4));
      Min(MAX_COOLDOWN_MS, base + (e * spread as real).Floor)
  }

  /** Ceiling of the remaining milliseconds in seconds, at least one. */
  function RetryAfterSeconds(blockedUntil: int, now: int): int {
    Max(1, -((now - blockedUntil) / 1000))
  }

  // ----- statements

  /** DELETE ... WHERE updated_at < now - RETENTION_MS */
  function Purge(t: Table, now: int): Table {
    map k | k in t && t[k].updatedAt >= now - RETENTION_MS :: t[k]
  }

  /** INSERT ... ON CONFLICT DO UPDATE: the row after counting one failure. */
  function Counted(t: Table, key: Key, now: int): Row {
    if key !in t then Row(1, now, 0, now)
    else
      var row := t[key];
      if row.windowStart <= now - Window(key.scope)
      then row.(failures := 1, windowStart := now, updatedAt := now)
      else row.(failures := row.failures + 1, updatedAt := now)
  }

  function CountFailure(t: Table, key: Key, now: int): Table {
    t[key := Counted(t, key, now)]
  }

  /** UPDATE ... SET blocked_until = MAX(blocked_until, ?), updated_at = ? */
  function ExtendBlock(t: Table, key: Key, until: int, now: int): Table {
    if key !in t then t
    else t[key := t[key].(blockedUntil := Max(t[key].blockedUntil, until), updatedAt := now)]
  }

  // ----- requests

  function CheckSubject(t: Table, key: Key, now: int): Decision {
    if key !in t || t[key].blockedUntil <= now then Allowed
    else Limited(RetryAfterSeconds(t[key].blockedUntil, now), key.scope)
  }

  /** The stricter of the two decisions; ties go to the client. */
  function Combine(client: Decision, username: Decision): Decision {
    if client.Allowed? then username
    else if username.Allowed? || client.retryAfterSeconds >= username.retryAfterSeconds then client
    else username
  }

  function Check(t: Table, client: string, username: string, now: int): Decision {
    Combine(CheckSubject(t, Key(Client, client), now), CheckSubject(t, Key(Username, username), now))
  }

  predicate Blocked(t: Table, key: Key, at: int) {
    key in t && t[key].blockedUntil > at
  }

  /** Neither subject is blocked that many seconds from now, if nothing is recorded meanwhile. */
  predicate FreeAfter(t: Table, client: string, username: string, now: int, seconds: int) {
    !Blocked(t, Key(Client, client), now + 1000 * seconds) && !Blocked(t, Key(Username, username), now + 1000 * seconds)
  }

  function RecordSubject(t: Table, key: Key, now: int, e: Entropy): (Table, Decision) {
    var counted := CountFailure(t, key, now);
    var cooldown := JitteredMs(CooldownMs(counted[key].failures, Limit(key.scope)), e);
    if cooldown <= 0 then (counted, Allowed)
    else (ExtendBlock(counted, key, now + cooldown, now),
          Limited(RetryAfterSeconds(now + cooldown, now), key.scope))
  }

  function RecordFailure(t: Table, client: string, username: string, now: int, e1: Entropy, e2: Entropy): (Table, Decision) {
    var (t1, d1) := RecordSubject(Purge(t, now), Key(Client, client), now, e1);
    var (t2, d2) := RecordSubject(t1, Key(Username, username), now, e2);
    (t2, Combine(d1, d2))
  }

  function RecordSuccess(t: Table, username: string): Table {
    t - {Key(Username, username)}
  }

  /** Retention drops the rows that were last written more than a day ago, and no others. */
  lemma RetentionExactly(t: Table, now: int, k: Key)
    ensures k in Purge(t, now) <==> k in t && now - t[k].updatedAt <= 86_400_000
    ensures k in Purge(t, now) ==> Purge(t, now)[k] == t[k]
  {
  }

  /** A success forgets the username's counter, if there is one, and nothing else. */
  lemma SuccessForgetsUsername(t: Table, username: string, k: Key)
    ensures Key(Username, username) !in RecordSuccess(t, username)
    ensures k != Key(Username, username) ==>
              (k in RecordSuccess(t, username) <==> k in t) && (k in t ==> RecordSuccess(t, username)[k] == t[k])
  {
  }

  /**
   A recorded failure is the first of its subject when there was no row or its window has ended, and
   otherwise the next; the window starts with the first. From the limit on it blocks the subject for
   at least the cooldown, and any block already there stays.
   */
  lemma RecordedFailure(t: Table, key: Key, now: int, e: Entropy)
    ensures var t' := RecordSubject(t, key, now, e).0;
            var first := key !in t || now >= t[key].windowStart + Window(key.scope);
            && key in t' && t'[key].updatedAt == now
            && t'[key].failures == (if first then 1 else t[key].failures + 1)
            && t'[key].windowStart == (if first then now else t[key].windowStart)
            && (t'[key].failures < Limit(key.scope) ==> t'[key].blockedUntil == if key in t then t[key].blockedUntil else 0)
            && (t'[key].failures >= Limit(key.scope) ==>
                  && t'[key].blockedUntil >= now + CooldownMs(t'[key].failures, Limit(key.scope))
                  && t'[key].blockedUntil >= if key in t then t[key].blockedUntil else 0)
  {
    CooldownBounds(Counted(t, key, now).failures, Limit(key.scope), e);
  }

  /** The answer to a failure is limited exactly when one of its two counters has reached its limit. */
  lemma RecordedAnswer(t: Table, client: string, username: string, now: int, e1: Entropy, e2: Entropy)
    ensures var (t', d) := RecordFailure(t, client, username, now, e1, e2);
            var c, u := Key(Client, client), Key(Username, username);
            && c in t' && u in t'
            && (d.Limited? <==> t'[c].failures >= Limit(Client) || t'[u].failures >= Limit(Username))
            && (d.Limited? && t'[c].failures >= Limit(Client) ==>
                  1000 * d.retryAfterSeconds >= CooldownMs(t'[c].failures, Limit(Client)))
            && (d.Limited? && t'[u].failures >= Limit(Username) ==>
                  1000 * d.retryAfterSeconds >= CooldownMs(t'[u].failures, Limit(Username)))
  {
    var c, u := Key(Client, client), Key(Username, username);
    var t1 := RecordSubject(Purge(t, now), c, now, e1).0;
    CooldownBounds(Counted(Purge(t, now), c, now).failures, Limit(Client), e1);
    CooldownBounds(Counted(t1, u, now).failures, Limit(Username), e2);
    RecordSubjectFrame(t1, u, now, e2, c);
  }

  /** The limiter object: its table is replaced statement by statement. */
  class LoginLimiter {
    var rows: Table

    constructor ()
      ensures rows == map[]
    {
      rows := map[];
    }

    /**
     The attempt is limited when either subject is blocked, and the time returned is the least whole
     number of seconds that frees both; the subject named is the one that takes that long.
     */
    method CheckLogin(client: string, username: string, now: int) returns (d: Decision)
      ensures d == Check(rows, client, username, now)
      ensures d.Limited? <==> Blocked(rows, Key(Client, client), now) || Blocked(rows, Key(Username, username), now)
      ensures d.Limited? ==> d.retryAfterSeconds >= 1
      ensures d.Limited? ==> forall seconds: nat :: FreeAfter(rows, client, username, now, seconds) <==> seconds >= d.retryAfterSeconds
      ensures d.Limited? ==> (d.scope == Client <==> Blocked(rows, Key(Client, client), now + 1000 * (d.retryAfterSeconds - 1)))
    {
      var c := CheckSubject(rows, Key(Client, client), now);
      var u := CheckSubject(rows, Key(Username, username), now);
      if c.Allowed? { return u; }
      if u.Allowed? || c.retryAfterSeconds >= u.retryAfterSeconds { return c; }
      return u;
    }

    method RecordSubjectFailure(key: Key, now: int, e: Entropy) returns (d: Decision)
      modifies this
      ensures (rows, d) == RecordSubject(old(rows), key, now, e)
    {
      if key !in rows {
        rows := rows[key := Row(1, now, 0, now)];
      } else {
        var row := rows[key];
        var expired := row.windowStart <= now - Window(key.scope);
        rows := rows[key := Row(if expired then 1 else row.failures + 1,
                                if expired then now else row.windowStart,
                                row.blockedUntil,
                                now)];
      }
      var cooldown := JitteredMs(CooldownMs(rows[key].failures, Limit(key.scope)), e);
      if cooldown <= 0 {
        return Allowed;
      }
      var until := now + cooldown;
      rows := rows[key := rows[key].(blockedUntil := Max(rows[key].blockedUntil, until), updatedAt := now)];
      d := Limited(RetryAfterSeconds(until, now), key.scope);
    }

    method RecordLoginFailure(client: string, username: string, now: int, e1: Entropy, e2: Entropy) returns (d: Decision)
      modifies this
      ensures (rows, d) == RecordFailure(old(rows), client, username, now, e1, e2)
    {
      rows := map k | k in rows && rows[k].updatedAt >= now - RETENTION_MS :: rows[k];
      var c := RecordSubjectFailure(Key(Client, client), now, e1);
      var u := RecordSubjectFailure(Key(Username, username), now, e2);
      d := Combine(c, u);
    }

    method RecordLoginSuccess(username: string)
      modifies this
      ensures rows == RecordSuccess(old(rows), username)
      ensures rows.Keys == old(rows).Keys - {Key(Username, username)} && forall k :: k in rows ==> rows[k] == old(rows)[k]
    {
      rows := map k | k in rows && k != Key(Username, username) :: rows[k];
    }
  }

  // ----- runs of login attempts

  /** One login attempt: it is checked, and if it passes its outcome is recorded. */
  datatype Attempt = Attempt(client: string, username: string, checkedAt: nat, recordedAt: nat,
                             failed: bool, e1: Entropy, e2: Entropy)

  function Apply(t: Table, a: Attempt): Table {
    if !Check(t, a.client, a.username, a.checkedAt).Allowed? then t
    else if a.failed then RecordFailure(t, a.client, a.username, a.recordedAt, a.e1, a.e2).0
    else RecordSuccess(t, a.username)
  }

  /** Attempts run one at a time on a clock that never goes back. */
  predicate Sequential(run: seq<Attempt>) {
    && (forall i :: 0 <= i < |run| ==> run[i].checkedAt <= run[i].recordedAt)
    && (forall i, j :: 0 <= i < j < |run| ==> run[i].recordedAt <= run[j].checkedAt)
  }

  function Replay(run: seq<Attempt>): Table {
    if run == [] then map[] else Apply(Replay(run[..|run| - 1]), run[|run| - 1])
  }

  function EndOf(run: seq<Attempt>): nat {
    if run == [] then 0 else run[|run| - 1].recordedAt
  }

  /** Total cooldown imposed by failures number `Limit(scope)` up to `failures` of one window. */
  function Served(failures: nat, scope: Scope): nat {
    if failures < Limit(scope) then 0
    else Served(failures - 1, scope) + CooldownMs(failures, Limit(scope))
  }

  function Ceiling(scope: Scope): nat {
    if scope == Client then 25 else 17
  }

  /** What every row satisfies at time `now`, whether or not attempts were checked first. */
  predicate WithinHorizon(row: Row, now: int) {
    && 1 <= row.failures
    && 0 <= row.windowStart <= row.updatedAt <= now
    && 0 <= row.blockedUntil <= row.updatedAt + MAX_COOLDOWN_MS
  }

  predicate TableWithinHorizon(t: Table, now: int) {
    forall k :: k in t ==> WithinHorizon(t[k], now)
  }

  lemma CooldownBounds(failures: int, limit: int, e: Entropy)
    ensures var base := CooldownMs(failures, limit);
            && (failures < limit <==> base == 0)
            && 0 <= base <= JitteredMs(base, e) <= MAX_COOLDOWN_MS
            && (base == 0 ==> JitteredMs(base, e) == 0)
            && (base > 0 ==> base >= BASE_COOLDOWN_MS)
  {
    PowersUpTo6();
    var base := CooldownMs(failures, limit);
    var spread := Min(MAX_JITTER_MS, Max(1, base / 4));
    assert 0.0 <= e * spread as real;
  }

  lemma Scaled(low: real, high: real, spread: nat)
    requires low <= high
    ensures (low * spread as real).Floor <= (high * spread as real).Floor
  {
    assert low * spread as real <= high * spread as real;
  }

  /** Jitter adds nothing at the lowest draw, and a quarter of the cooldown but at most 250 ms at the highest. */
  lemma JitterEnds(base: int)
    requires 0 < base < MAX_COOLDOWN_MS
    ensures JitteredMs(base, 0.0) == base
    ensures JitteredMs(base, 1.0) == Min(MAX_COOLDOWN_MS, base + Min(250, Max(1, base / 4)))
  {
    var spread: int := Min(MAX_JITTER_MS, Max(1, base / 4));
    assert 0.0 * spread as real == 0.0 && 1.0 * spread as real == spread as real;
  }

  /** And it grows with the draw in between. */
  lemma JitterGrows(base: int, low: Entropy, high: Entropy)
    requires 0 < base < MAX_COOLDOWN_MS && low <= high
    ensures JitteredMs(base, low) <= JitteredMs(base, high)
  {
    Scaled(low, high, Min(MAX_JITTER_MS, Max(1, base / 4)));
  }

  lemma PowersUpTo6()
    ensures Pow2(0) == 1 && Pow2(1) == 2 && Pow2(2) == 4 && Pow2(3) == 8
    ensures Pow2(4) == 16 && Pow2(5) == 32 && Pow2(6) == 64
  {
    assert Pow2(3) == 8;
    assert Pow2(6) == 64;
  }

  lemma CooldownLadder(k: nat, limit: nat)
    ensures CooldownMs(limit + k, limit)
         == if k == 0 then 1000 else if k == 1 then 2000 else if k == 2 then 4000
            else if k == 3 then 8000 else if k == 4 then 16000 else if k == 5 then 32000 else 60000
  {
    PowersUpTo6();
  }

  /** The cooldowns of the first `k + 1` failures from the limit on, added up. */
  lemma {:induction false} ServedLadder(scope: Scope, k: nat)
    ensures Served(Limit(scope) + k, scope)
         == if k == 0 then 1000 else if k == 1 then 3000 else if k == 2 then 7000 else if k == 3 then 15000
            else if k == 4 then 31000 else 63000 + 60000 * (k - 5)
  {
    CooldownLadder(k, Limit(scope));
    if k == 0 {
      assert Served(Limit(scope) - 1, scope) == 0;
    } else {
      ServedLadder(scope, k - 1);
    }
  }

  /** The cooldowns fill the window exactly at the ceiling and not before. */
  lemma CooldownsFillWindow(scope: Scope)
    ensures Served(Ceiling(scope), scope) >= Window(scope)
    ensures Served(Ceiling(scope) - 1, scope) < Window(scope)
  {
    ServedLadder(scope, Ceiling(scope) - Limit(scope));
    ServedLadder(scope, Ceiling(scope) - Limit(scope) - 1);
  }

  // ----- horizon of a block

  lemma RecordSubjectHorizon(t: Table, key: Key, now: nat, e: Entropy)
    requires TableWithinHorizon(t, now)
    ensures TableWithinHorizon(RecordSubject(t, key, now, e).0, now)
    ensures var d := RecordSubject(t, key, now, e).1; d.Limited? ==> 1 <= d.retryAfterSeconds <= 60
    ensures key in t ==> RecordSubject(t, key, now, e).0[key].blockedUntil >= t[key].blockedUntil
  {
    CooldownBounds(Counted(t, key, now).failures, Limit(key.scope), e);
  }

  /** Recording keeps every block within a minute of its row's last update, and only ever lengthens it. */
  lemma RecordFailureHorizon(t: Table, client: string, username: string, clock: nat, now: nat, e1: Entropy, e2: Entropy)
    requires TableWithinHorizon(t, clock) && clock <= now
    ensures var (t', d) := RecordFailure(t, client, username, now, e1, e2);
            && TableWithinHorizon(t', now)
            && (d.Limited? ==> 1 <= d.retryAfterSeconds <= 60)
            && (forall k :: k in t && k in t' && t[k].updatedAt >= now - RETENTION_MS ==> t'[k].blockedUntil >= t[k].blockedUntil)
            && (forall k :: k in t && t[k].blockedUntil >= now ==> k in t' && t'[k].blockedUntil >= t[k].blockedUntil)
  {
    var c, u := Key(Client, client), Key(Username, username);
    var t0 := Purge(t, now);
    RecordSubjectHorizon(t0, c, now, e1);
    var t1 := RecordSubject(t0, c, now, e1).0;
    RecordSubjectHorizon(t1, u, now, e2);
    forall k | k in t0 ensures k in t1 && t1[k].blockedUntil >= t0[k].blockedUntil {
      if k != c { RecordSubjectFrame(t0, c, now, e1, k); }
    }
    var t2 := RecordSubject(t1, u, now, e2).0;
    forall k | k in t1 ensures k in t2 && t2[k].blockedUntil >= t1[k].blockedUntil {
      if k != u { RecordSubjectFrame(t1, u, now, e2, k); }
    }
  }

  /** Counting a failure of one key leaves the decision on every other key alone. */
  lemma RecordSubjectFrame(t: Table, key: Key, now: int, e: Entropy, other: Key)
    requires other != key
    ensures var t' := RecordSubject(t, key, now, e).0;
            (other in t' <==> other in t) && (other in t ==> t'[other] == t[other])
  {
  }

  lemma {:induction false} ReplayHorizon(run: seq<Attempt>)
    requires Sequential(run)
    ensures TableWithinHorizon(Replay(run), EndOf(run))
  {
    if run != [] {
      var before, a := run[..|run| - 1], run[|run| - 1];
      ReplayHorizon(before);
      assert EndOf(before) <= a.recordedAt;
      RecordFailureHorizon(Replay(before), a.client, a.username, EndOf(before), a.recordedAt, a.e1, a.e2);
    }
  }

  // ----- both ceilings are reached

  function Fresh(n: nat): string {
    if n == 0 then "" else Fresh(n - 1) + "x"
  }

  lemma FreshLength(n: nat)
    ensures |Fresh(n)| == n
  {
  }

  /** The n-th attempt of the fastest climb: at the instant the previous block ends. */
  function ClimbAttempt(scope: Scope, n: nat): Attempt
    requires n > 0
  {
    var at := Served(n - 1, scope);
    if scope == Client then Attempt("", Fresh(n), at, at, true, 0.0, 0.0)
    else Attempt(Fresh(n), "", at, at, true, 0.0, 0.0)
  }

  function Climb(scope: Scope, n: nat): seq<Attempt> {
    if n == 0 then [] else Climb(scope, n - 1) + [ClimbAttempt(scope, n)]
  }

  function Other(scope: Scope): Scope {
    if scope == Client then Username else Client
  }

  lemma ServedMonotone(a: nat, b: nat, scope: Scope)
    requires a <= b
    ensures Served(a, scope) <= Served(b, scope)
  {
    if a < b {
      ServedMonotone(a, b - 1, scope);
      CooldownBounds(b, Limit(scope), 0.0);
    }
  }

  lemma {:induction false} ClimbIsSequential(scope: Scope, n: nat)
    ensures Sequential(Climb(scope, n)) && |Climb(scope, n)| == n
    ensures forall i :: 0 <= i < n ==> Climb(scope, n)[i] == ClimbAttempt(scope, i + 1)
  {
    if n > 0 {
      ClimbIsSequential(scope, n - 1);
      forall i | 0 <= i < n - 1
        ensures Climb(scope, n)[i].recordedAt <= Climb(scope, n)[n - 1].checkedAt
      {
        ServedMonotone(i, n - 1, scope);
      }
    }
  }

  predicate AtRung(t: Table, scope: Scope, n: nat) {
    var k := Key(scope, "");
    if n == 0 then k !in t
    else k in t && t[k].failures == n && t[k].windowStart == 0 && t[k].blockedUntil == Served(n, scope)
  }

  /** The state of the climb after n attempts. */
  predicate Climbed(t: Table, scope: Scope, n: nat) {
    && AtRung(t, scope, n)
    && (forall j :: j in t ==> t[j].updatedAt >= 0)
    && (forall j :: j in t && j.scope == Other(scope) ==> |j.subject| <= n)
  }

  /** The row of a recorded failure in closed form. */
  lemma RecordedRow(t: Table, key: Key, now: int, e: Entropy)
    ensures var row := Counted(t, key, now);
            var cooldown := JitteredMs(CooldownMs(row.failures, Limit(key.scope)), e);
            RecordSubject(t, key, now, e).0
              == t[key := if cooldown <= 0 then row else row.(blockedUntil := Max(row.blockedUntil, now + cooldown))]
  {
    var row := Counted(t, key, now);
    assert row.updatedAt == now;
  }

  lemma ServedStep(scope: Scope, n: nat)
    requires n > 0
    ensures n < Limit(scope) ==> Served(n, scope) == Served(n - 1, scope) == 0 == CooldownMs(n, Limit(scope))
    ensures n >= Limit(scope) ==> Served(n, scope) == Served(n - 1, scope) + CooldownMs(n, Limit(scope)) > Served(n - 1, scope)
  {
    CooldownBounds(n, Limit(scope), 0.0);
  }

  lemma ClimbInWindow(scope: Scope, n: nat)
    requires 1 <= n <= Ceiling(scope)
    ensures 0 <= Served(n - 1, scope) < Window(scope)
  {
    CooldownsFillWindow(scope);
    ServedMonotone(n - 1, Ceiling(scope) - 1, scope);
  }

  /** The climbing key passes its check and takes the next row of the climb. */
  lemma ClimbRow(t: Table, scope: Scope, n: nat)
    requires 1 <= n <= Ceiling(scope) && AtRung(t, scope, n - 1)
    ensures var now := Served(n - 1, scope);
            && CheckSubject(t, Key(scope, ""), now).Allowed?
            && RecordSubject(t, Key(scope, ""), now, 0.0).0 == t[Key(scope, "") := Row(n, 0, Served(n, scope), now)]
  {
    var k, now := Key(scope, ""), Served(n - 1, scope);
    ClimbInWindow(scope, n);
    ServedStep(scope, n);
    var row := Counted(t, k, now);
    assert row == Row(n, 0, now, now);
    JitterlessCooldown(n, Limit(scope));
    RecordedRow(t, k, now, 0.0);
  }

  lemma FirstFailure(t: Table, key: Key, now: int)
    requires key !in t
    ensures CheckSubject(t, key, now).Allowed?
    ensures RecordSubject(t, key, now, 0.0).0 == t[key := Row(1, now, 0, now)]
  {
    CooldownBounds(1, Limit(key.scope), 0.0);
  }

  /** One attempt of the climb: the climbing key and a key never seen before are both counted. */
  lemma ClimbStep(t: Table, scope: Scope, n: nat)
    requires 1 <= n <= Ceiling(scope) && Climbed(t, scope, n - 1)
    ensures Climbed(Apply(t, ClimbAttempt(scope, n)), scope, n)
  {
    var now := Served(n - 1, scope);
    var k, o := Key(scope, ""), Key(Other(scope), Fresh(n));
    FreshLength(n);
    ClimbRow(t, scope, n);
    FirstFailure(t, o, now);
    assert Purge(t, now) == t;
    var row := Row(n, 0, Served(n, scope), now);
    if scope == Client {
      FirstFailure(t[k := row], o, now);
      assert Apply(t, ClimbAttempt(scope, n)) == t[k := row][o := Row(1, now, 0, now)];
    } else {
      ClimbRow(t[o := Row(1, now, 0, now)], scope, n);
      assert Apply(t, ClimbAttempt(scope, n)) == t[o := Row(1, now, 0, now)][k := row];
    }
  }

  lemma {:induction false} ClimbCounts(scope: Scope, n: nat)
    requires n <= Ceiling(scope)
    ensures Climbed(Replay(Climb(scope, n)), scope, n)
  {
    if n > 0 {
      ClimbCounts(scope, n - 1);
      ClimbStep(Replay(Climb(scope, n - 1)), scope, n);
      ReplayOneMore(Climb(scope, n - 1), ClimbAttempt(scope, n));
    }
  }

  lemma ReplayOneMore(run: seq<Attempt>, a: Attempt)
    ensures Replay(run + [a]) == Apply(Replay(run), a)
  {
    assert (run + [a])[..|run|] == run;
  }

  lemma JitterlessCooldown(failures: int, limit: int)
    ensures JitteredMs(CooldownMs(failures, limit), 0.0) == CooldownMs(failures, limit)
  {
    CooldownBounds(failures, limit, 0.0);
  }

  /** The ceilings 17 and 25 are attained, so the bound cannot be lowered. */
  lemma CeilingIsReached(scope: Scope)
    ensures exists run :: Sequential(run) && Key(scope, "") in Replay(run)
                          && Replay(run)[Key(scope, "")].failures == Ceiling(scope)
  {
    ClimbIsSequential(scope, Ceiling(scope));
    ClimbCounts(scope, Ceiling(scope));
  }
}
