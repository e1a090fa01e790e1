/**
 The migration lock: one row that names an owner and the time it was acquired or last renewed.
 A row older than the TTL may be deleted by anyone; only its owner can renew or release it.

 Each SQL statement is a function on the optional row; the class runs the statements on its field.
 */
module MigrationLock {
  import opened Prelude

  type Owner = nat
  datatype LockRow = LockRow(owner: Owner, acquiredAt: int)

  const DEFAULT_TTL_MS := 60_000
  const MAX_SAFE_INTEGER := 9_007_199_254_740_991

  // ----- statements

  /** DELETE ... WHERE acquired_at < cutoff */
  function DeleteOlder(row: Option<LockRow>, cutoff: int): Option<LockRow> {
    if row.Some? && row.value.acquiredAt < cutoff then None else row
  }

  /** INSERT OR IGNORE, with whether a row was inserted. */
  function InsertIfFree(row: Option<LockRow>, owner: Owner, now: int): (Option<LockRow>, bool) {
    if row.None? then (Some(LockRow(owner, now)), true) else (row, false)
  }

  /** UPDATE ... WHERE owner = ?, with whether a row was updated. */
  function Renewed(row: Option<LockRow>, owner: Owner, now: int): (Option<LockRow>, bool) {
    if row.Some? && row.value.owner == owner then (Some(LockRow(owner, now)), true) else (row, false)
  }

  /** DELETE ... WHERE owner = ? */
  function Released(row: Option<LockRow>, owner: Owner): Option<LockRow> {
    if row.Some? && row.value.owner == owner then None else row
  }

  /** No live lease stands in the way at time `now`. */
  predicate Free(row: Option<LockRow>, now: int, ttl: int) {
    row.None? || now - row.value.acquiredAt > ttl
  }

  // ----- options

  function Truncated(x: real): int {
    if x >= 0.0 then x.Floor else -((-x).Floor)
  }

  /** None stands for a value that is not a finite number. */
  function BoundedTtl(value: Option<real>): (ttl: int)
    ensures 1_000 <= ttl <= 600_000
    ensures value.Some? && 1000.0 <= value.value <= 600000.0 ==> ttl as real <= value.value < ttl as real + 1.0
    ensures value.Some? && value.value < 1000.0 ==> ttl == 1_000
    ensures value.Some? && value.value > 600000.0 ==> ttl == 600_000
    ensures value.None? ==> ttl == 60_000
  {
    match value
    case None => DEFAULT_TTL_MS
    case Some(x) => Max(1_000, Min(Truncated(x), 600_000))
  }

  function Attempts(requested: Option<int>): (n: nat)
    ensures 1 <= n <= 20
    ensures requested.Some? && 1 <= requested.value <= 20 ==> n == requested.value
    ensures requested.Some? && requested.value < 1 ==> n == 1
    ensures requested.Some? && requested.value > 20 ==> n == 20
    ensures requested.None? ==> n == 5
  {
    Max(1, Min(if requested.Some? then requested.value else 5, 20))
  }

  datatype LockState = Available | Held | Stale | Unreadable
  datatype Inspection = Inspection(state: LockState, blocking: bool, age: Option<int>)

  function InspectRow(row: Option<LockRow>, now: int, ttl: int): Inspection {
    match row
    case None => Inspection(Available, false, None)
    case Some(LockRow(_, acquiredAt)) =>
      if !(0 <= acquiredAt <= Min(now, MAX_SAFE_INTEGER)) then Inspection(Unreadable, true, None)
      else
        var age := Min(now - acquiredAt, MAX_SAFE_INTEGER);
        if age > ttl then Inspection(Stale, false, Some(age)) else Inspection(Held, true, Some(age))
  }

  /**
   What an inspection says: no row is available; a time that is negative, in the future or beyond the safe
   integers cannot be read; any other row is stale once it is older than the TTL and held until then. Only
   a held or unreadable row blocks, and only a readable one has an age.
   */
  lemma InspectionMeans(row: Option<LockRow>, now: int, ttl: int)
    requires 0 <= ttl <= 600_000
    ensures var seen := InspectRow(row, now, ttl);
            var readable := row.Some? && 0 <= row.value.acquiredAt <= now && row.value.acquiredAt <= 9_007_199_254_740_991;
            && (seen.state == Available <==> row.None?)
            && (seen.state == Unreadable <==> row.Some? && !readable)
            && (seen.state == Stale <==> readable && now > row.value.acquiredAt + ttl)
            && (seen.state == Held <==> readable && now <= row.value.acquiredAt + ttl)
            && (seen.blocking <==> seen.state in {Held, Unreadable})
            && (seen.age.Some? <==> readable)
            && (readable ==> seen.age.value == now - row.value.acquiredAt || (seen.age.value == 9_007_199_254_740_991 < now - row.value.acquiredAt))
  {
  }

  /** One attempt to acquire: the stale row is deleted, then the insertion is tried. */
  function Attempt(row: Option<LockRow>, owner: Owner, now: int, ttl: int): (Option<LockRow>, bool) {
    InsertIfFree(DeleteOlder(row, now - ttl), owner, now)
  }

  /**
   Inspection calls the lock non-blocking exactly when an attempt to acquire at that instant
   succeeds, except for an expired row whose time is negative or beyond the safe integers:
   inspection refuses to read it although the attempt deletes it.
   */
  lemma InspectionPredictsAttempt(row: Option<LockRow>, owner: Owner, now: int, ttl: int)
    requires 0 <= ttl <= 600_000
    ensures (!InspectRow(row, now, ttl).blocking <==> Attempt(row, owner, now, ttl).1)
            <==> !(row.Some? && row.value.acquiredAt < now - ttl
                   && (row.value.acquiredAt < 0 || row.value.acquiredAt > MAX_SAFE_INTEGER))
  {
    assert Attempt(row, owner, now, ttl).1 <==> Free(row, now, ttl);
  }

  /** The row an attempt starts from: what is stored, or what other processes left while this one slept. */
  function SeenBy(row: Option<LockRow>, others: seq<Option<LockRow>>, attempt: nat): Option<LockRow>
    requires attempt <= |others|
  {
    if attempt == 0 then row else others[attempt - 1]
  }

  class PortalSchemaLock {
    var row: Option<LockRow>

    constructor (initial: Option<LockRow>)
      ensures row == initial
    {
      row := initial;
    }

    method Inspect(now: int, ttl: int) returns (r: Inspection)
      ensures r == InspectRow(row, now, ttl)
    {
      if row.None? {
        return Inspection(Available, false, None);
      }
      var acquiredAt := row.value.acquiredAt;
      if acquiredAt > MAX_SAFE_INTEGER || acquiredAt < -MAX_SAFE_INTEGER || acquiredAt < 0 || acquiredAt > now {
        return Inspection(Unreadable, true, None);
      }
      var age := Min(now - acquiredAt, MAX_SAFE_INTEGER);
      if age > ttl {
        r := Inspection(Stale, false, Some(age));
      } else {
        r := Inspection(Held, true, Some(age));
      }
    }

    /**
     Attempt k reads the clock as `readings[k]`; `others[k]` is the row that other processes leave
     behind while this process sleeps after attempt k.
     */
    method Acquire(owner: Owner, attempts: nat, ttl: int, readings: seq<int>, others: seq<Option<LockRow>>) returns (ok: bool)
      requires 1 <= attempts == |readings| && |others| == attempts - 1
      modifies this
      ensures ok <==> exists k :: 0 <= k < attempts && Free(SeenBy(old(row), others, k), readings[k], ttl)
      ensures ok ==> exists k :: 0 <= k < attempts && row == Some(LockRow(owner, readings[k]))
                                 && Free(SeenBy(old(row), others, k), readings[k], ttl)
                                 && forall j :: 0 <= j < k ==> !Free(SeenBy(old(row), others, j), readings[j], ttl)
      ensures !ok ==> row == SeenBy(old(row), others, attempts - 1)
    {
      var attempt := 0;
      while attempt < attempts
        invariant 0 <= attempt <= attempts
        invariant forall k :: 0 <= k < attempt ==> !Free(SeenBy(old(row), others, k), readings[k], ttl)
        invariant row == SeenBy(old(row), others, Min(attempt, attempts - 1))
      {
        var now := readings[attempt];
        row := DeleteOlder(row, now - ttl);
        var (stored, inserted) := InsertIfFree(row, owner, now);
        row := stored;
        if inserted {
          return true;
        }
        if attempt + 1 < attempts {
          row := others[attempt];
        }
        attempt := attempt + 1;
      }
      return false;
    }

    method Renew(owner: Owner, now: int) returns (ok: bool)
      modifies this
      ensures ok <==> old(row).Some? && old(row).value.owner == owner
      ensures row == if ok then Some(LockRow(owner, now)) else old(row)
    {
      ok := row.Some? && row.value.owner == owner;
      if ok {
        row := Some(row.value.(acquiredAt := now));
      }
    }

    method Release(owner: Owner)
      modifies this
      ensures row == Released(old(row), owner)
      ensures old(row).Some? && old(row).value.owner != owner ==> row == old(row)
    {
      if row.Some? && row.value.owner == owner {
        row := None;
      }
    }
  }
}
