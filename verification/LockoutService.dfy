// The lockout service as it runs: a row is read into a record, the record is changed in
// place and written back; failures are counted by three statements in the database.
module LockoutService {
  import opened Base
  import opened Lockout

  datatype Kind = User | IpAddress

  type Key = (Kind, string)

  // A record of src/models/account_lockout.rs.
  class AccountLockout {
    var attempts: nat
    var status: Status
    var lockedUntil: Option<int>
    var lastAttempt: int

    function Value(): (r: Row)
      reads this
    {
      Row(attempts, status, lockedUntil, lastAttempt)
    }

    constructor (row: Row)
      ensures Value() == row
    {
      attempts, status, lockedUntil, lastAttempt := row.attempts, row.status, row.lockedUntil, row.lastAttempt;
    }

    method UnlockAccount()
      modifies this
      ensures Value() == Row(0, Normal, None, old(lastAttempt))
      ensures forall now: int :: !IsLocked(Value(), now) && !LockExpired(Value(), now)
    {
      status := Normal;
      attempts := 0;
      lockedUntil := None;
    }

    // Whole seconds left, if any; the clock runs in milliseconds.
    function RemainingLockoutSeconds(now: int): (r: Option<int>)
      reads this
      ensures r.Some? <==> lockedUntil.Some? && lockedUntil.value - now >= 1000
      ensures r.Some? ==> r.value * 1000 <= lockedUntil.value - now < (r.value + 1) * 1000
    {
      if lockedUntil.Some? && (lockedUntil.value - now) / 1000 > 0 then Some((lockedUntil.value - now) / 1000) else None
    }
  }

  class Service {
    const config: Config
    const userEnabled: bool
    const ipEnabled: bool
    var rows: map<Key, Row>

    constructor (config: Config, userEnabled: bool, ipEnabled: bool)
      ensures this.config == config && this.userEnabled == userEnabled && this.ipEnabled == ipEnabled && rows == map[]
    {
      this.config, this.userEnabled, this.ipEnabled := config, userEnabled, ipEnabled;
      rows := map[];
    }

    predicate Enabled(kind: Kind) {
      if kind.User? then userEnabled else ipEnabled
    }

    ghost function RowOf(key: Key): (r: Option<Row>)
      reads this
    {
      if key in rows then Some(rows[key]) else None
    }

    // The table with one row set, or as it was when there is none.
    static ghost function With(rows: map<Key, Row>, key: Key, row: Option<Row>): (r: map<Key, Row>) {
      if row.Some? then rows[key := row.value] else rows
    }

    // check_user_lockout and check_ip_lockout.
    method CheckLockout(kind: Kind, identifier: string, seen: int, aged: int, at: int)
      returns (locked: bool, remaining: nat)
      modifies this`rows
      ensures !Enabled(kind) ==> !locked && remaining == config.maxAttempts && rows == old(rows)
      ensures Enabled(kind) ==>
        var (row, answer) := AfterCheck(config, old(RowOf((kind, identifier))), seen, aged, at);
        rows == With(old(rows), (kind, identifier), row) && answer == Checked(locked, remaining)
      ensures Enabled(kind) && (kind, identifier) !in old(rows) ==>
        !locked && remaining == config.maxAttempts && rows == old(rows)
      // A lock that is over is lifted; an unlocked count that is too old is forgotten; a lock
      // in force refuses.
      ensures Enabled(kind) && (kind, identifier) in old(rows) ==>
        var row := old(rows)[(kind, identifier)];
        var over := row.status != Normal && row.lockedUntil.Some? && seen >= row.lockedUntil.value;
        var stale := row.status == Normal && row.lastAttempt < aged - config.resetAfter;
        && rows == old(rows)[(kind, identifier) :=
             if over then Row(0, Normal, None, row.lastAttempt) else if stale then row.(attempts := 0) else row]
        && (locked <==> !over && row.status != Normal && (row.lockedUntil.None? || at < row.lockedUntil.value))
        && remaining == (if locked || (!over && !stale && row.attempts > config.maxAttempts) then 0
                         else if over || stale then config.maxAttempts else config.maxAttempts - row.attempts)
    {
      if !Enabled(kind) || (kind, identifier) !in rows {
        return false, config.maxAttempts;
      }
      var lockout := new AccountLockout(rows[(kind, identifier)]);
      if LockExpired(lockout.Value(), seen) && lockout.status != Normal {
        lockout.UnlockAccount();
        rows := rows[(kind, identifier) := lockout.Value()];
        return false, config.maxAttempts;
      }
      if ShouldReset(config, lockout.Value(), aged) && lockout.status == Normal {
        lockout.attempts := 0;
        rows := rows[(kind, identifier) := lockout.Value()];
      }
      if IsLocked(lockout.Value(), at) {
        return true, 0;
      }
      locked := false;
      remaining := if lockout.attempts <= config.maxAttempts then config.maxAttempts - lockout.attempts else 0;
    }

    // record_failed_user_attempt and record_failed_ip_attempt.
    method IncrementFailedAttempts(kind: Kind, identifier: string, seen: int, at: int)
      returns (attempts: nat, justLocked: bool)
      modifies this`rows
      ensures !Enabled(kind) ==> rows == old(rows)
      ensures !Enabled(kind) ==> attempts == 0 && !justLocked
      ensures Enabled(kind) ==>
        var (row, answer) := AfterAttempt(config, old(RowOf((kind, identifier))), seen, at);
        rows == With(old(rows), (kind, identifier), row) && answer == Counted(attempts, justLocked)
      // One failure more; at the maximum the row is locked for the configured time, unless it
      // is locked already.
      ensures Enabled(kind) ==>
        var before :=
          if (kind, identifier) in old(rows) then old(rows)[(kind, identifier)] else Row(0, Normal, None, seen);
        && attempts == before.attempts + 1
        && (justLocked <==> attempts >= config.maxAttempts && before.status != Locked)
        && rows == old(rows)[(kind, identifier) :=
             Row(attempts, if justLocked then Locked else before.status,
                 if justLocked then Some(at + config.lockFor) else before.lockedUntil, seen)]
    {
      if !Enabled(kind) {
        return 0, false;
      }
      var key := (kind, identifier);
      if key in rows {
        rows := rows[key := rows[key].(attempts := rows[key].attempts + 1, lastAttempt := seen)];
      } else {
        rows := rows[key := Row(1, Normal, None, seen)];
      }
      justLocked := false;
      if rows[key].attempts >= config.maxAttempts && rows[key].status != Locked {
        rows := rows[key := rows[key].(status := Locked, lockedUntil := Some(at + config.lockFor))];
        justLocked := true;
      }
      attempts := rows[key].attempts;
    }

    // reset_user_attempts and reset_ip_attempts.
    method ResetAttempts(kind: Kind, identifier: string)
      modifies this`rows
      ensures rows == if (kind, identifier) !in old(rows) then old(rows)
        else old(rows)[(kind, identifier) := Row(0, Normal, None, old(rows)[(kind, identifier)].lastAttempt)]
      ensures rows == With(old(rows), (kind, identifier), AfterReset(old(RowOf((kind, identifier)))))
    {
      if (kind, identifier) in rows {
        var lockout := new AccountLockout(rows[(kind, identifier)]);
        lockout.UnlockAccount();
        rows := rows[(kind, identifier) := lockout.Value()];
      }
    }

    // unlock_user and unlock_ip.
    method Unlock(kind: Kind, identifier: string, now: int) returns (done: bool)
      modifies this`rows
      ensures var (row, answer) := AfterUnlock(old(RowOf((kind, identifier))), now);
        rows == With(old(rows), (kind, identifier), row) && answer == Unlocked(done)
      // Only a lock that is in force is lifted.
      ensures done <==>
        && (kind, identifier) in old(rows)
        && var row := old(rows)[(kind, identifier)];
        row.status != Normal && (row.lockedUntil.None? || now < row.lockedUntil.value)
      ensures rows == if !done then old(rows)
        else old(rows)[(kind, identifier) := Row(0, Normal, None, old(rows)[(kind, identifier)].lastAttempt)]
    {
      done := false;
      if (kind, identifier) in rows {
        var lockout := new AccountLockout(rows[(kind, identifier)]);
        if IsLocked(lockout.Value(), now) {
          lockout.UnlockAccount();
          rows := rows[(kind, identifier) := lockout.Value()];
          done := true;
        }
      }
    }

    method CleanupExpiredLockouts(now: int)
      modifies this`rows
      ensures rows == map k | k in old(rows) && !Swept(config, old(rows)[k], now) :: old(rows)[k]
      // Kept are recent counts, and locks that have not ended before now.
      ensures forall k :: k in rows <==>
        && k in old(rows)
        && var row := old(rows)[k];
        if row.status == Normal then row.lastAttempt >= now - config.resetAfter
        else row.lockedUntil.None? || row.lockedUntil.value >= now
    {
      rows := map k | k in rows && !Swept(config, rows[k], now) :: rows[k];
    }
  }

  // A failure that locks, and the next check: refused until the configured time has passed
  // since, and then free with a full count of attempts again.
  method FailThenCheck(service: Service, kind: Kind, identifier: string, failed: int, lockedAt: int,
                       seen: int, aged: int, at: int)
    returns (justLocked: bool, locked: bool, remaining: nat)
    requires seen <= aged <= at
    modifies service`rows
    ensures justLocked && at < lockedAt + service.config.lockFor ==> locked && remaining == 0
    ensures justLocked && seen >= lockedAt + service.config.lockFor ==>
      !locked && remaining == service.config.maxAttempts
  {
    var attempts;
    attempts, justLocked := service.IncrementFailedAttempts(kind, identifier, failed, lockedAt);
    locked, remaining := service.CheckLockout(kind, identifier, seen, aged, at);
  }
}
