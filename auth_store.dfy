/**
 * The `auth_settings` row (id = 1) of database.py and the login lockout
 * built on it.
 *
 * A bcrypt hash is modelled by the secret it was made from, so a check
 * succeeds exactly for that secret; salts, the cost factor and bcrypt's
 * 72-byte limit on the encoded secret are not modelled. Time is whole
 * seconds and `now` is a parameter.
 */
module AuthStore {
  import opened Wrappers
  import opened Strings
  import opened Settings

  /** `bcrypt.hashpw(secret)` */
  datatype Digest = Digest(secret: string)

  /** `bcrypt.checkpw(secret, digest)` */
  predicate Checks(secret: string, d: Digest) {
    d.secret == secret
  }

  datatype AuthRow = AuthRow(
    passwordHash: Digest, recoveryHash: Digest, failedAttempts: int, lockedUntil: Option<int>)

  /** What `verify_password` reports: the boolean is `Success?`, the rest is
      the message (minutes for the lock, attempts left). */
  datatype LoginResult =
    | Success
    | NotSet
    | Locked(secondsLeft: int)
    | WrongPassword(attemptsLeft: int)
    | LockedOut(lockMinutes: int)
    | VerifyError

  datatype LoginOutcome = LoginOutcome(row: AuthRow, result: LoginResult)

  const SecondsPerMinute := 60

  /** `int(get_setting('auth_lock_after_attempts', '5'))` */
  function MaxAttempts(s: Settings): Option<int> {
    ParseInt(GetSetting(s, "auth_lock_after_attempts", "5"))
  }

  /** `int(get_setting('auth_lock_duration_minutes', '15'))` */
  function LockMinutes(s: Settings): Option<int> {
    ParseInt(GetSetting(s, "auth_lock_duration_minutes", "15"))
  }

  /** The lockout limits: how many failures lock the account, for how long. */
  datatype LockPolicy = LockPolicy(maxAttempts: int, lockMinutes: int)

  /** Both settings read as numbers, or the policy is unreadable (`int()`
      raises). */
  function Policy(s: Settings): Option<LockPolicy> {
    match (MaxAttempts(s), LockMinutes(s))
    case (Some(maxAttempts), Some(minutes)) => Some(LockPolicy(maxAttempts, minutes))
    case _ => None
  }

  predicate LockedAt(r: AuthRow, now: int) {
    r.lockedUntil.Some? && now < r.lockedUntil.value
  }

  /** `_handle_failed_login(current)`: count one more failure on `r`, locking
      when the count reaches the maximum; an unreadable policy raises before
      anything is written, which `verify_password` reports as a verification
      error. */
  function FailedLogin(r: AuthRow, current: int, policy: Option<LockPolicy>, now: int): (o: LoginOutcome)
    ensures o.row.passwordHash == r.passwordHash && o.row.recoveryHash == r.recoveryHash
    ensures policy.None? <==> o.result == VerifyError
    ensures o.result == VerifyError ==> o.row == r
    ensures o.result != VerifyError ==>
              o.row.failedAttempts == current + 1
              && (o.result.LockedOut? <==> current + 1 >= policy.value.maxAttempts)
    ensures o.result.LockedOut? ==>
              o.result.lockMinutes == policy.value.lockMinutes
              && o.row.lockedUntil == Some(now + policy.value.lockMinutes * SecondsPerMinute)
    ensures o.result.WrongPassword? ==>
              o.row.lockedUntil == r.lockedUntil && o.result.attemptsLeft == policy.value.maxAttempts - (current + 1)
              && o.result.attemptsLeft > 0
    ensures o.result.LockedOut? || o.result.WrongPassword? || o.result == VerifyError
  {
    var newAttempts := current + 1;
    match policy
    case Some(LockPolicy(maxAttempts, minutes)) =>
      if newAttempts >= maxAttempts then
        LoginOutcome(r.(failedAttempts := newAttempts, lockedUntil := Some(now + minutes * SecondsPerMinute)), LockedOut(minutes))
      else
        LoginOutcome(r.(failedAttempts := newAttempts), WrongPassword(maxAttempts - newAttempts))
    case None => LoginOutcome(r, VerifyError)
  }

  /** `verify_password` on an existing row, with `matches` the bcrypt verdict
      and `policy` the lockout limits as `Policy` reads them from the
      settings (they are consulted only after a wrong password). A lock that
      has run out is cleared in the table first, but the failure count used
      afterwards is the one read before that reset. */
  function Login(r: AuthRow, policy: Option<LockPolicy>, matches: bool, now: int): LoginOutcome {
    if LockedAt(r, now) then
      LoginOutcome(r, Locked(r.lockedUntil.value - now))
    else
      var afterReset := if r.lockedUntil.Some? then r.(lockedUntil := None, failedAttempts := 0) else r;
      if matches then
        LoginOutcome(afterReset.(failedAttempts := 0, lockedUntil := None), Success)
      else
        FailedLogin(afterReset, r.failedAttempts, policy, now)
  }

  /** While the lock holds, the password is not looked at and nothing changes. */
  lemma LockedAccountRejects(r: AuthRow, policy: Option<LockPolicy>, matches: bool, now: int)
    requires LockedAt(r, now)
    ensures Login(r, policy, matches, now) == LoginOutcome(r, Locked(r.lockedUntil.value - now))
    ensures Login(r, policy, matches, now).result.secondsLeft > 0
  {
  }

  /** A correct password outside a lock succeeds and clears counter and lock. */
  lemma CorrectPasswordResets(r: AuthRow, policy: Option<LockPolicy>, now: int)
    requires !LockedAt(r, now)
    ensures Login(r, policy, true, now) == LoginOutcome(r.(failedAttempts := 0, lockedUntil := None), Success)
  {
  }

  /** Only a correct password outside a lock succeeds. */
  lemma SuccessOnlyWithPassword(r: AuthRow, policy: Option<LockPolicy>, matches: bool, now: int)
    ensures Login(r, policy, matches, now).result == Success <==> matches && !LockedAt(r, now)
    ensures Login(r, policy, matches, now).row.passwordHash == r.passwordHash
    ensures Login(r, policy, matches, now).row.recoveryHash == r.recoveryHash
  {
  }

  /** One failure under a readable policy: the count goes up by one and the
      account locks for the policy's minutes once it reaches the maximum. */
  lemma FailureUnderPolicy(r: AuthRow, current: int, maxAttempts: int, minutes: int, now: int)
    ensures var o := FailedLogin(r, current, Some(LockPolicy(maxAttempts, minutes)), now);
            && (current + 1 >= maxAttempts ==> o == LoginOutcome(
                  r.(failedAttempts := current + 1, lockedUntil := Some(now + minutes * 60)), LockedOut(minutes)))
            && (current + 1 < maxAttempts ==> o == LoginOutcome(
                  r.(failedAttempts := current + 1), WrongPassword(maxAttempts - current - 1)))
  {
  }

  /** A wrong password outside a live lock counts one failure on top of the
      count stored before the call, also when an expired lock was just reset,
      and locks for the configured minutes once that count reaches the
      maximum; otherwise the row is left without a lock. */
  lemma WrongPasswordCounts(r: AuthRow, now: int, maxAttempts: int, minutes: int)
    requires !LockedAt(r, now)
    ensures var o := Login(r, Some(LockPolicy(maxAttempts, minutes)), false, now);
            && o.row.failedAttempts == r.failedAttempts + 1
            && (r.failedAttempts + 1 >= maxAttempts ==> o == LoginOutcome(
                  r.(failedAttempts := r.failedAttempts + 1, lockedUntil := Some(now + minutes * 60)), LockedOut(minutes)))
            && (r.failedAttempts + 1 < maxAttempts ==> o == LoginOutcome(
                  r.(failedAttempts := r.failedAttempts + 1, lockedUntil := None), WrongPassword(maxAttempts - r.failedAttempts - 1)))
  {
    var afterReset := if r.lockedUntil.Some? then r.(lockedUntil := None, failedAttempts := 0) else r;
    FailureUnderPolicy(afterReset, r.failedAttempts, maxAttempts, minutes, now);
  }

  lemma ParseFive()
    ensures ParseInt("5") == Some(5)
  {
    ParseIntOfNatToString(5);
    assert NatToString(5) == "5";
  }

  lemma ParseFifteen()
    ensures ParseInt("15") == Some(15)
  {
    var t: string := "15";
    assert !IsSpace(t[0]) && !IsSpace(t[1]) && !IsDigit('-') && !IsDigit('+');
    StripSpec(t);
    assert AllDigits(t);
    assert t[..1] == "1" && DigitsValue("1") == 1;
  }

  lemma DefaultMaxAttempts()
    ensures MaxAttempts(map[]) == Some(5)
  {
    assert GetSetting(map[], "auth_lock_after_attempts", "5") == "5";
    ParseFive();
  }

  lemma DefaultLockMinutes()
    ensures LockMinutes(map[]) == Some(15)
  {
    assert GetSetting(map[], "auth_lock_duration_minutes", "15") == "15";
    ParseFifteen();
  }

  /** With no stored setting the limits are five attempts and fifteen minutes. */
  lemma DefaultLockPolicy()
    ensures Policy(map[]) == Some(LockPolicy(5, 15))
  {
    DefaultMaxAttempts();
    DefaultLockMinutes();
  }

  /** The expired-lock behaviour as written: after a lock that ran out, the
      table is reset, yet one wrong password counts from the pre-reset value,
      so an account locked after five failures is locked again by a single
      wrong password (six failures recorded) under the default limits of
      `DefaultLockPolicy`, instead of starting over. */
  lemma ExpiredLockRelocksAtOnce(r: AuthRow, now: int)
    requires r.lockedUntil.Some? && r.lockedUntil.value <= now
    requires r.failedAttempts == 5
    ensures Login(r, Some(LockPolicy(5, 15)), false, now) == LoginOutcome(
              r.(failedAttempts := 6, lockedUntil := Some(now + 15 * 60)), LockedOut(15))
  {
    WrongPasswordCounts(r, now, 5, 15);
  }

  /** A correct password right after an expired lock still succeeds. */
  lemma ExpiredLockThenCorrectPassword(r: AuthRow, policy: Option<LockPolicy>, now: int)
    requires r.lockedUntil.Some? && r.lockedUntil.value <= now
    ensures Login(r, policy, true, now).result == Success
    ensures Login(r, policy, true, now).row == r.(failedAttempts := 0, lockedUntil := None)
  {
  }

  /** The auth row together with the settings table it consults. */
  class AuthTable {
    /** `auth_settings WHERE id = 1`, absent before a password is set. */
    var auth: Option<AuthRow>
    const settings: SettingsTable

    constructor (settings: SettingsTable)
      ensures auth == None && this.settings == settings
    {
      auth := None;
      this.settings := settings;
    }

    /** `has_password_set` */
    predicate HasPasswordSet()
      reads this
    {
      auth.Some?
    }

    /** `create_password`: INSERT OR REPLACE of row 1 with both hashes, no
        failures and no lock; then authorisation is switched on. */
    method CreatePassword(password: string, recoveryKey: string)
      modifies this, settings
      ensures auth == Some(AuthRow(Digest(password), Digest(recoveryKey), 0, None))
      ensures settings.values == old(settings.values)["auth_enabled" := "true"]
      ensures IsAuthEnabled(settings.values)
    {
      auth := Some(AuthRow(Digest(password), Digest(recoveryKey), 0, None));
      settings.SetAuthEnabled(true);
    }

    /** `verify_password`: returns the verdict and message, and leaves the
        row as `Login` describes (a missing row: `NotSet`, nothing changes). */
    method VerifyPassword(password: string, now: int) returns (result: LoginResult)
      modifies this
      ensures old(auth).None? ==> result == NotSet && auth == old(auth)
      ensures old(auth).Some? ==>
                var o := Login(old(auth).value, Policy(settings.values), Checks(password, old(auth).value.passwordHash), now);
                auth == Some(o.row) && result == o.result
    {
      if auth.None? {
        return NotSet;
      }
      var policy := Policy(settings.values);
      var row := auth.value;
      var matches := Checks(password, row.passwordHash);
      ghost var login := Login(row, policy, matches, now);
      var failedAttempts := row.failedAttempts;
      if row.lockedUntil.Some? {
        if now < row.lockedUntil.value {
          assert login == LoginOutcome(row, Locked(row.lockedUntil.value - now));
          return Locked(row.lockedUntil.value - now);
        }
        // the lock has run out: reset it in the table, not in `failedAttempts`
        row := row.(lockedUntil := None, failedAttempts := 0);
        auth := Some(row);
      }
      if matches {
        assert login == LoginOutcome(row.(failedAttempts := 0, lockedUntil := None), Success);
        auth := Some(row.(failedAttempts := 0, lockedUntil := None));
        return Success;
      }
      var o := FailedLogin(row, failedAttempts, policy, now);
      assert login == o;
      auth := Some(o.row);
      result := o.result;
    }

    /** `verify_recovery_key` */
    method VerifyRecoveryKey(recoveryKey: string) returns (ok: bool)
      ensures ok <==> auth.Some? && Checks(recoveryKey, auth.value.recoveryHash)
    {
      if auth.None? {
        return false;
      }
      ok := Checks(recoveryKey, auth.value.recoveryHash);
    }

    /** `change_password`: UPDATE of row 1 with the new password hash, a new
        recovery hash only when a non-empty key is given, no failures and no
        lock. Without a row nothing is updated. */
    method ChangePassword(newPassword: string, recoveryKey: Option<string>)
      modifies this
      ensures old(auth).None? ==> auth == None
      ensures old(auth).Some? ==>
                auth == Some(AuthRow(
                  Digest(newPassword),
                  if recoveryKey.Some? && recoveryKey.value != "" then Digest(recoveryKey.value) else old(auth).value.recoveryHash,
                  0, None))
    {
      if auth.Some? {
        var recoveryHash := auth.value.recoveryHash;
        if recoveryKey.Some? && recoveryKey.value != "" {
          recoveryHash := Digest(recoveryKey.value);
        }
        auth := Some(AuthRow(Digest(newPassword), recoveryHash, 0, None));
      }
    }
  }

  /** After `change_password(p, k)` the new password logs in, a non-empty new
      key is the recovery key, and without a key the old one still works. */
  lemma ChangePasswordThenLogin(r: AuthRow, policy: Option<LockPolicy>, p: string, key: Option<string>, oldKey: string, now: int)
    requires Checks(oldKey, r.recoveryHash)
    ensures var changed := AuthRow(Digest(p), if key.Some? && key.value != "" then Digest(key.value) else r.recoveryHash, 0, None);
            && Login(changed, policy, Checks(p, changed.passwordHash), now).result == Success
            && (key.Some? && key.value != "" ==> Checks(key.value, changed.recoveryHash))
            && (key.None? ==> Checks(oldKey, changed.recoveryHash))
  {
  }
}
