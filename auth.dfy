/**
 * auth_module.py: the recovery-key generator and the password-strength score
 * of `PasswordManager`, and the checks the set-up, recovery and
 * change-password dialogs make before they touch the auth row.
 *
 * Randomness (`secrets.choice`) is a parameter: `picks` are the indices the
 * source would draw. Character classes are the ASCII ones.
 */
module Auth {
  import opened Wrappers
  import opened Strings
  import opened Settings
  import opened AuthStore

  // ---------------------------------------------------------------- recovery key

  /** `string.ascii_uppercase` */
  const Uppercase := "ABCDEFGHIJKLMNOPQRSTUVWXYZ"

  /** `string.digits` */
  const Digits := "0123456789"

  /** `string.ascii_uppercase + string.digits` */
  const Base := Uppercase + Digits

  /** The letters and the digits of the key alphabet: those of `Base` left
      after `replace` has removed the look-alikes 'O', '0', 'I' and '1'. */
  const KeyLetters := "ABCDEFGHJKLMNPQRSTUVWXYZ"
  const KeyDigits := "23456789"
  const KeyChars := KeyLetters + KeyDigits

  predicate Ascending(s: string) {
    forall k :: 0 <= k < |s| - 1 ==> s[k] < s[k + 1]
  }

  lemma UppercaseRange()
    ensures forall c :: c in Uppercase <==> 'A' <= c <= 'Z'
  {
  }

  lemma DigitsRange()
    ensures forall c :: c in Digits <==> '0' <= c <= '9'
  {
  }

  lemma KeyLettersRange()
    ensures forall c :: c in KeyLetters <==> 'A' <= c <= 'Z' && c != 'O' && c != 'I'
    ensures Ascending(KeyLetters)
  {
  }

  lemma KeyDigitsRange()
    ensures forall c :: c in KeyDigits <==> '2' <= c <= '9'
    ensures Ascending(KeyDigits)
  {
  }

  /** The alphabet is exactly the base characters other than O, 0, I and 1. */
  lemma KeyCharsFromBase()
    ensures forall c :: c in KeyChars <==> c in Base && c !in "O0I1"
  {
    UppercaseRange();
    DigitsRange();
    KeyLettersRange();
    KeyDigitsRange();
  }

  /** Characters of an ascending string ascend from any position to any
      later one. */
  lemma {:induction false} AscendingBetween(s: string, i: int, j: int)
    requires Ascending(s)
    requires 0 <= i < j < |s|
    ensures s[i] < s[j]
    decreases j - i
  {
    if i + 1 < j {
      AscendingBetween(s, i + 1, j);
    }
  }

  /** The 32 symbols of the alphabet are distinct: its letters ascend, then
      its digits ascend, and every letter comes before every digit's code. */
  lemma KeyCharsDistinct()
    ensures forall i, j :: 0 <= i < j < |KeyChars| ==> KeyChars[i] != KeyChars[j]
  {
    KeyLettersRange();
    KeyDigitsRange();
    var n := |KeyLetters|;
    forall i, j | 0 <= i < j < |KeyChars| ensures KeyChars[i] != KeyChars[j] {
      if j < n {
        AscendingBetween(KeyLetters, i, j);
      } else if n <= i {
        AscendingBetween(KeyDigits, i - n, j - n);
      } else {
        assert KeyChars[i] == KeyLetters[i] && KeyChars[j] == KeyDigits[j - n];
        assert KeyLetters[i] in KeyLetters && KeyDigits[j - n] in KeyDigits;
      }
    }
  }

  /** Letters other than O and I, and digits other than 0 and 1. */
  lemma KeyCharsClasses()
    ensures forall c :: c in KeyChars ==> ('A' <= c <= 'Z' || '2' <= c <= '9') && c != 'O' && c != 'I'
  {
    KeyLettersRange();
    KeyDigitsRange();
  }

  /** The alphabet: 32 distinct letters and digits, without O and I. */
  lemma KeyCharsShape()
    ensures |KeyChars| == 32
    ensures forall i, j :: 0 <= i < j < |KeyChars| ==> KeyChars[i] != KeyChars[j]
    ensures forall c :: c in KeyChars ==> ('A' <= c <= 'Z' || '2' <= c <= '9') && c != 'O' && c != 'I'
  {
    KeyCharsDistinct();
    KeyCharsClasses();
  }

  /** The shape `XXXX-XXXX-XXXX-XXXX` over the key alphabet. */
  predicate IsRecoveryKeyFormat(key: string) {
    && |key| == 19
    && (forall i :: 0 <= i < 19 ==> (key[i] == '-' <==> i == 4 || i == 9 || i == 14))
    && (forall i :: 0 <= i < 19 && i != 4 && i != 9 && i != 14 ==> key[i] in KeyChars)
  }

  /** A well-formed key survives the `strip()` the recovery dialog applies. */
  lemma RecoveryKeySurvivesStrip(key: string)
    requires IsRecoveryKeyFormat(key)
    ensures Strip(key) == key
  {
    KeyCharsShape();
    assert key[0] in KeyChars && key[18] in KeyChars;
    StripSpec(key);
  }

  /** Four groups of four joined by '-': group q sits at 5q .. 5q+3. */
  lemma JoinFourGroups(parts: seq<string>)
    requires |parts| == 4 && forall q :: 0 <= q < 4 ==> |parts[q]| == 4
    ensures |Join("-", parts)| == 19
    ensures forall q, c :: 0 <= q < 4 && 0 <= c < 4 ==> Join("-", parts)[5 * q + c] == parts[q][c]
    ensures forall q :: 1 <= q < 4 ==> Join("-", parts)[5 * q - 1] == '-'
  {
    var key := Join("-", parts);
    assert Join("-", parts[3..]) == parts[3];
    assert Join("-", parts[2..]) == parts[2] + "-" + Join("-", parts[3..]) by {
      assert parts[2..][1..] == parts[3..];
    }
    assert Join("-", parts[1..]) == parts[1] + "-" + Join("-", parts[2..]) by {
      assert parts[1..][1..] == parts[2..];
    }
    assert key == parts[0] + "-" + parts[1] + "-" + parts[2] + "-" + parts[3];
  }

  /** Group q of the draw is picks[4q .. 4q+3] read in the alphabet. */
  ghost predicate GroupsOf(parts: seq<string>, picks: seq<nat>)
    requires |picks| == 16 && forall k :: 0 <= k < 16 ==> picks[k] < 32
  {
    && |parts| == 4
    && (forall q :: 0 <= q < 4 ==> |parts[q]| == 4)
    && (forall q, c :: 0 <= q < 4 && 0 <= c < 4 ==> parts[q][c] == KeyChars[picks[4 * q + c]])
  }

  /** Joining the groups puts symbol k at k + k/4. */
  lemma KeyPositions(parts: seq<string>, picks: seq<nat>)
    requires |picks| == 16 && forall k :: 0 <= k < 16 ==> picks[k] < 32
    requires GroupsOf(parts, picks)
    ensures |Join("-", parts)| == 19
    ensures forall k :: 0 <= k < 16 ==> Join("-", parts)[k + k / 4] == KeyChars[picks[k]]
  {
    var key := Join("-", parts);
    JoinFourGroups(parts);
    forall k | 0 <= k < 16
      ensures key[k + k / 4] == KeyChars[picks[k]]
    {
      var q, c := k / 4, k % 4;
      assert k == 4 * q + c && k + k / 4 == 5 * q + c;
      assert key[5 * q + c] == parts[q][c];
    }
  }

  /** ... and dashes exactly between the groups. */
  lemma KeyFromGroups(parts: seq<string>, picks: seq<nat>)
    requires |picks| == 16 && forall k :: 0 <= k < 16 ==> picks[k] < 32
    requires GroupsOf(parts, picks)
    ensures IsRecoveryKeyFormat(Join("-", parts))
  {
    var key := Join("-", parts);
    JoinFourGroups(parts);
    assert '-' !in KeyChars;
    forall i | 0 <= i < 19
      ensures key[i] == '-' <==> i == 4 || i == 9 || i == 14
      ensures i != 4 && i != 9 && i != 14 ==> key[i] in KeyChars
    {
      var q, c := i / 5, i % 5;
      assert i == 5 * q + c;
      if c < 4 {
        assert key[i] == parts[q][c] == KeyChars[picks[4 * q + c]];
      } else {
        assert i == 5 * (q + 1) - 1;
      }
    }
  }

  /** `''.join(secrets.choice(chars) for _ in range(4))` for group `p`. */
  method GenerateGroup(picks: seq<nat>, p: nat) returns (part: string)
    requires |picks| == 16 && forall k :: 0 <= k < 16 ==> picks[k] < 32
    requires p < 4
    ensures |part| == 4 && forall c :: 0 <= c < 4 ==> part[c] == KeyChars[picks[4 * p + c]]
  {
    part := "";
    for c := 0 to 4
      invariant |part| == c
      invariant forall d :: 0 <= d < c ==> part[d] == KeyChars[picks[4 * p + d]]
    {
      part := part + [KeyChars[picks[4 * p + c]]];
    }
  }

  /** `generate_recovery_key`: four groups of four symbols, drawn as `picks`
      says, joined by '-'. Symbol k of the draw ends up at position k + k/4. */
  method GenerateRecoveryKey(picks: seq<nat>) returns (key: string)
    requires |picks| == 16
    requires forall k :: 0 <= k < 16 ==> picks[k] < 32
    ensures IsRecoveryKeyFormat(key)
    ensures forall k :: 0 <= k < 16 ==> key[k + k / 4] == KeyChars[picks[k]]
  {
    var parts: seq<string> := [];
    for p := 0 to 4
      invariant |parts| == p
      invariant forall q :: 0 <= q < p ==> |parts[q]| == 4
      invariant forall q, c :: 0 <= q < p && 0 <= c < 4 ==> parts[q][c] == KeyChars[picks[4 * q + c]]
    {
      var part := GenerateGroup(picks, p);
      parts := parts + [part];
    }
    KeyPositions(parts, picks);
    KeyFromGroups(parts, picks);
    key := Join("-", parts);
  }

  // ---------------------------------------------------------------- strength

  predicate IsLower(c: char) { 'a' <= c <= 'z' }
  predicate IsUpper(c: char) { 'A' <= c <= 'Z' }

  /** `string.punctuation` */
  const Punctuation := "!\"#$%&'()*+,-./:;<=>?@[\\]^_`{|}~"

  predicate IsPunctuation(c: char) { c in Punctuation }

  predicate HasChar(s: string, f: char -> bool) {
    exists i :: 0 <= i < |s| && f(s[i])
  }

  /** The score before rounding, doubled so that the half points are whole:
      length 2 (at least 12) or 1, lower 1, upper 1, digit 1, punctuation 2. */
  function DoubledScore(password: string): (raw: nat)
    ensures 1 <= raw <= 7
  {
    (if |password| >= 12 then 2 else 1)
    + (if HasChar(password, IsLower) then 1 else 0)
    + (if HasChar(password, IsUpper) then 1 else 0)
    + (if HasChar(password, IsDigit) then 1 else 0)
    + (if HasChar(password, IsPunctuation) then 2 else 0)
  }

  /** The strength of `validate_password_strength`: 0 below eight characters,
      otherwise the doubled score cut at 7, 5 and 3. */
  function Strength(password: string): nat {
    if |password| < 8 then 0
    else
      var raw := DoubledScore(password);
      if raw >= 7 then 4 else if raw >= 5 then 3 else if raw >= 3 then 2 else 1
  }

  /** `any(f(c) for c in s)` */
  method AnyChar(s: string, f: char -> bool) returns (found: bool)
    ensures found <==> HasChar(s, f)
  {
    found := false;
    var i := 0;
    while i < |s| && !found
      invariant 0 <= i <= |s|
      invariant found <==> exists j :: 0 <= j < i && f(s[j])
    {
      found := f(s[i]);
      i := i + 1;
    }
  }

  /** `validate_password_strength`, its score kept doubled while it is summed. */
  method ValidatePasswordStrength(password: string) returns (score: nat)
    ensures score == Strength(password)
  {
    if |password| < 8 {
      return 0;
    }
    var raw := 0;
    if |password| >= 12 {
      raw := raw + 2;
    } else if |password| >= 8 {
      raw := raw + 1;
    }
    var hasLower := AnyChar(password, IsLower);
    if hasLower { raw := raw + 1; }
    var hasUpper := AnyChar(password, IsUpper);
    if hasUpper { raw := raw + 1; }
    var hasDigit := AnyChar(password, IsDigit);
    if hasDigit { raw := raw + 1; }
    var hasPunctuation := AnyChar(password, IsPunctuation);
    if hasPunctuation { raw := raw + 2; }
    if raw >= 7 {
      score := 4;
    } else if raw >= 5 {
      score := 3;
    } else if raw >= 3 {
      score := 2;
    } else {
      score := 1;
    }
  }

  /** Score 0 exactly for passwords under eight characters, 1..4 otherwise. */
  lemma StrengthRange(password: string)
    ensures Strength(password) == 0 <==> |password| < 8
    ensures |password| >= 8 ==> 1 <= Strength(password) <= 4
  {
  }

  /** The top score needs everything: at least twelve characters and a
      lowercase letter, an uppercase letter, a digit and punctuation. */
  lemma StrongestScore(password: string)
    ensures Strength(password) == 4 <==>
              && |password| >= 12 && HasChar(password, IsLower) && HasChar(password, IsUpper)
              && HasChar(password, IsDigit) && HasChar(password, IsPunctuation)
  {
  }

  /** Adding a character never lowers the score. */
  lemma StrengthMonotone(password: string, c: char)
    ensures Strength(password) <= Strength(password + [c])
  {
    var longer := password + [c];
    forall f: char -> bool | HasChar(password, f)
      ensures HasChar(longer, f)
    {
      var i :| 0 <= i < |password| && f(password[i]);
      assert longer[i] == password[i];
    }
  }

  // ---------------------------------------------------------------- dialogs

  datatype SetupError = NoPassword | SetupTooShort | SetupMismatch | KeyNotConfirmed

  /** The checks of `SetupPasswordDialog.save_password`, first failure wins. */
  function SetupCheck(password: string, confirm: string, keyConfirmed: bool): (e: Option<SetupError>)
    ensures e.None? <==> password != "" && |password| >= 8 && password == confirm && keyConfirmed
    ensures e == Some(NoPassword) <==> password == ""
    ensures e == Some(SetupTooShort) <==> password != "" && |password| < 8
    ensures e == Some(SetupMismatch) <==> |password| >= 8 && password != confirm
    ensures e == Some(KeyNotConfirmed) <==> |password| >= 8 && password == confirm && !keyConfirmed
  {
    if password == "" then Some(NoPassword)
    else if |password| < 8 then Some(SetupTooShort)
    else if password != confirm then Some(SetupMismatch)
    else if !keyConfirmed then Some(KeyNotConfirmed)
    else None
  }

  /** `save_password`: on success the password and the shown recovery key are
      stored, authorisation is on, and the auto-lock setting is written when
      ticked; on a failed check nothing changes. */
  method SavePassword(db: AuthTable, password: string, confirm: string, recoveryKey: string,
                      keyConfirmed: bool, autoLock: bool) returns (e: Option<SetupError>)
    modifies db, db.settings
    ensures e == SetupCheck(password, confirm, keyConfirmed)
    ensures e.Some? ==> db.auth == old(db.auth) && db.settings.values == old(db.settings.values)
    ensures e.None? ==> db.auth == Some(AuthRow(Digest(password), Digest(recoveryKey), 0, None))
    ensures e.None? && autoLock ==>
              db.settings.values == old(db.settings.values)["auth_enabled" := "true"]["auto_lock_enabled" := "true"]
    ensures e.None? && !autoLock ==> db.settings.values == old(db.settings.values)["auth_enabled" := "true"]
  {
    e := SetupCheck(password, confirm, keyConfirmed);
    if e.Some? {
      return;
    }
    db.CreatePassword(password, recoveryKey);
    if autoLock {
      db.settings.SetSetting("auto_lock_enabled", "true");
    }
  }

  datatype ResetError = NoKey | NoNewPassword | ResetTooShort | ResetMismatch | InvalidKey

  /** The input checks of `RecoveryDialog.reset_password` on the stripped key. */
  function ResetCheck(key: string, password: string, confirm: string): (e: Option<ResetError>)
    ensures e.None? <==> key != "" && password != "" && |password| >= 8 && password == confirm
    ensures e == Some(NoKey) <==> key == ""
    ensures e == Some(NoNewPassword) <==> key != "" && password == ""
    ensures e == Some(ResetTooShort) <==> key != "" && password != "" && |password| < 8
    ensures e == Some(ResetMismatch) <==> key != "" && |password| >= 8 && password != confirm
    ensures e != Some(InvalidKey)
  {
    if key == "" then Some(NoKey)
    else if password == "" then Some(NoNewPassword)
    else if |password| < 8 then Some(ResetTooShort)
    else if password != confirm then Some(ResetMismatch)
    else None
  }

  /** `reset_password`: only when every check passes and the stripped key is
      the stored recovery key does the password change, together with a new
      recovery key, which is returned. */
  method ResetPassword(db: AuthTable, keyInput: string, password: string, confirm: string, picks: seq<nat>)
    returns (e: Option<ResetError>, newKey: Option<string>)
    requires |picks| == 16 && forall k :: 0 <= k < 16 ==> picks[k] < 32
    modifies db
    ensures var key := Strip(keyInput);
            (e.None? <==>
              ResetCheck(key, password, confirm).None? && old(db.auth).Some? && Checks(key, old(db.auth).value.recoveryHash))
    ensures ResetCheck(Strip(keyInput), password, confirm).Some? ==> e == ResetCheck(Strip(keyInput), password, confirm)
    ensures ResetCheck(Strip(keyInput), password, confirm).None? && e.Some? ==> e == Some(InvalidKey)
    ensures e.Some? ==> db.auth == old(db.auth) && newKey.None?
    ensures e.None? ==> newKey.Some? && IsRecoveryKeyFormat(newKey.value)
                        && db.auth == Some(AuthRow(Digest(password), Digest(newKey.value), 0, None))
  {
    var key := Strip(keyInput);
    e := ResetCheck(key, password, confirm);
    if e.Some? {
      return e, None;
    }
    var ok := db.VerifyRecoveryKey(key);
    if !ok {
      return Some(InvalidKey), None;
    }
    var generated := GenerateRecoveryKey(picks);
    db.ChangePassword(password, Some(generated));
    newKey := Some(generated);
  }

  datatype ChangeError = NoCurrentPassword | NoNewPass | ChangeTooShort | ChangeMismatch | NotVerified(why: LoginResult)

  /** The input checks of `ChangePasswordDialog.change_password`. */
  function ChangeCheck(current: string, password: string, confirm: string): (e: Option<ChangeError>)
    ensures e.None? <==> current != "" && password != "" && |password| >= 8 && password == confirm
    ensures e == Some(NoCurrentPassword) <==> current == ""
    ensures e == Some(NoNewPass) <==> current != "" && password == ""
    ensures e == Some(ChangeTooShort) <==> current != "" && password != "" && |password| < 8
    ensures e == Some(ChangeMismatch) <==> current != "" && |password| >= 8 && password != confirm
    ensures e.Some? ==> !e.value.NotVerified?
  {
    if current == "" then Some(NoCurrentPassword)
    else if password == "" then Some(NoNewPass)
    else if |password| < 8 then Some(ChangeTooShort)
    else if password != confirm then Some(ChangeMismatch)
    else None
  }

  /** `change_password` of the dialog: after the input checks the current
      password goes through `verify_password`, whose counting and locking
      take effect whatever the outcome; only on success is the password
      changed, with a new recovery key exactly when one was asked for. */
  method ChangePasswordDialog(db: AuthTable, current: string, password: string, confirm: string,
                              generateNewKey: bool, picks: seq<nat>, now: int)
    returns (e: Option<ChangeError>, newKey: Option<string>)
    requires |picks| == 16 && forall k :: 0 <= k < 16 ==> picks[k] < 32
    modifies db
    ensures ChangeCheck(current, password, confirm).Some? ==>
              e == ChangeCheck(current, password, confirm) && db.auth == old(db.auth) && newKey.None?
    ensures ChangeCheck(current, password, confirm).None? && old(db.auth).None? ==>
              e == Some(NotVerified(NotSet)) && db.auth == None
    ensures ChangeCheck(current, password, confirm).None? && old(db.auth).Some? ==>
              var o := Login(old(db.auth).value, Policy(db.settings.values), Checks(current, old(db.auth).value.passwordHash), now);
              && (o.result != Success ==> e == Some(NotVerified(o.result)) && db.auth == Some(o.row) && newKey.None?)
              && (o.result == Success ==>
                    && e.None? && (newKey.Some? <==> generateNewKey)
                    && (newKey.Some? ==> IsRecoveryKeyFormat(newKey.value))
                    && db.auth == Some(AuthRow(Digest(password),
                         if generateNewKey then Digest(newKey.value) else old(db.auth).value.recoveryHash, 0, None)))
  {
    e := ChangeCheck(current, password, confirm);
    newKey := None;
    if e.Some? {
      return;
    }
    var result := db.VerifyPassword(current, now);
    if result != Success {
      return Some(NotVerified(result)), None;
    }
    if generateNewKey {
      var generated := GenerateRecoveryKey(picks);
      newKey := Some(generated);
    }
    db.ChangePassword(password, newKey);
  }
}
