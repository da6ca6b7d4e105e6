/** `SecuritySettings`: the password-change form's validation rules, the
    two-factor switch and the session list's revoke buttons. */
module SecuritySettings {
  import opened JsPrims

  datatype Field = CurrentPassword | NewPassword | ConfirmPassword

  /** A validation issue: the field it is attached to and its message. */
  datatype Issue = Issue(field: Field, message: string)

  const CurrentRequired := Issue(CurrentPassword, "Current password is required")
  const TooShort := Issue(NewPassword, "Password must be at least 8 characters")
  const MissingClasses := Issue(NewPassword, "Password must contain at least one lowercase letter, one uppercase letter, and one number")
  const Mismatch := Issue(ConfirmPassword, "Passwords don't match")

  /** The characters a regular expression's `.` does not match. */
  predicate IsLineTerminator(c: char) {
    c == '\n' || c == '\r' || c == '\U{2028}' || c == '\U{2029}'
  }

  /** The text before the first line terminator: all that `.*` in a lookahead
      anchored at `^` can look at. */
  function FirstLine(s: string): (r: string)
    ensures |r| <= |s| && r == s[..|r|]
    ensures forall i :: 0 <= i < |r| ==> !IsLineTerminator(r[i])
    ensures |r| < |s| ==> IsLineTerminator(s[|r|])
  {
    if s == [] || IsLineTerminator(s[0]) then "" else [s[0]] + FirstLine(s[1..])
  }

  /** Text without line terminators is its own first line. */
  lemma {:induction false} FirstLineOfSingleLine(s: string)
    requires forall i :: 0 <= i < |s| ==> !IsLineTerminator(s[i])
    ensures FirstLine(s) == s
  {
    if s != [] {
      FirstLineOfSingleLine(s[1..]);
    }
  }

  predicate HasLower(s: string) { exists i :: 0 <= i < |s| && IsLowerAscii(s[i]) }
  predicate HasUpper(s: string) { exists i :: 0 <= i < |s| && IsUpperAscii(s[i]) }
  predicate HasDigit(s: string) { exists i :: 0 <= i < |s| && IsDigit(s[i]) }

  /** `/^(?=.*[a-z])(?=.*[A-Z])(?=.*\d)/` */
  predicate MeetsCharacterClasses(password: string) {
    var line := FirstLine(password);
    HasLower(line) && HasUpper(line) && HasDigit(line)
  }

  /** `passwordChangeSchema`: every rule that fails, in schema order; the
      match check runs beside the field rules and reports on the
      confirmation field. */
  function PasswordIssues(current: string, newPassword: string, confirm: string): (issues: seq<Issue>)
    ensures CurrentRequired in issues <==> |current| < 1
    ensures TooShort in issues <==> |newPassword| < 8
    ensures MissingClasses in issues <==> !MeetsCharacterClasses(newPassword)
    ensures Mismatch in issues <==> newPassword != confirm
    ensures forall i :: 0 <= i < |issues| ==> issues[i] in {CurrentRequired, TooShort, MissingClasses, Mismatch}
  {
    (if |current| < 1 then [CurrentRequired] else [])
    + (if |newPassword| < 8 then [TooShort] else [])
    + (if !MeetsCharacterClasses(newPassword) then [MissingClasses] else [])
    + (if newPassword != confirm then [Mismatch] else [])
  }

  /** The form submits exactly when every rule holds. */
  lemma AcceptedIffRulesHold(current: string, newPassword: string, confirm: string)
    ensures PasswordIssues(current, newPassword, confirm) == [] <==>
              current != "" && |newPassword| >= 8 && MeetsCharacterClasses(newPassword) && newPassword == confirm
  {
    var issues := PasswordIssues(current, newPassword, confirm);
    if issues != [] {
      assert issues[0] in issues;
    }
  }

  /** For a password typed on one line, the character classes may occur anywhere in it. */
  lemma ClassesAnywhereOnOneLine(password: string)
    requires forall i :: 0 <= i < |password| ==> !IsLineTerminator(password[i])
    ensures MeetsCharacterClasses(password) <==> HasLower(password) && HasUpper(password) && HasDigit(password)
  {
    FirstLineOfSingleLine(password);
  }

  /** A digit after a line break is not seen by the lookahead. */
  lemma DigitAfterLineBreakUnseen()
    ensures !MeetsCharacterClasses("Abcdefgh\n1")
    ensures HasDigit("Abcdefgh\n1")
  {
    var s := "Abcdefgh\n1";
    var line := FirstLine(s);
    assert IsLineTerminator(s[8]);
    forall i | 0 <= i < 8 ensures !IsLineTerminator(s[i]) {
    }
    FirstLineOfSingleLine(s[..8]);
    assert line == s[..8] by {
      FirstLinePrefix(s, 8);
    }
    assert !HasDigit(line);
    assert IsDigit(s[9]);
  }

  /** The first line ends at the first terminator. */
  lemma {:induction false} FirstLinePrefix(s: string, k: nat)
    requires k < |s| && IsLineTerminator(s[k])
    requires forall i :: 0 <= i < k ==> !IsLineTerminator(s[i])
    ensures FirstLine(s) == s[..k]
  {
    if k > 0 {
      FirstLinePrefix(s[1..], k - 1);
      assert [s[0]] + s[1..][..k - 1] == s[..k];
    }
  }

  // ---------------------------------------------------------------------------
  // Sessions and two-factor authentication
  // ---------------------------------------------------------------------------

  datatype Session = Session(id: string, device: string, browser: string, location: string,
                             lastActive: string, current: bool)

  const InitialSessions: seq<Session> := [
    Session("1", "MacBook Pro", "Chrome", "San Francisco, CA", "Now", true),
    Session("2", "iPhone 15", "Safari", "San Francisco, CA", "2 hours ago", false)]

  /** Only sessions other than the current one can be revoked. */
  predicate RevokeShown(s: Session) {
    !s.current
  }

  /** The current session has no revoke button and the other one has. */
  lemma OnlyOtherSessionRevocable()
    ensures !RevokeShown(InitialSessions[0]) && RevokeShown(InitialSessions[1])
  {
  }

  class SecurityState {
    var twoFactorEnabled: bool

    constructor ()
      ensures !twoFactorEnabled
    {
      twoFactorEnabled := false;
    }

    /** `handleEnable2FA`: flips the switch, so two presses restore it. */
    method ToggleTwoFactor()
      modifies this
      ensures twoFactorEnabled == !old(twoFactorEnabled)
    {
      twoFactorEnabled := !twoFactorEnabled;
    }
  }
}
