/**
 * The password rule of `UserManager.validate_password` in app/core/user.py:
 * a password must have at least three characters and must not contain the
 * user's e-mail address.
 */
module PasswordPolicy {
  import opened Wrappers

  const TooShortReason := "Password should be at least 3 characters"
  const ContainsEmailReason := "Password should not contain e-mail"

  /** `sub` occurs in `s` starting at position `i`. */
  predicate OccursAt(sub: string, s: string, i: int) {
    0 <= i && i + |sub| <= |s| && s[i..i + |sub|] == sub
  }

  /** `sub` occurs in `s` as a contiguous run of characters. */
  ghost predicate Occurs(sub: string, s: string) {
    exists i :: OccursAt(sub, s, i)
  }

  /** Python's `sub in s` on strings, by scanning the start positions of `s`. */
  function Contains(s: string, sub: string): (found: bool)
    ensures found ==> |sub| <= |s|
    ensures sub == [] ==> found
    decreases |s|
  {
    if sub <= s then true
    else if s == [] then false
    else Contains(s[1..], sub)
  }

  /** The scan finds `sub` exactly when it occurs in `s`. */
  lemma {:induction false} ContainsIffOccurs(s: string, sub: string)
    ensures Contains(s, sub) <==> Occurs(sub, s)
    decreases |s|
  {
    if sub <= s {
      assert OccursAt(sub, s, 0);
    } else if s == [] {
      assert |sub| > 0;
      assert forall i :: !OccursAt(sub, s, i);
    } else {
      ContainsIffOccurs(s[1..], sub);
      forall i | OccursAt(sub, s[1..], i)
        ensures OccursAt(sub, s, i + 1)
      {
        assert s[i + 1..i + 1 + |sub|] == s[1..][i..i + |sub|];
      }
      forall i | OccursAt(sub, s, i)
        ensures OccursAt(sub, s[1..], i - 1)
      {
        assert i != 0;
        assert s[1..][i - 1..i - 1 + |sub|] == s[i..i + |sub|];
      }
    }
  }

  /**
   * `validate_password`: the length is checked first, then the e-mail;
   * a failure carries the exception's reason.
   */
  function ValidatePassword(password: string, email: string): (r: Outcome<string>)
    ensures |password| < 3 ==> r == Fail(TooShortReason)
    ensures |password| >= 3 && Occurs(email, password) ==> r == Fail(ContainsEmailReason)
    ensures r == Pass <==> |password| >= 3 && !Occurs(email, password)
  {
    ContainsIffOccurs(password, email);
    if |password| < 3 then Fail(TooShortReason)
    else if Contains(password, email) then Fail(ContainsEmailReason)
    else Pass
  }

  /** A short password that contains the e-mail is reported for its length. */
  lemma LengthReportedBeforeEmail(password: string, email: string)
    requires |password| < 3 && Occurs(email, password)
    ensures ValidatePassword(password, email) == Fail(TooShortReason)
  {
  }

  /** An empty e-mail occurs in every password, so no password is accepted for it. */
  lemma EmptyEmailRejectsEverything(password: string)
    ensures ValidatePassword(password, "").Fail?
  {
    assert OccursAt("", password, 0);
  }
}
