/** The password checks the two client forms (sign-up and update-password) run
    before calling the auth service: the confirmation must match, then the
    password must be at least 8 JavaScript characters long. */
module PasswordRules {
  import opened Common
  import opened Text

  const MinLength := 8
  const ClientMismatch := "Passwords don't match"
  const TooShort := "Password must be at least 8 characters"

  /** The message the form shows, or `None` when the provider may be called. */
  function ClientCheck(password: string, confirmPassword: string): (r: Option<string>)
    ensures password != confirmPassword ==> r == Some(ClientMismatch)
    ensures password == confirmPassword && JsLength(password) < MinLength ==> r == Some(TooShort)
    ensures r.None? <==> password == confirmPassword && JsLength(password) >= MinLength
  {
    if password != confirmPassword then Some(ClientMismatch)
    else if JsLength(password) < MinLength then Some(TooShort)
    else None
  }

  /** The mismatch is reported even when the password is also too short. */
  lemma MismatchFirst(password: string, confirmPassword: string)
    requires password != confirmPassword && JsLength(password) < MinLength
    ensures ClientCheck(password, confirmPassword) == Some(ClientMismatch)
  {
  }

  /** A string of characters outside the Basic Multilingual Plane has twice as
      many JavaScript characters as code points. */
  lemma {:induction false} AstralLength(s: string)
    requires forall i :: 0 <= i < |s| ==> s[i] as int >= 0x1_0000
    ensures JsLength(s) == 2 * |s|
  {
    if s != [] {
      AstralLength(s[1..]);
    }
  }

  /** The length is counted in UTF-16 units: four emoji pass the minimum. */
  lemma FourEmojiAreLongEnough(password: string)
    requires |password| == 4 && forall i :: 0 <= i < 4 ==> password[i] as int >= 0x1_0000
    ensures ClientCheck(password, password).None?
  {
    AstralLength(password);
  }
}
