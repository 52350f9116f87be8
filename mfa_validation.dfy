/**
 * The second-factor check at /api/mfa/validate
 * (`MFAValidationController.java`): an ordered chain of guards, then the
 * TOTP check on the cleaned code, and a reply that carries a token only
 * when the code verified. The token itself (`generateJwtToken`) is the
 * parameter `jwt`.
 */
module MfaValidation {
  import opened Common
  import Mfa = MfaService

  /** The user fields the endpoint reads. */
  datatype MfaUser = MfaUser(username: string, mfaEnabled: bool, mfaSecret: Option<string>, roles: seq<string>)

  datatype Reply =
    | BadRequest(message: string)                       // 400 with a message body
    | ServerError(message: string)                      // 500 from the generic catch
    | Accepted(token: string, username: string, roles: seq<string>)   // 200 {valid: true, ...}
    | Rejected(message: string)                         // 200 {valid: false, message}

  const USERNAME_REQUIRED := "Username is required"
  const CODE_REQUIRED := "Verification code is required"
  const NOT_ENABLED := "MFA is not enabled for this user"
  const INVALID_CODE := "Invalid verification code"

  predicate Missing(s: Option<string>) { s.None? || s.value == "" }

  /** `validateMfaCode`. `user` is the account found under the user name
   *  (`None` when there is none: the thrown "User not found" reaches the
   *  generic catch). */
  function ValidateMfaCode(username: Option<string>, code: Option<string>, user: Option<MfaUser>,
                           verifier: (Option<string>, string) -> bool, jwt: string): (r: Reply)
    ensures Missing(username) ==> r == BadRequest(USERNAME_REQUIRED)
    ensures !Missing(username) && Missing(code) ==> r == BadRequest(CODE_REQUIRED)
    ensures !Missing(username) && !Missing(code) && user.None? ==>
      r == ServerError("Error during MFA validation: User not found")
    ensures !Missing(username) && !Missing(code) && user.Some? && !user.value.mfaEnabled ==>
      r == BadRequest(NOT_ENABLED)
    ensures r.Accepted? <==>
      !Missing(username) && !Missing(code) && user.Some? && user.value.mfaEnabled
      && Mfa.VerifyCode(verifier, user.value.mfaSecret, Some(DigitsOnly(code.value)))
    ensures r.Accepted? ==> r == Accepted(jwt, user.value.username, user.value.roles)
    ensures r.Rejected? ==> r.message == INVALID_CODE
  {
    if Missing(username) then BadRequest(USERNAME_REQUIRED)
    else if Missing(code) then BadRequest(CODE_REQUIRED)
    else if user.None? then ServerError("Error during MFA validation: User not found")
    else if !user.value.mfaEnabled then BadRequest(NOT_ENABLED)
    else
      var u := user.value;
      var cleanCode := DigitsOnly(code.value);
      if Mfa.VerifyCode(verifier, u.mfaSecret, Some(cleanCode)) then Accepted(jwt, u.username, u.roles)
      else Rejected(INVALID_CODE)
  }

  /** A token is handed out only when the TOTP verifier accepted the
   *  submitted code's digits for that user's secret, and the digits were
   *  not empty. */
  lemma TokenOnlyAfterVerifiedCode(username: Option<string>, code: Option<string>, user: Option<MfaUser>,
                                   verifier: (Option<string>, string) -> bool, jwt: string)
    requires ValidateMfaCode(username, code, user, verifier, jwt).Accepted?
    ensures code.Some? && DigitsOnly(code.value) != ""
    ensures user.Some? && user.value.mfaEnabled && verifier(user.value.mfaSecret, DigitsOnly(code.value))
  {
    var cleaned := DigitsOnly(code.value);
    assert !Mfa.Blank(Some(cleaned));
    assert JavaTrim("") == "";
  }

  /** Spaces or dashes typed into a code with digits do not change the
   *  reply: the endpoint sees the same digits. */
  lemma SeparatorsDoNotMatter(username: Option<string>, a: string, c: char, b: string, user: Option<MfaUser>,
                              verifier: (Option<string>, string) -> bool, jwt: string)
    requires !IsDigit(c) && a + b != ""
    ensures ValidateMfaCode(username, Some(a + [c] + b), user, verifier, jwt) ==
            ValidateMfaCode(username, Some(a + b), user, verifier, jwt)
  {
    NonDigitIgnored(a, c, b);
  }
}
