/**
 * The second-factor service (`MFAService.java`): the code check in front of
 * the TOTP verifier, the QR-code parameters, and switching two-factor
 * sign-in on and off for a user. The TOTP verifier of RFC 6238 is a
 * function parameter `verifier(secret, code)`; the secret generator and
 * the QR image encoder are not modelled.
 */
module MfaService {
  import opened Common

  /** The QR payload (`QrData`): Google Authenticator settings. */
  datatype QrData = QrData(accountLabel: string, secret: string, issuer: string, algorithm: string, digits: nat, period: nat)

  const ISSUER := "Blog Application"

  /** The data encoded in the QR code shown to a user enrolling. */
  function QrParameters(secret: string, email: string): (q: QrData)
    ensures q.accountLabel == email && q.secret == secret && q.issuer == ISSUER
    ensures q.algorithm == "SHA1" && q.digits == 6 && q.period == 30
  {
    QrData(email, secret, ISSUER, "SHA1", 6, 30)
  }

  /** Java `s == null || s.trim().isEmpty()`. */
  predicate Blank(s: Option<string>)
  {
    s.None? || JavaTrim(s.value) == ""
  }

  /** `verifyCode(secret, code)`: a missing or blank code fails without
   *  consulting the verifier; otherwise the verifier sees the code with
   *  every non-digit removed. */
  function VerifyCode(verifier: (Option<string>, string) -> bool, secret: Option<string>, code: Option<string>): (ok: bool)
    ensures Blank(code) ==> !ok
    ensures !Blank(code) ==> ok == verifier(secret, DigitsOnly(code.value))
  {
    if Blank(code) then false else verifier(secret, DigitsOnly(code.value))
  }

  /** A code with a char other than white space is not blank. */
  lemma {:induction false} NonSpaceMakesNonBlank(code: string, i: nat)
    requires i < |code| && !IsSpace(JavaSpace, code[i])
    ensures !Blank(Some(code))
  {
    TrimEmptyIff(code, JavaSpace);
  }

  /** A code that is not blank has a char other than white space. */
  lemma NonBlankHasNonSpace(code: string) returns (i: nat)
    requires !Blank(Some(code))
    ensures i < |code| && !IsSpace(JavaSpace, code[i])
  {
    TrimEmptyIff(code, JavaSpace);
    i :| 0 <= i < |code| && !IsSpace(JavaSpace, code[i]);
  }

  /** A digit-holding code is a digit-holding code after cleaning. */
  lemma {:induction false} CleanedKeepsDigit(code: string, i: nat)
    requires i < |code| && IsDigit(code[i])
    ensures DigitsOnly(code) != ""
    decreases |code|
  {
    if i > 0 && !IsDigit(code[0]) {
      CleanedKeepsDigit(code[1..], i - 1);
    }
  }

  /** Cleaning a code before handing it over (as the validation endpoint
   *  does) changes nothing when the code holds a digit: the service
   *  cleans it again to the same digits. */
  lemma CleaningTwiceHarmless(verifier: (Option<string>, string) -> bool, secret: Option<string>, code: string, i: nat)
    requires i < |code| && IsDigit(code[i])
    ensures VerifyCode(verifier, secret, Some(DigitsOnly(code))) == VerifyCode(verifier, secret, Some(code))
  {
    NonSpaceMakesNonBlank(code, i);
    CleanedKeepsDigit(code, i);
    var cleaned := DigitsOnly(code);
    assert IsDigit(cleaned[0]);
    NonSpaceMakesNonBlank(cleaned, 0);
  }

  /** Spaces, dashes or any other non-digit inside a code do not change
   *  the verdict, as long as the code is not blank. */
  lemma SeparatorsIgnored(verifier: (Option<string>, string) -> bool, secret: Option<string>, a: string, c: char, b: string)
    requires !IsDigit(c) && !Blank(Some(a + b))
    ensures !Blank(Some(a + [c] + b))
    ensures VerifyCode(verifier, secret, Some(a + [c] + b)) == VerifyCode(verifier, secret, Some(a + b))
  {
    NonDigitIgnored(a, c, b);
    var k := NonBlankHasNonSpace(a + b);
    if k < |a| {
      assert (a + [c] + b)[k] == (a + b)[k];
      NonSpaceMakesNonBlank(a + [c] + b, k);
    } else {
      assert (a + [c] + b)[k + 1] == (a + b)[k];
      NonSpaceMakesNonBlank(a + [c] + b, k + 1);
    }
  }

  /** The user fields the service reads and writes. */
  class MfaAccount {
    var mfaEnabled: bool
    var mfaSecret: Option<string>

    constructor (enabled: bool, secret: Option<string>)
      ensures mfaEnabled == enabled && mfaSecret == secret
    {
      mfaEnabled, mfaSecret := enabled, secret;
    }

    /** `isMFAEnabled(user)`. */
    function IsMfaEnabled(): (b: bool)
      reads this
      ensures b <==> mfaEnabled
    {
      mfaEnabled
    }

    /** `enableMFA(user, secret)`. */
    method EnableMfa(secret: Option<string>)
      modifies this
      ensures mfaEnabled && mfaSecret == secret
    {
      mfaEnabled := true;
      mfaSecret := secret;
    }

    /** `disableMFA(user)`. */
    method DisableMfa()
      modifies this
      ensures !mfaEnabled && mfaSecret == None
    {
      mfaEnabled := false;
      mfaSecret := None;
    }
  }
}
