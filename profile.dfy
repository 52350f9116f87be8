/**
 * The two-factor part of the profile page (`Profile.js`): typing the
 * verification code, submitting it, and closing the QR-code dialog. What
 * the user service answered is a parameter.
 */
module Profile {
  import opened Common

  const CODE_LENGTH := 6
  const CODE_PROMPT := "Please enter the verification code from your authenticator app"
  const ENABLED_TEXT := "2FA enabled successfully"
  const INVALID_CODE := "Invalid verification code"
  const VERIFY_FALLBACK := "Error verifying 2FA code"

  datatype Severity = Success | Warning | Failure

  datatype Snackbar = Hidden | Shown(message: string, severity: Severity)

  /** What `verify2FA` gave the page: a reply with its `data.message` ("" when
   *  falsy), or a thrown error with its `response.data.message`. */
  datatype VerifyCall = Replied(message: string) | Threw(responseMessage: string)

  /** A code made only of digits is blank exactly when it is empty. */
  lemma DigitCodeBlankIff(code: string)
    requires AllDigits(code)
    ensures JsBlank(code) <==> code == ""
  {
    TrimEmptyIff(code, JsSpace);
    if code != "" {
      assert !IsSpace(JsSpace, code[0]);
    }
  }

  class ProfileState {
    var is2FAEnabled: bool
    var showQRDialog: bool
    var open2FADialog: bool
    var verificationCode: string
    var verificationError: string
    var secret: string
    var snackbar: Snackbar

    /** What the code field can hold: digits, at most six of them. */
    predicate CodeWellFormed()
      reads this
    {
      AllDigits(verificationCode) && |verificationCode| <= CODE_LENGTH
    }

    constructor ()
      ensures CodeWellFormed()
      ensures !is2FAEnabled && !showQRDialog && !open2FADialog
      ensures verificationCode == "" && verificationError == "" && secret == "" && snackbar == Hidden
    {
      is2FAEnabled, showQRDialog, open2FADialog := false, false, false;
      verificationCode, verificationError, secret, snackbar := "", "", "", Hidden;
    }

    /** `handleVerificationCodeChange`: non-digits are dropped, and the
     *  result is taken only when it has at most six chars. */
    method HandleVerificationCodeChange(typed: string)
      modifies this`verificationCode, this`verificationError
      ensures |DigitsOnly(typed)| <= CODE_LENGTH ==>
        verificationCode == DigitsOnly(typed) && verificationError == ""
      ensures |DigitsOnly(typed)| > CODE_LENGTH ==>
        verificationCode == old(verificationCode) && verificationError == old(verificationError)
      ensures old(CodeWellFormed()) ==> CodeWellFormed()
    {
      var value := DigitsOnly(typed);
      if |value| <= CODE_LENGTH {
        verificationCode := value;
        verificationError := "";
      }
    }

    /** `handleVerify2FA` as written. A blank code only warns; a reply with
     *  a truthy message enables two-factor sign-in, clears the code and
     *  resets `showQRDialog`; but the dialog on screen is bound to
     *  `open2FADialog`, which stays as it was. `sent` is the
     *  `(secret, code)` pair handed to the service, if any. */
    method HandleVerify2FA(call: VerifyCall) returns (sent: Option<(string, string)>)
      modifies this`is2FAEnabled, this`showQRDialog, this`verificationCode, this`snackbar
      ensures sent.None? <==> JsBlank(old(verificationCode))
      ensures sent.Some? ==> sent.value == (secret, old(verificationCode))
      ensures sent.None? ==>
        snackbar == Shown(CODE_PROMPT, Warning) && is2FAEnabled == old(is2FAEnabled)
        && verificationCode == old(verificationCode) && showQRDialog == old(showQRDialog)
      ensures sent.Some? && call.Replied? && call.message != "" ==>
        is2FAEnabled && !showQRDialog && verificationCode == "" && snackbar == Shown(ENABLED_TEXT, Success)
      ensures sent.Some? && call.Replied? && call.message == "" ==>
        snackbar == Shown(INVALID_CODE, Failure) && is2FAEnabled == old(is2FAEnabled)
        && verificationCode == old(verificationCode) && showQRDialog == old(showQRDialog)
      ensures sent.Some? && call.Threw? ==>
        snackbar == Shown(OrElse(call.responseMessage, VERIFY_FALLBACK), Failure)
        && is2FAEnabled == old(is2FAEnabled) && verificationCode == old(verificationCode)
        && showQRDialog == old(showQRDialog)
      ensures old(CodeWellFormed()) ==> CodeWellFormed()
    {
      if JsBlank(verificationCode) {
        snackbar := Shown(CODE_PROMPT, Warning);
        return None;
      }
      sent := Some((secret, verificationCode));
      match call {
        case Replied(m) =>
          if m != "" {
            is2FAEnabled := true;
            showQRDialog := false;
            verificationCode := "";
            snackbar := Shown(ENABLED_TEXT, Success);
          } else {
            snackbar := Shown(INVALID_CODE, Failure);
          }
        case Threw(m) =>
          snackbar := Shown(OrElse(m, VERIFY_FALLBACK), Failure);
      }
    }

    /** The verification as evidently intended: a success also closes the
     *  dialog that is on screen, as `handleCloseQRDialog` does. */
    method HandleVerify2FAClosing(call: VerifyCall) returns (sent: Option<(string, string)>)
      modifies this`is2FAEnabled, this`showQRDialog, this`open2FADialog, this`verificationCode,
               this`verificationError, this`snackbar
      ensures sent.None? <==> JsBlank(old(verificationCode))
      ensures sent.Some? ==> sent.value == (secret, old(verificationCode))
      ensures sent.None? ==>
        snackbar == Shown(CODE_PROMPT, Warning) && is2FAEnabled == old(is2FAEnabled)
        && verificationCode == old(verificationCode) && showQRDialog == old(showQRDialog)
      ensures sent.Some? && call.Replied? && call.message != "" ==>
        is2FAEnabled && !showQRDialog && !open2FADialog && verificationCode == "" && verificationError == ""
        && snackbar == Shown(ENABLED_TEXT, Success)
      ensures sent.Some? && call.Replied? && call.message == "" ==>
        snackbar == Shown(INVALID_CODE, Failure) && is2FAEnabled == old(is2FAEnabled)
        && verificationCode == old(verificationCode) && showQRDialog == old(showQRDialog)
      ensures sent.Some? && call.Threw? ==>
        snackbar == Shown(OrElse(call.responseMessage, VERIFY_FALLBACK), Failure)
        && is2FAEnabled == old(is2FAEnabled) && verificationCode == old(verificationCode)
        && showQRDialog == old(showQRDialog)
      ensures !(sent.Some? && call.Replied? && call.message != "") ==>
        open2FADialog == old(open2FADialog) && verificationError == old(verificationError)
      ensures old(CodeWellFormed()) ==> CodeWellFormed()
    {
      sent := HandleVerify2FA(call);
      if sent.Some? && call.Replied? && call.message != "" {
        HandleCloseQRDialog();
      }
    }

    /** `handleCloseQRDialog`. */
    method HandleCloseQRDialog()
      modifies this`open2FADialog, this`verificationCode, this`verificationError
      ensures !open2FADialog && verificationCode == "" && verificationError == ""
      ensures CodeWellFormed()
    {
      open2FADialog := false;
      verificationCode := "";
      verificationError := "";
    }
  }

  /** A successful verification leaves the two-factor dialog as it was, so
   *  an open dialog stays on screen. */
  method VerifiedDialogStaysOpen() returns (dialogAfter: bool)
    ensures dialogAfter
  {
    var page := new ProfileState();
    page.open2FADialog := true;
    page.verificationCode := "7";
    DigitCodeBlankIff("7");
    var sent := page.HandleVerify2FA(Replied("2FA enabled"));
    dialogAfter := page.open2FADialog;
  }
}
