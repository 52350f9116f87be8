/**
 * The sign-in page (`Login.js`): form validation, the MFA dialog flow and
 * the redirect after success. What the authentication context resolves
 * with (or throws) is a parameter of each handler; `redirectedTo` records
 * the `navigate` call.
 */
module LoginPage {
  import opened Common

  /** What can be read off a thrown error: `response.data.message`,
   *  `message` and `toString()` ("" when absent). */
  datatype ErrorInfo = ErrorInfo(responseMessage: string, message: string, text: string)

  /** What the context's `login` gave the page. */
  datatype LoginCall = AsksMfa | Proceeds | Throws(error: ErrorInfo)

  /** What the context's `validateMfa` gave the page: a value whose `valid`
   *  is truthy, one whose `valid` is falsy (with its message), or an
   *  error. */
  datatype MfaCall = Valid | NotValid(message: string) | Fails(error: ErrorInfo)

  const FIELDS_REQUIRED := "Username and password are required!"
  const LOGIN_FALLBACK := "Invalid username or password."
  const CODE_PROMPT := "Please enter the verification code from your authenticator app"
  const MFA_USERNAME_MISSING := "Username is missing for MFA validation"
  const MFA_INVALID_FALLBACK := "Invalid verification code. Please try again."
  const MFA_ERROR_FALLBACK := "Error validating code. Please try again."

  /** `location.state?.from?.pathname || '/'`, with "" for an absent path. */
  function RedirectTarget(fromPath: string): (target: string)
    ensures target != ""
    ensures fromPath != "" ==> target == fromPath
    ensures fromPath == "" ==> target == "/"
  {
    OrElse(fromPath, "/")
  }

  /** The text shown after a failed sign-in. It is never empty. */
  function LoginErrorText(e: ErrorInfo): (m: string)
    ensures m != ""
    ensures e.responseMessage != "" ==> m == e.responseMessage
    ensures e.responseMessage == "" && e.message != "" ==> m == e.message
    ensures e.responseMessage == "" && e.message == "" && e.text != "" ==> m == e.text
    ensures e.responseMessage == "" && e.message == "" && e.text == "" ==> m == LOGIN_FALLBACK
  {
    OrElse(OrElse(OrElse(e.responseMessage, e.message), e.text), LOGIN_FALLBACK)
  }

  /** The text shown after a thrown MFA check; `toString()` is not
   *  consulted here. */
  function MfaErrorText(e: ErrorInfo): (m: string)
    ensures m != ""
    ensures e.responseMessage != "" ==> m == e.responseMessage
    ensures e.responseMessage == "" && e.message != "" ==> m == e.message
    ensures e.responseMessage == "" && e.message == "" ==> m == MFA_ERROR_FALLBACK
  {
    OrElse(OrElse(e.responseMessage, e.message), MFA_ERROR_FALLBACK)
  }

  class LoginForm {
    var username: string
    var password: string
    var loading: bool
    var message: string
    var showMfaDialog: bool
    var mfaCode: string
    var mfaError: string
    var currentMfaUsername: string
    var redirectedTo: Option<string>

    constructor ()
      ensures username == "" && password == "" && !loading && message == ""
      ensures !showMfaDialog && mfaCode == "" && mfaError == "" && currentMfaUsername == ""
      ensures redirectedTo == None
    {
      username, password, loading, message := "", "", false, "";
      showMfaDialog, mfaCode, mfaError, currentMfaUsername := false, "", "", "";
      redirectedTo := None;
    }

    /** The effect that copies the typed username while the dialog is
     *  open. */
    method SyncMfaUsername()
      modifies this`currentMfaUsername
      ensures currentMfaUsername == if showMfaDialog then username else old(currentMfaUsername)
    {
      if showMfaDialog {
        currentMfaUsername := username;
      }
    }

    /** `handleLogin`. `called` tells whether the context's `login` was
     *  invoked; it is not when a field is empty. */
    method HandleLogin(fromPath: string, call: LoginCall) returns (called: bool)
      modifies this`loading, this`message, this`showMfaDialog, this`currentMfaUsername, this`redirectedTo
      ensures called <==> username != "" && password != ""
      ensures !called ==>
        message == FIELDS_REQUIRED && !loading
        && showMfaDialog == old(showMfaDialog) && currentMfaUsername == old(currentMfaUsername)
        && redirectedTo == old(redirectedTo)
      ensures called && call.AsksMfa? ==>
        showMfaDialog && currentMfaUsername == username && !loading && message == ""
        && redirectedTo == old(redirectedTo)
      ensures called && call.Proceeds? ==>
        redirectedTo == Some(RedirectTarget(fromPath)) && loading && message == ""
        && showMfaDialog == old(showMfaDialog) && currentMfaUsername == old(currentMfaUsername)
      ensures called && call.Throws? ==>
        message == LoginErrorText(call.error) && !loading
        && showMfaDialog == old(showMfaDialog) && currentMfaUsername == old(currentMfaUsername)
        && redirectedTo == old(redirectedTo)
    {
      message := "";
      loading := true;
      if username == "" || password == "" {
        message := FIELDS_REQUIRED;
        loading := false;
        return false;
      }
      called := true;
      match call {
        case AsksMfa =>
          currentMfaUsername := username;
          showMfaDialog := true;
          loading := false;
        case Proceeds =>
          redirectedTo := Some(RedirectTarget(fromPath));
        case Throws(e) =>
          loading := false;
          message := LoginErrorText(e);
      }
    }

    /** `handleMfaSubmit`. `calledWith` is the username handed to the
     *  context's `validateMfa`, if it was called; a blank code or a missing
     *  username stops before the call. */
    method HandleMfaSubmit(fromPath: string, contextMfaUsername: string, call: MfaCall)
      returns (calledWith: Option<string>)
      modifies this
      ensures JsBlank(old(mfaCode)) ==>
        calledWith.None? && mfaError == CODE_PROMPT
        && loading == old(loading) && mfaCode == old(mfaCode)
        && showMfaDialog == old(showMfaDialog) && redirectedTo == old(redirectedTo)
      ensures var name := OrElse(OrElse(old(currentMfaUsername), contextMfaUsername), old(username));
        && (calledWith.Some? <==> !JsBlank(old(mfaCode)) && name != "")
        && (calledWith.Some? ==> calledWith.value == name)
      ensures !JsBlank(old(mfaCode)) && calledWith.None? ==>
        mfaError == MFA_USERNAME_MISSING && !loading && mfaCode == old(mfaCode)
        && showMfaDialog == old(showMfaDialog) && redirectedTo == old(redirectedTo)
      ensures calledWith.Some? && call.NotValid? ==>
        mfaError == OrElse(call.message, MFA_INVALID_FALLBACK) && !loading && mfaCode == ""
        && showMfaDialog == old(showMfaDialog) && redirectedTo == old(redirectedTo)
      ensures calledWith.Some? && call.Valid? ==>
        !showMfaDialog && mfaCode == "" && mfaError == "" && loading
        && redirectedTo == Some(RedirectTarget(fromPath))
      ensures calledWith.Some? && call.Fails? ==>
        mfaError == MfaErrorText(call.error) && !loading && mfaCode == old(mfaCode)
        && showMfaDialog == old(showMfaDialog) && redirectedTo == old(redirectedTo)
      ensures username == old(username) && password == old(password) && message == old(message)
      ensures currentMfaUsername == old(currentMfaUsername)
    {
      var blank := JsBlank(mfaCode);
      if blank {
        mfaError := CODE_PROMPT;
        return None;
      }
      mfaError := "";
      loading := true;
      var name := OrElse(OrElse(currentMfaUsername, contextMfaUsername), username);
      if name == "" {
        // the thrown Error carries only its message, which the catch shows
        mfaError := MFA_USERNAME_MISSING;
        loading := false;
        return None;
      }
      calledWith := Some(name);
      ApplyMfaCall(fromPath, call);
    }

    /** The part of `handleMfaSubmit` after `validateMfa` settles. */
    method ApplyMfaCall(fromPath: string, call: MfaCall)
      modifies this`loading, this`mfaError, this`mfaCode, this`showMfaDialog, this`redirectedTo
      ensures call.NotValid? ==>
        mfaError == OrElse(call.message, MFA_INVALID_FALLBACK) && !loading && mfaCode == ""
        && showMfaDialog == old(showMfaDialog) && redirectedTo == old(redirectedTo)
      ensures call.Valid? ==>
        !showMfaDialog && mfaCode == "" && mfaError == old(mfaError) && loading == old(loading)
        && redirectedTo == Some(RedirectTarget(fromPath))
      ensures call.Fails? ==>
        mfaError == MfaErrorText(call.error) && !loading && mfaCode == old(mfaCode)
        && showMfaDialog == old(showMfaDialog) && redirectedTo == old(redirectedTo)
    {
      match call {
        case NotValid(m) =>
          mfaError := OrElse(m, MFA_INVALID_FALLBACK);
          loading := false;
          mfaCode := "";
        case Valid =>
          showMfaDialog := false;
          mfaCode := "";
          redirectedTo := Some(RedirectTarget(fromPath));
        case Fails(e) =>
          mfaError := MfaErrorText(e);
          loading := false;
      }
    }
  }
}
