/**
 * The React authentication context (`AuthContext.js`): the `user`,
 * `loading`, `mfaRequired` and `mfaUsername` state shared by every page,
 * and the operations that update it around calls into the authentication
 * service. The value each service call resolves with (or the error it
 * throws) is a parameter.
 */
module AuthContext {
  import opened Common
  import AS = AuthService

  /** Whatever `login` handed to `setUser`: a stored session record, or the
   *  raw reply body when the service returned it untouched. */
  datatype ContextUser = Session(record: AS.StoredUser) | RawReply(reply: AS.LoginReply)

  datatype LoginResult = NeedsMfa(message: string) | LoggedIn(user: ContextUser) | LoginThrew(error: string)

  datatype MfaResult = MfaValid(user: AS.StoredUser) | MfaInvalid(message: string) | MfaThrew(error: string)

  const NO_MFA_USERNAME := "No username stored for MFA validation"
  const BAD_FORMAT := "Invalid response format from server"

  /** Whether the service's login value asks for a second factor: either
   *  the challenge the service built, or a raw reply still flagged
   *  `mfaRequired` (a code was passed but the server asked again). */
  predicate AsksForMfa(response: AS.LoginOutcome)
  {
    response.MfaChallenge? || (response.ReplyAsIs? && response.reply.mfaRequired)
  }

  function ChallengeMessage(response: AS.LoginOutcome): (m: string)
    requires AsksForMfa(response)
    ensures m != ""
  {
    if response.MfaChallenge? then OrElse(response.message, AS.MFA_REQUIRED_MESSAGE)
    else OrElse(response.reply.message, AS.MFA_REQUIRED_MESSAGE)
  }

  class AuthState {
    var user: Option<ContextUser>
    var loading: bool
    var mfaRequired: bool
    var mfaUsername: string

    constructor ()
      ensures user == None && loading && !mfaRequired && mfaUsername == ""
    {
      user := None;
      loading := true;
      mfaRequired := false;
      mfaUsername := "";
    }

    /** The mount effect: a stored user becomes `user`; loading ends
     *  either way. */
    method LoadUser(persisted: Option<AS.StoredUser>)
      modifies this
      ensures !loading
      ensures user == if persisted.Some? then Some(Session(persisted.value)) else old(user)
      ensures mfaRequired == old(mfaRequired) && mfaUsername == old(mfaUsername)
    {
      if persisted.Some? {
        user := Some(Session(persisted.value));
      }
      loading := false;
    }

    /** `login`: a second-factor request records the typed username and
     *  leaves `user` alone; any other value the service resolves with
     *  becomes `user` and clears the MFA state; a service error is
     *  rethrown with nothing changed. */
    method Login(username: string, response: AS.LoginOutcome) returns (out: LoginResult)
      modifies this
      ensures response.LoginFailed? ==>
        out == LoginThrew(response.error)
        && user == old(user) && mfaRequired == old(mfaRequired) && mfaUsername == old(mfaUsername)
      ensures AsksForMfa(response) ==>
        out == NeedsMfa(ChallengeMessage(response))
        && mfaRequired && mfaUsername == username && user == old(user)
      ensures response.SignedIn? ==>
        out == LoggedIn(Session(response.user)) && user == Some(out.user) && !mfaRequired && mfaUsername == ""
      ensures response.ReplyAsIs? && !response.reply.mfaRequired ==>
        out == LoggedIn(RawReply(response.reply)) && user == Some(out.user) && !mfaRequired && mfaUsername == ""
      ensures loading == old(loading)
    {
      if response.LoginFailed? {
        return LoginThrew(response.error);
      }
      if AsksForMfa(response) {
        mfaRequired := true;
        mfaUsername := username;
        return NeedsMfa(ChallengeMessage(response));
      }
      var u := if response.SignedIn? then Session(response.user) else RawReply(response.reply);
      user := Some(u);
      mfaRequired := false;
      mfaUsername := "";
      out := LoggedIn(u);
    }

    /** `validateMfa(code, username)`: the explicit username wins over
     *  `mfaUsername`; with neither it throws before calling the service.
     *  A value whose `valid` is false leaves every field alone; a value
     *  with an access token signs the user in and clears the MFA state;
     *  anything else throws. `calledWith` is the username handed to the
     *  service, if it was called. */
    method ValidateMfa(code: string, username: string, response: AS.MfaOutcome)
      returns (calledWith: Option<string>, out: MfaResult)
      modifies this
      ensures var toUse := OrElse(username, old(mfaUsername));
        && (calledWith.None? <==> toUse == "")
        && (calledWith.Some? ==> calledWith.value == toUse)
      ensures calledWith.None? ==> out == MfaThrew(NO_MFA_USERNAME)
      ensures out.MfaValid? <==> calledWith.Some? && response.Verified? && response.user.accessToken != ""
      ensures out.MfaValid? ==>
        out.user == response.user && user == Some(Session(response.user)) && !mfaRequired && mfaUsername == ""
      ensures calledWith.Some? && (response.CodeRejected? || (response.Unexpected? && response.reply.token == "")) ==>
        out == MfaInvalid(AS.INVALID_CODE_MESSAGE)
      ensures !out.MfaValid? ==>
        user == old(user) && mfaRequired == old(mfaRequired) && mfaUsername == old(mfaUsername)
      ensures loading == old(loading)
    {
      var toUse := OrElse(username, mfaUsername);
      if toUse == "" {
        return None, MfaThrew(NO_MFA_USERNAME);
      }
      calledWith := Some(toUse);
      match response {
        case NoUsername =>
          out := MfaThrew("No username available for MFA validation");
        case MfaFailed(e) =>
          out := MfaThrew(e);
        case CodeRejected(_) =>
          out := MfaInvalid(AS.INVALID_CODE_MESSAGE);
        case Unexpected(r) =>
          // `{...data, valid: !!data.token}` carries no access token
          out := if r.token == "" then MfaInvalid(AS.INVALID_CODE_MESSAGE) else MfaThrew(BAD_FORMAT);
        case Verified(u) =>
          if u.accessToken != "" {
            user := Some(Session(u));
            mfaRequired := false;
            mfaUsername := "";
            out := MfaValid(u);
          } else {
            out := MfaThrew(BAD_FORMAT);
          }
      }
    }

    /** `logout`: the user and the MFA state are cleared whether the
     *  service resolves or throws. */
    method Logout(serviceResult: Result<bool>) returns (out: Result<bool>)
      modifies this
      ensures user == None && !mfaRequired && mfaUsername == ""
      ensures out == serviceResult
      ensures loading == old(loading)
    {
      user := None;
      mfaRequired := false;
      mfaUsername := "";
      out := serviceResult;
    }

    /** `hasRole`: false while nobody is signed in, otherwise membership in
     *  the user's roles. A raw reply without `roles` makes `user.roles`
     *  undefined, and `includes` on it throws a TypeError. */
    function HasRole(role: string): (b: Result<bool>)
      reads this
      ensures user.None? ==> b == Ok(false)
      ensures user.Some? && user.value.Session? ==> b == Ok(role in user.value.record.roles)
      ensures user.Some? && user.value.RawReply? ==>
        (b.Err? <==> user.value.reply.roles.None?)
        && (b.Err? ==> b.error == ROLES_UNDEFINED)
        && (b.Ok? ==> (b.value <==> role in user.value.reply.roles.value))
    {
      match user
      case None => Ok(false)
      case Some(Session(r)) => Ok(role in r.roles)
      case Some(RawReply(r)) =>
        if r.roles.None? then Err(ROLES_UNDEFINED) else Ok(role in r.roles.value)
    }
  }
}
