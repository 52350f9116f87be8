/**
 * The browser-side authentication service (`auth.service.js`).
 *
 * The service keeps two pieces of state: a module-level pending MFA
 * username and the JSON record stored under the browser-storage key
 * 'user'. The HTTP round trip is not modelled; the server's reply (or the
 * rejection of the request) is a parameter of each operation.
 */
module AuthService {
  import opened Common

  /** The record kept under the storage key 'user'. `markedValid` is the
   *  extra `valid: true` key written after an MFA check. */
  datatype StoredUser = StoredUser(accessToken: string, username: string, roles: seq<string>, markedValid: bool)

  /** Body of a 2xx reply from /api/auth/login; "" stands for an absent or
   *  falsy string, `None` for absent roles. */
  datatype LoginReply = LoginReply(mfaRequired: bool, success: bool, token: string,
                                   username: string, roles: Option<seq<string>>, message: string)

  datatype LoginOutcome =
    | MfaChallenge(username: string, message: string)
    | SignedIn(user: StoredUser)
    | ReplyAsIs(reply: LoginReply)
    | LoginFailed(error: string)

  /** Body of a 2xx reply from /api/mfa/validate; `valid` is `None` when
   *  the key is absent. */
  datatype MfaReply = MfaReply(token: string, username: string, roles: Option<seq<string>>,
                               valid: Option<bool>, message: string)

  /** The body posted to /api/mfa/validate. */
  datatype MfaRequest = MfaRequest(username: string, code: string)

  datatype MfaOutcome =
    | NoUsername
    | Verified(user: StoredUser)
    | CodeRejected(message: string)
    | Unexpected(reply: MfaReply)
    | MfaFailed(error: string)

  /** The three phases of the client session. */
  datatype Phase = Anonymous | PendingMfa | Authenticated

  const MFA_REQUIRED_MESSAGE := "MFA verification required"
  const INVALID_CODE_MESSAGE := "Invalid verification code"
  const ROLE_ADMIN := "ROLE_ADMIN"

  function RolesOrEmpty(roles: Option<seq<string>>): (r: seq<string>)
    ensures roles.Some? ==> r == roles.value
    ensures roles.None? ==> r == []
  {
    if roles.Some? then roles.value else []
  }

  /** The `valid` field of the value `validateMfa` resolves with. An
   *  unexpected reply (as `ValidateMfa` produces it) has no token, so
   *  `!!data.token` makes it false. */
  function OutcomeValid(o: MfaOutcome): (b: bool)
    requires !o.NoUsername? && !o.MfaFailed?
    requires o.Unexpected? ==> o.reply.token == ""
    ensures b <==> o.Verified?
  {
    match o
    case Verified(_) => true
    case CodeRejected(_) => false
    case Unexpected(r) => r.token != ""
  }

  class AuthClient {
    var pendingMfaUsername: string
    var stored: Option<StoredUser>

    /** The service starts with no pending username and whatever record a
     *  previous page load left in storage. */
    constructor (persisted: Option<StoredUser>)
      ensures pendingMfaUsername == "" && stored == persisted
    {
      pendingMfaUsername := "";
      stored := persisted;
    }

    function CurrentPhase(): (p: Phase)
      reads this
      ensures p == Authenticated <==> stored.Some?
      ensures p == PendingMfa <==> stored.None? && pendingMfaUsername != ""
    {
      if stored.Some? then Authenticated
      else if pendingMfaUsername != "" then PendingMfa
      else Anonymous
    }

    /** `login(username, password, mfaCode)`: an MFA challenge remembers the
     *  typed username and writes nothing to storage; a successful reply with
     *  a token stores exactly token, username and roles; any other reply is
     *  handed back untouched; a rejected request is rethrown. */
    method Login(username: string, mfaCode: string, reply: Result<LoginReply>) returns (out: LoginOutcome)
      modifies this
      ensures reply.Err? ==>
        out == LoginFailed(reply.error)
        && stored == old(stored) && pendingMfaUsername == old(pendingMfaUsername)
      ensures reply.Ok? && reply.value.mfaRequired && mfaCode == "" ==>
        out == MfaChallenge(OrElse(reply.value.username, username), OrElse(reply.value.message, MFA_REQUIRED_MESSAGE))
        && pendingMfaUsername == username && stored == old(stored)
      ensures reply.Ok? && !(reply.value.mfaRequired && mfaCode == "") && reply.value.success && reply.value.token != "" ==>
        stored == Some(StoredUser(reply.value.token, reply.value.username, RolesOrEmpty(reply.value.roles), false))
        && out == SignedIn(stored.value)
        && pendingMfaUsername == old(pendingMfaUsername)
      ensures reply.Ok? && !(reply.value.mfaRequired && mfaCode == "") && !(reply.value.success && reply.value.token != "") ==>
        out == ReplyAsIs(reply.value)
        && stored == old(stored) && pendingMfaUsername == old(pendingMfaUsername)
      ensures out.SignedIn? ==> CurrentPhase() == Authenticated
      ensures out.MfaChallenge? && old(stored).None? && username != "" ==> CurrentPhase() == PendingMfa
    {
      if reply.Err? {
        return LoginFailed(reply.error);
      }
      var data := reply.value;
      if data.mfaRequired && mfaCode == "" {
        pendingMfaUsername := username;
        return MfaChallenge(OrElse(data.username, username), OrElse(data.message, MFA_REQUIRED_MESSAGE));
      }
      if data.success && data.token != "" {
        var user := StoredUser(data.token, data.username, RolesOrEmpty(data.roles), false);
        stored := Some(user);
        return SignedIn(user);
      }
      out := ReplyAsIs(data);
    }

    /** `validateMfa(username, code)`: the explicit username wins over the
     *  pending one; with neither, the promise is rejected and no request is
     *  made. The code is sent with every non-digit removed. A reply carrying
     *  a token signs the user in and clears the pending username; every
     *  other reply leaves storage and the pending username alone. */
    method ValidateMfa(username: string, code: string, reply: Result<MfaReply>)
      returns (request: Option<MfaRequest>, out: MfaOutcome)
      modifies this
      ensures var effective := OrElse(username, old(pendingMfaUsername));
        && (effective == "" <==> request.None?)
        && (request.Some? ==> request.value == MfaRequest(effective, DigitsOnly(code)))
      ensures request.None? ==>
        out == NoUsername && stored == old(stored) && pendingMfaUsername == old(pendingMfaUsername)
      ensures request.Some? && reply.Err? ==>
        out == MfaFailed(reply.error) && stored == old(stored) && pendingMfaUsername == old(pendingMfaUsername)
      ensures request.Some? && reply.Ok? && reply.value.token != "" ==>
        out == Verified(StoredUser(reply.value.token, OrElse(reply.value.username, request.value.username),
                                   RolesOrEmpty(reply.value.roles), true))
        && stored == Some(out.user) && pendingMfaUsername == ""
      ensures request.Some? && reply.Ok? && reply.value.token == "" ==>
        out == (if reply.value.valid == Some(false) then CodeRejected(INVALID_CODE_MESSAGE) else Unexpected(reply.value))
        && stored == old(stored) && pendingMfaUsername == old(pendingMfaUsername)
      ensures out.Verified? ==> CurrentPhase() == Authenticated
    {
      var effective := OrElse(username, pendingMfaUsername);
      if effective == "" {
        return None, NoUsername;
      }
      request := Some(MfaRequest(effective, DigitsOnly(code)));
      if reply.Err? {
        return request, MfaFailed(reply.error);
      }
      var data := reply.value;
      if data.token != "" {
        var user := StoredUser(data.token, OrElse(data.username, effective), RolesOrEmpty(data.roles), true);
        stored := Some(user);
        pendingMfaUsername := "";
        out := Verified(user);
      } else if data.valid == Some(false) {
        out := CodeRejected(INVALID_CODE_MESSAGE);
      } else {
        out := Unexpected(data);
      }
    }

    /** `logout()`: the server is told only when a stored user has an access
     *  token; whatever the server answers, the stored user and the pending
     *  username are cleared. The result reports failure only when the
     *  server call was made and failed. */
    method Logout(serverReply: Result<()>) returns (posted: bool, success: bool)
      modifies this
      ensures posted <==> old(stored).Some? && old(stored).value.accessToken != ""
      ensures success <==> !posted || serverReply.Ok?
      ensures stored == None && pendingMfaUsername == ""
      ensures CurrentPhase() == Anonymous
    {
      posted := stored.Some? && stored.value.accessToken != "";
      success := !posted || serverReply.Ok?;
      stored := None;
      pendingMfaUsername := "";
    }

    /** `hasRole(role)`: false with no stored user, else membership. */
    function HasRole(role: string): (b: bool)
      reads this
      ensures b ==> CurrentPhase() == Authenticated
      ensures b <==> stored.Some? && role in stored.value.roles
    {
      stored.Some? && role in stored.value.roles
    }

    function IsAdmin(): (b: bool)
      reads this
      ensures b <==> HasRole(ROLE_ADMIN)
    {
      HasRole(ROLE_ADMIN)
    }
  }
}
