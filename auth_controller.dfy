/**
 * The sign-in endpoints of the server (`AuthController.java`):
 *  - /signin with its in-memory lockout table (five failures lock a user
 *    name out for ten minutes);
 *  - /login with its ordered account checks, the persisted failure
 *    counter and the second-factor gate;
 *  - /reset-password-mfa and /logout.
 * The clock is the parameter `now` (milliseconds). The outcome of Spring's
 * authentication manager, the password encoder and the issued JWT are
 * parameters; what issuing a JWT does to the token table is modelled in
 * `JwtUtils`.
 */
module AuthController {
  import opened Common
  import Mfa = MfaService

  const MAX_ATTEMPTS := 5
  const MS_PER_MINUTE := 60000
  const LOCKOUT_DURATION_MS := 10 * MS_PER_MINUTE

  // ---------------------------------------------------------------------
  // /signin and the lockout table

  /** One row of `loginAttempts`; a missing row reads as a fresh one. */
  datatype FailedLoginInfo = FailedLoginInfo(attempts: nat, lockoutUntil: int)

  /** What the authentication manager did with the credentials. */
  datatype AuthAttempt = Authenticates(mfaEnabled: bool) | BadCredentials | Throws(message: string)

  datatype SigninReply =
    | StillLocked(minutesLeft: int)      // "Account is locked. Try again in N minutes."
    | TempTokenIssued                    // MFA user: a temporary token, mfaRequired
    | JwtIssued                          // full token with id, username, email, roles
    | LockedNow                          // "... too many failed attempts. Try again in 10 minutes."
    | InvalidCredentials                 // "Error: Invalid username or password"
    | SigninFailed(message: string)      // "Error: " + the exception's message

  function EntryOf(entries: map<string, FailedLoginInfo>, username: string): (info: FailedLoginInfo)
    ensures username !in entries ==> info == FailedLoginInfo(0, 0)
  {
    if username in entries then entries[username] else FailedLoginInfo(0, 0)
  }

  predicate Locked(info: FailedLoginInfo, now: int)
  {
    info.lockoutUntil > now
  }

  /** `TimeUnit.MILLISECONDS.toMinutes(lockoutUntil - now) + 1`: the whole
   *  minutes left, plus one. */
  function MinutesLeft(lockoutUntil: int, now: int): (m: int)
    requires lockoutUntil > now
    ensures m >= 1
    ensures (m - 1) * MS_PER_MINUTE <= lockoutUntil - now < m * MS_PER_MINUTE
    ensures lockoutUntil - now <= LOCKOUT_DURATION_MS ==> m <= 11
  {
    (lockoutUntil - now) / MS_PER_MINUTE + 1
  }

  /** The row after a rejected password: the fifth strike starts a lockout
   *  and resets the count. */
  function AfterFailure(info: FailedLoginInfo, now: int): (after: FailedLoginInfo)
    ensures info.attempts + 1 >= MAX_ATTEMPTS ==> after == FailedLoginInfo(0, now + LOCKOUT_DURATION_MS)
    ensures info.attempts + 1 < MAX_ATTEMPTS ==> after == info.(attempts := info.attempts + 1)
  {
    if info.attempts + 1 >= MAX_ATTEMPTS then FailedLoginInfo(0, now + LOCKOUT_DURATION_MS)
    else info.(attempts := info.attempts + 1)
  }

  /** A row after rejected passwords at `times`, attempts made while the
   *  row is locked changing nothing. */
  function Replay(info: FailedLoginInfo, times: seq<int>): FailedLoginInfo
  {
    if times == [] then info
    else
      var before := Replay(info, times[..|times| - 1]);
      var now := times[|times| - 1];
      if Locked(before, now) then before else AfterFailure(before, now)
  }

  /** Fewer than five failures outside a lockout only count up. */
  lemma {:induction false} FailuresAccumulate(info: FailedLoginInfo, times: seq<int>)
    requires info.attempts + |times| < MAX_ATTEMPTS
    requires forall k :: 0 <= k < |times| ==> info.lockoutUntil <= times[k]
    ensures Replay(info, times) == info.(attempts := info.attempts + |times|)
  {
    if times != [] {
      FailuresAccumulate(info, times[..|times| - 1]);
    }
  }

  /** Five wrong passwords in a row on an unlocked user name lock it out
   *  for ten minutes from the fifth, with the count back at zero. */
  lemma FifthFailureLocks(info: FailedLoginInfo, times: seq<int>)
    requires info.attempts == 0 && |times| == MAX_ATTEMPTS
    requires forall k :: 0 <= k < |times| ==> info.lockoutUntil <= times[k]
    ensures Replay(info, times) == FailedLoginInfo(0, times[4] + LOCKOUT_DURATION_MS)
  {
    FailuresAccumulate(info, times[..4]);
  }

  /** The server's `loginAttempts` table. */
  class LoginAttempts {
    var entries: map<string, FailedLoginInfo>

    constructor ()
      ensures entries == map[]
    {
      entries := map[];
    }

    /** No row ever holds five strikes: the fifth turns into a lockout. */
    predicate BelowMax()
      reads this
    {
      forall u :: u in entries ==> entries[u].attempts < MAX_ATTEMPTS
    }

    /** `authenticateUser`. The row is created if missing; while it is
     *  locked nothing is attempted; a success removes it; a bad password
     *  counts a strike; any other error leaves it as it was. */
    method AuthenticateUser(username: string, now: int, attempt: AuthAttempt) returns (reply: SigninReply)
      modifies this
      ensures var info := EntryOf(old(entries), username);
        && (Locked(info, now) ==>
              reply == StillLocked(MinutesLeft(info.lockoutUntil, now)) && entries == old(entries)[username := info])
        && (!Locked(info, now) && attempt.Authenticates? ==>
              entries == old(entries) - {username}
              && reply == (if attempt.mfaEnabled then TempTokenIssued else JwtIssued))
        && (!Locked(info, now) && attempt.BadCredentials? ==>
              entries == old(entries)[username := AfterFailure(info, now)]
              && reply == (if info.attempts + 1 >= MAX_ATTEMPTS then LockedNow else InvalidCredentials))
        && (!Locked(info, now) && attempt.Throws? ==>
              entries == old(entries)[username := info] && reply == SigninFailed("Error: " + attempt.message))
      ensures old(BelowMax()) ==> BelowMax()
    {
      var info := EntryOf(entries, username);
      entries := entries[username := info];
      if info.lockoutUntil > now {
        return StillLocked(MinutesLeft(info.lockoutUntil, now));
      }
      match attempt {
        case Authenticates(mfa) =>
          entries := entries - {username};
          reply := if mfa then TempTokenIssued else JwtIssued;
        case BadCredentials =>
          var attempts := info.attempts + 1;
          if attempts >= MAX_ATTEMPTS {
            entries := entries[username := FailedLoginInfo(0, now + LOCKOUT_DURATION_MS)];
            reply := LockedNow;
          } else {
            entries := entries[username := FailedLoginInfo(attempts, info.lockoutUntil)];
            reply := InvalidCredentials;
          }
        case Throws(m) =>
          reply := SigninFailed("Error: " + m);
      }
    }
  }

  // ---------------------------------------------------------------------
  // /login

  /** The user fields the login and reset endpoints read and write. */
  class Account {
    const username: string
    var password: string
    var active: bool
    var accountExpired: bool
    var failedLoginAttempts: nat
    var mfaEnabled: bool
    var mfaSecret: Option<string>

    constructor (name: string, hash: string, isActive: bool, expired: bool, mfa: bool, secret: Option<string>)
      ensures username == name && password == hash && active == isActive && accountExpired == expired
      ensures failedLoginAttempts == 0 && mfaEnabled == mfa && mfaSecret == secret
    {
      username, password, active, accountExpired := name, hash, isActive, expired;
      failedLoginAttempts, mfaEnabled, mfaSecret := 0, mfa, secret;
    }
  }

  /** The body of a /login reply (`LoginResponseDTO`); only the successful
   *  login fills in `roles`, the five-argument constructor leaves it null. */
  datatype LoginBody = LoginBody(success: bool, message: string, token: Option<string>,
                                 username: Option<string>, mfaRequired: Option<bool>,
                                 roles: Option<seq<string>>)

  const INVALID_LOGIN := "Invalid username or password"

  /** The checks a /login request must pass, in the order they are made,
   *  before a token may be issued: a known, active, unexpired account, the
   *  right password and, for a two-factor account, a code that verifies. */
  predicate MayIssueToken(known: bool, active: bool, expired: bool, passwordMatches: bool,
                          mfaEnabled: bool, codeGiven: bool, codeValid: bool)
  {
    known && active && !expired && passwordMatches && (!mfaEnabled || (codeGiven && codeValid))
  }

  /** `login`. `account` is the user found under the submitted name;
   *  `verifier` is the TOTP check; `authenticated` is what the
   *  authentication manager did (the principal's authority names, or the
   *  exception's message) and `jwt` the token that would be issued. */
  method Login(account: Option<Account>, passwordMatches: bool, mfaCode: Option<string>,
               verifier: (Option<string>, string) -> bool, authenticated: Result<seq<string>>, jwt: string)
    returns (status: nat, body: LoginBody)
    modifies if account.Some? then {account.value} else {}
    ensures account.None? ==> status == 401 && body == LoginBody(false, INVALID_LOGIN, None, None, None, None)
    ensures account.Some? ==>
      var a := account.value;
      var codeGiven := mfaCode.Some? && mfaCode.value != "";
      var codeValid := codeGiven && Mfa.VerifyCode(verifier, old(a.mfaSecret), mfaCode);
      && (body.roles.Some? <==> body.token.Some?)
      && (body.token.Some? <==>
            MayIssueToken(true, old(a.active), old(a.accountExpired), passwordMatches, old(a.mfaEnabled), codeGiven, codeValid)
            && authenticated.Ok?)
      && (body.token.Some? ==> status == 200 && body == LoginBody(true, "Login successful", Some(jwt), Some(a.username), Some(false), Some(authenticated.value)))
      && (!old(a.active) ==> status == 401 && body.message == "Account is not active")
      && (old(a.active) && old(a.accountExpired) ==> status == 401 && body.message == "Account has expired")
      && (old(a.active) && !old(a.accountExpired) && !passwordMatches ==>
            status == 401 && body.message == INVALID_LOGIN
            && a.failedLoginAttempts == old(a.failedLoginAttempts) + 1)
      && (old(a.active) && !old(a.accountExpired) && passwordMatches ==> a.failedLoginAttempts == 0)
      && (!(old(a.active) && !old(a.accountExpired)) ==> a.failedLoginAttempts == old(a.failedLoginAttempts))
      && (old(a.active) && !old(a.accountExpired) && passwordMatches && old(a.mfaEnabled) && !codeGiven ==>
            status == 200 && body == LoginBody(true, "MFA verification required", None, Some(a.username), Some(true), None))
      && (old(a.active) && !old(a.accountExpired) && passwordMatches && old(a.mfaEnabled) && codeGiven && !codeValid ==>
            status == 401 && body.message == "Invalid verification code")
      && (MayIssueToken(true, old(a.active), old(a.accountExpired), passwordMatches, old(a.mfaEnabled), codeGiven, codeValid)
          && authenticated.Err? ==>
            status == 500 && body == LoginBody(false, "Server error: " + authenticated.error, None, None, None, None))
      && a.active == old(a.active) && a.accountExpired == old(a.accountExpired) && a.password == old(a.password)
      && a.mfaEnabled == old(a.mfaEnabled) && a.mfaSecret == old(a.mfaSecret)
  {
    if account.None? {
      return 401, LoginBody(false, INVALID_LOGIN, None, None, None, None);
    }
    var user := account.value;
    if !user.active {
      return 401, LoginBody(false, "Account is not active", None, None, None, None);
    }
    if user.accountExpired {
      return 401, LoginBody(false, "Account has expired", None, None, None, None);
    }
    if !passwordMatches {
      user.failedLoginAttempts := user.failedLoginAttempts + 1;
      return 401, LoginBody(false, INVALID_LOGIN, None, None, None, None);
    }
    if user.failedLoginAttempts > 0 {
      user.failedLoginAttempts := 0;
    }
    if user.mfaEnabled {
      if mfaCode.Some? && mfaCode.value != "" {
        var validCode := Mfa.VerifyCode(verifier, user.mfaSecret, mfaCode);
        if !validCode {
          return 401, LoginBody(false, "Invalid verification code", None, None, None, None);
        }
      } else {
        return 200, LoginBody(true, "MFA verification required", None, Some(user.username), Some(true), None);
      }
    }
    if authenticated.Err? {
      return 500, LoginBody(false, "Server error: " + authenticated.error, None, None, None, None);
    }
    status, body := 200, LoginBody(true, "Login successful", Some(jwt), Some(user.username), Some(false), Some(authenticated.value));
  }

  // ---------------------------------------------------------------------
  // /reset-password-mfa and /logout

  /** `resetPasswordWithMfa`. `account` is the user found under `username`;
   *  `encode` is the password encoder. */
  method ResetPasswordWithMfa(username: Option<string>, mfaCode: Option<string>, newPassword: Option<string>,
                              account: Option<Account>, verifier: (Option<string>, string) -> bool,
                              encode: string -> string)
    returns (status: nat, message: string)
    modifies if account.Some? then {account.value} else {}
    ensures var changed := username.Some? && mfaCode.Some? && newPassword.Some? && account.Some?
                           && old(account.value.mfaEnabled)
                           && Mfa.VerifyCode(verifier, old(account.value.mfaSecret), mfaCode);
      && (changed ==> status == 200 && message == "Password has been reset successfully."
                      && account.value.password == encode(newPassword.value))
      && (!changed ==> status == 400 && (account.Some? ==> account.value.password == old(account.value.password)))
    ensures username.None? || mfaCode.None? || newPassword.None? ==> message == "All fields are required"
    ensures username.Some? && mfaCode.Some? && newPassword.Some? && account.None? ==> message == "User not found"
    ensures username.Some? && mfaCode.Some? && newPassword.Some? && account.Some?
            && !(old(account.value.mfaEnabled) && Mfa.VerifyCode(verifier, old(account.value.mfaSecret), mfaCode))
            ==> message == "Invalid MFA code"
    ensures account.Some? ==>
      var a := account.value;
      && a.active == old(a.active) && a.accountExpired == old(a.accountExpired)
      && a.failedLoginAttempts == old(a.failedLoginAttempts)
      && a.mfaEnabled == old(a.mfaEnabled) && a.mfaSecret == old(a.mfaSecret)
  {
    if username.None? || mfaCode.None? || newPassword.None? {
      return 400, "All fields are required";
    }
    if account.None? {
      return 400, "User not found";
    }
    var user := account.value;
    if !user.mfaEnabled || !Mfa.VerifyCode(verifier, user.mfaSecret, mfaCode) {
      return 400, "Invalid MFA code";
    }
    user.password := encode(newPassword.value);
    status, message := 200, "Password has been reset successfully.";
  }

  /** `logoutUser`: the token after "Bearer " is handed to the blacklist;
   *  `subjectReadable` says whether its user name could be read (an
   *  exception otherwise) and `blacklisted` what blacklisting returned.
   *  The header is a required `@RequestHeader`: when it is absent the
   *  handler never runs, and the exception that says so reaches the
   *  catch-all handler's 500. */
  function LogoutReply(header: Option<string>, subjectReadable: bool, blacklisted: bool)
    : (r: (nat, string, Option<string>))
    ensures r.2 == (if subjectReadable then BearerToken(header) else None)
    ensures header.None? ==> r.0 == 500 && r.1 == UNEXPECTED_ERROR
    ensures header.Some? && BearerToken(header).None? ==> r.0 == 400 && r.1 == "No valid authentication token found"
    ensures r.0 == 200 <==> BearerToken(header).Some? && subjectReadable && blacklisted
    ensures BearerToken(header).Some? && !subjectReadable ==> r.0 == 500 && r.1 == "Logout failed due to an unexpected error"
  {
    var token := BearerToken(header);
    if header.None? then (500, UNEXPECTED_ERROR, None)
    else if token.None? then (400, "No valid authentication token found", None)
    else if !subjectReadable then (500, "Logout failed due to an unexpected error", None)
    else if blacklisted then (200, "You have been successfully logged out", token)
    else (500, "Logout failed. Please try again.", token)
  }

  /** A client's own "Bearer " header reaches the blacklist with exactly
   *  the token the client holds. */
  lemma LogoutBlacklistsClientToken(token: string)
    ensures LogoutReply(Some(BEARER_PREFIX + token), true, true) == (200, "You have been successfully logged out", Some(token))
  {
    BearerRoundTrip(token);
  }
}
