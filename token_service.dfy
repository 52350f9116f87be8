/**
 * The session-token service (`TokenServiceImpl.java`) over the token
 * table. The clock is the parameter `now` (milliseconds); the HTTP request
 * is reduced to the three values read from it.
 */
module TokenService {
  import opened Common
  import opened UserTokenRepository

  /** What `createToken` reads from the request: the X-FORWARDED-FOR
   *  header, the remote address and the User-Agent header. */
  datatype RequestInfo = RequestInfo(forwardedFor: Option<string>, remoteAddr: string, userAgent: Option<string>)

  /** Java `int` division, which truncates toward zero. */
  function TruncDiv(a: int, b: int): (q: int)
    requires b > 0
    ensures a >= 0 ==> q == a / b
    ensures a < 0 ==> q == -((-a) / b)
  {
    if a >= 0 then a / b else -((-a) / b)
  }

  /** `getClientIp`: a non-empty forwarded-for header wins over the remote
   *  address. */
  function ClientIp(request: RequestInfo): (ip: string)
    ensures request.forwardedFor.Some? && request.forwardedFor.value != "" ==> ip == request.forwardedFor.value
    ensures request.forwardedFor.None? || request.forwardedFor.value == "" ==> ip == request.remoteAddr
  {
    if request.forwardedFor.Some? && request.forwardedFor.value != "" then request.forwardedFor.value
    else request.remoteAddr
  }

  /** The row `createToken` saves: whole seconds of the lifetime only, not
   *  blacklisted, last used now. */
  function NewRow(userId: int, username: string, token: string, expirationTimeInMs: int,
                  request: Option<RequestInfo>, now: int): (row: UserToken)
    ensures !row.blacklisted && row.lastUsedAt == Some(now) && row.createdAt == now && row.token == token
    ensures row.username == username && row.userId == userId
    ensures expirationTimeInMs >= 0 ==>
      now + expirationTimeInMs - 1000 < row.expiresAt <= now + expirationTimeInMs
    ensures request.None? ==> row.ipAddress == None && row.userAgent == None
  {
    var ip := if request.Some? then Some(ClientIp(request.value)) else None;
    var agent := if request.Some? then request.value.userAgent else None;
    UserToken(userId, username, token, false, ip, agent, now, now + 1000 * TruncDiv(expirationTimeInMs, 1000), Some(now))
  }

  /** A row appended for a token no earlier row holds is the one
   *  `findByToken` finds. */
  lemma {:induction false} AppendedRowFound(rows: seq<UserToken>, row: UserToken)
    requires forall k :: 0 <= k < |rows| ==> rows[k].token != row.token
    ensures IndexOfToken(rows + [row], row.token) == |rows|
    decreases |rows|
  {
    if rows != [] {
      assert (rows + [row])[1..] == rows[1..] + [row];
      AppendedRowFound(rows[1..], row);
    }
  }

  /** `isTokenValid` on a table: the row `findByToken` finds exists, is not
   *  blacklisted and expires strictly after now. */
  predicate TokenValidIn(rows: seq<UserToken>, token: string, now: int)
  {
    var i := IndexOfToken(rows, token);
    i < |rows| && !rows[i].blacklisted && rows[i].expiresAt > now
  }

  /** A token no row holds is never valid. */
  lemma UnstoredTokenInvalid(rows: seq<UserToken>, token: string, now: int)
    requires forall k :: 0 <= k < |rows| ==> rows[k].token != token
    ensures !TokenValidIn(rows, token, now)
  {
  }

  class TokenServiceImpl {
    const repo: UserTokenRepo

    constructor (r: UserTokenRepo)
      ensures repo == r
    {
      repo := r;
    }

    /** `createToken`. */
    method CreateToken(userId: int, username: string, token: string, expirationTimeInMs: int,
                       request: Option<RequestInfo>, now: int) returns (row: UserToken)
      modifies repo
      ensures row == NewRow(userId, username, token, expirationTimeInMs, request, now)
      ensures repo.rows == old(repo.rows) + [row]
    {
      row := NewRow(userId, username, token, expirationTimeInMs, request, now);
      repo.Insert(row);
    }

    /** `isTokenValid`. */
    function IsTokenValid(token: string, now: int): (b: bool)
      reads repo
      ensures b <==> TokenValidIn(repo.rows, token, now)
      ensures b ==> repo.FindByToken(token).Some?
    {
      var found := repo.FindByToken(token);
      found.Some? && !found.value.blacklisted && found.value.expiresAt > now
    }

    /** `getActiveTokensForUser`. */
    function GetActiveTokensForUser(username: string, now: int): (r: seq<UserToken>)
      reads repo
      ensures r == Filter(repo.rows, (t: UserToken) => ActiveFor(t, username, now))
      ensures forall t :: t in r <==> t in repo.rows && ActiveFor(t, username, now)
    {
      repo.FindActiveTokensByUsername(username, now)
    }

    /** `blacklistAllUserTokens`. */
    method BlacklistAllUserTokens(username: string)
      modifies repo
      ensures repo.rows == FlagUser(old(repo.rows), username)
    {
      repo.BlacklistAllTokensForUser(username);
    }

    /** `blacklistToken`: the log line reads the token's first ten chars,
     *  so a shorter token throws before the table is touched. */
    method BlacklistToken(token: string) returns (outcome: Result<()>)
      modifies repo
      ensures |token| < 10 ==> outcome.Err? && repo.rows == old(repo.rows)
      ensures |token| >= 10 ==> outcome.Ok? && repo.rows == FlagToken(old(repo.rows), token)
    {
      if |token| < 10 {
        return Err("StringIndexOutOfBoundsException");
      }
      repo.BlacklistToken(token);
      outcome := Ok(());
    }

    /** `updateTokenUsage`: only `lastUsedAt` of the found row changes. */
    method UpdateTokenUsage(token: string, now: int)
      modifies repo
      ensures var i := IndexOfToken(old(repo.rows), token);
        repo.rows == if i < |old(repo.rows)| then old(repo.rows)[i := old(repo.rows)[i].(lastUsedAt := Some(now))]
                     else old(repo.rows)
    {
      var i := IndexOfToken(repo.rows, token);
      if i < |repo.rows| {
        repo.Update(i, repo.rows[i].(lastUsedAt := Some(now)));
      }
    }

    /** `cleanupExpiredTokens`. */
    method CleanupExpiredTokens(now: int)
      modifies repo
      ensures repo.rows == Filter(old(repo.rows), (t: UserToken) => Unexpired(t, now))
      ensures forall t :: t in repo.rows <==> t in old(repo.rows) && t.expiresAt >= now
    {
      repo.DeleteExpiredTokens(now);
    }
  }
}
