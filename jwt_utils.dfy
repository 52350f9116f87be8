/**
 * Token issue, revocation and validation (`JwtUtils.java`). Signing and
 * parsing per RFC 7519 are parameters: `sign` turns claims into the compact
 * token, `parse` checks a compact token's signature and yields its claims.
 * The clock is the parameter `now` (milliseconds).
 */
module JwtUtils {
  import opened Common
  import opened UserTokenRepository
  import opened JwtBlacklistRepository
  import opened TokenService
  import opened JwtBlacklistService

  /** The claims the application writes and reads: subject, issue time
   *  and expiry. */
  datatype Claims = Claims(subject: string, issuedAt: int, expiration: int)

  /** `parseClaimsJws`: a bad signature, or an expiry already passed,
   *  throws a `JwtException`; an expiry equal to now still parses. */
  function LiveClaims(parse: string -> Option<Claims>, token: string, now: int): (c: Option<Claims>)
    ensures c.Some? <==> parse(token).Some? && now <= parse(token).value.expiration
    ensures c.Some? ==> c == parse(token)
  {
    var p := parse(token);
    if p.Some? && now <= p.value.expiration then p else None
  }

  /** `getUserNameFromJwtToken` and `getUserNameFromTempToken`: the subject
   *  of a token that parses, a thrown `JwtException` otherwise. */
  function UserNameFromToken(parse: string -> Option<Claims>, token: string, now: int): (r: Result<string>)
    ensures r.Ok? <==> LiveClaims(parse, token, now).Some?
    ensures r.Ok? ==> r.value == parse(token).value.subject
  {
    var c := LiveClaims(parse, token, now);
    if c.Some? then Ok(c.value.subject) else Err("JwtException")
  }

  /** `getExpirationFromJwtToken`: the expiry of a token that parses. */
  function ExpirationFromToken(parse: string -> Option<Claims>, token: string, now: int): (r: Result<int>)
    ensures r.Ok? <==> LiveClaims(parse, token, now).Some?
    ensures r.Ok? ==> now <= r.value && r.value == parse(token).value.expiration
  {
    var c := LiveClaims(parse, token, now);
    if c.Some? then Ok(c.value.expiration) else Err("JwtException")
  }

  /** After blacklisting every row of a user and appending a fresh row for
   *  that user, the fresh row is the user's only row not blacklisted. */
  lemma {:induction false} SingleSession(rows: seq<UserToken>, row: UserToken)
    requires !row.blacklisted
    ensures var after := FlagUser(rows, row.username) + [row];
      && row in after
      && forall t :: t in after && t.username == row.username && !t.blacklisted ==> t == row
  {
    var flagged := FlagUser(rows, row.username);
    var after := flagged + [row];
    assert after[|flagged|] == row;
    assert forall k :: 0 <= k < |flagged| && flagged[k].username == row.username ==> flagged[k].blacklisted;
    forall t | t in after && t.username == row.username && !t.blacklisted
      ensures t == row
    {
      var k :| 0 <= k < |after| && after[k] == t;
      assert k == |flagged|;
    }
  }

  class JwtUtilsImpl {
    const tokenService: TokenServiceImpl
    const blacklistService: JwtBlacklistServiceImpl
    const jwtExpirationMs: int
    const tempTokenExpirationMs: int

    constructor (tokens: TokenServiceImpl, blacklist: JwtBlacklistServiceImpl, expirationMs: int, tempExpirationMs: int)
      ensures tokenService == tokens && blacklistService == blacklist
      ensures jwtExpirationMs == expirationMs && tempTokenExpirationMs == tempExpirationMs
    {
      tokenService := tokens;
      blacklistService := blacklist;
      jwtExpirationMs := expirationMs;
      tempTokenExpirationMs := tempExpirationMs;
    }

    /** `generateJwtToken`: every stored token of the user is blacklisted,
     *  then the new token is stored with the configured lifetime. When
     *  storing fails (`storeFails`) the failure is only logged and the
     *  token is returned all the same. */
    method GenerateJwtToken(userId: int, username: string, sign: Claims -> string, now: int, storeFails: bool)
      returns (jwt: string)
      modifies tokenService.repo
      ensures jwt == sign(Claims(username, now, now + jwtExpirationMs))
      ensures var row := NewRow(userId, username, jwt, jwtExpirationMs, None, now);
        tokenService.repo.rows ==
          FlagUser(old(tokenService.repo.rows), username) + (if storeFails then [] else [row])
      ensures !storeFails ==>
        forall t :: t in tokenService.repo.rows && t.username == username && !t.blacklisted ==>
          t == NewRow(userId, username, jwt, jwtExpirationMs, None, now)
      ensures storeFails && (forall k :: 0 <= k < |old(tokenService.repo.rows)| ==> old(tokenService.repo.rows)[k].token != jwt) ==>
        forall later :: !TokenValidIn(tokenService.repo.rows, jwt, later)
    {
      tokenService.BlacklistAllUserTokens(username);
      jwt := sign(Claims(username, now, now + jwtExpirationMs));
      if !storeFails {
        var row := tokenService.CreateToken(userId, username, jwt, jwtExpirationMs, None, now);
        SingleSession(old(tokenService.repo.rows), row);
      } else {
        var rows := tokenService.repo.rows;
        if forall k :: 0 <= k < |old(tokenService.repo.rows)| ==> old(tokenService.repo.rows)[k].token != jwt {
          forall later
            ensures !TokenValidIn(rows, jwt, later)
          {
            UnstoredTokenInvalid(rows, jwt, later);
          }
        }
      }
    }

    /** `generateTokenFromUsername`: a token is signed and nothing is
     *  stored. */
    method GenerateTokenFromUsername(username: string, sign: Claims -> string, now: int) returns (jwt: string)
      ensures jwt == sign(Claims(username, now, now + jwtExpirationMs))
    {
      jwt := sign(Claims(username, now, now + jwtExpirationMs));
    }

    /** `generateTempToken`: the token of the MFA step, signed with its own
     *  lifetime and not stored. */
    method GenerateTempToken(username: string, sign: Claims -> string, now: int) returns (jwt: string)
      ensures jwt == sign(Claims(username, now, now + tempTokenExpirationMs))
    {
      jwt := sign(Claims(username, now, now + tempTokenExpirationMs));
    }

    /** `generateJwtTokenFromTempToken`: an unparseable or expired temporary
     *  token throws and changes nothing; otherwise every stored token of
     *  its subject is blacklisted and a new token for the subject is
     *  signed, but not stored. */
    method GenerateJwtTokenFromTempToken(tempToken: string, parse: string -> Option<Claims>,
                                         sign: Claims -> string, now: int) returns (r: Result<string>)
      modifies tokenService.repo
      ensures LiveClaims(parse, tempToken, now).None? ==>
        r.Err? && tokenService.repo.rows == old(tokenService.repo.rows)
      ensures LiveClaims(parse, tempToken, now).Some? ==>
        var subject := parse(tempToken).value.subject;
        && r == Ok(sign(Claims(subject, now, now + jwtExpirationMs)))
        && tokenService.repo.rows == FlagUser(old(tokenService.repo.rows), subject)
    {
      var claims := LiveClaims(parse, tempToken, now);
      if claims.None? {
        return Err("JwtException");
      }
      var subject := claims.value.subject;
      tokenService.BlacklistAllUserTokens(subject);
      r := Ok(sign(Claims(subject, now, now + jwtExpirationMs)));
    }

    /** `blacklistToken(token, reason)`: a token that does not parse gives
     *  false and nothing is recorded. Otherwise a blacklist entry carrying
     *  the token's expiry is saved, the token's rows are flagged (a failure
     *  there is only logged), and the answer is true. */
    method BlacklistToken(token: string, reason: string, parse: string -> Option<Claims>, now: int)
      returns (ok: bool)
      modifies tokenService.repo, blacklistService.repo
      ensures ok <==> LiveClaims(parse, token, now).Some?
      ensures !ok ==>
        tokenService.repo.rows == old(tokenService.repo.rows)
        && blacklistService.repo.entries == old(blacklistService.repo.entries)
      ensures ok ==>
        blacklistService.repo.entries ==
          old(blacklistService.repo.entries) + [BlacklistEntry(token, None, None, now, parse(token).value.expiration)]
        && tokenService.repo.rows ==
             (if |token| < 10 then old(tokenService.repo.rows) else FlagToken(old(tokenService.repo.rows), token))
      ensures ok ==> blacklistService.IsTokenBlacklisted(token)
    {
      var claims := LiveClaims(parse, token, now);
      if claims.None? {
        return false;
      }
      var _ := blacklistService.BlacklistToken(token, claims.value.expiration, now);
      var _ := tokenService.BlacklistToken(token);
      ok := true;
    }

    /** `validateJwtToken`: the blacklist is consulted first, then the token
     *  table, then the signature and expiry; only a token passing all three
     *  has its `lastUsedAt` moved to now, and nothing else changes. */
    method ValidateJwtToken(token: string, parse: string -> Option<Claims>, now: int) returns (valid: bool)
      modifies tokenService.repo
      ensures valid <==>
        !blacklistService.IsTokenBlacklisted(token)
        && TokenValidIn(old(tokenService.repo.rows), token, now)
        && LiveClaims(parse, token, now).Some?
      ensures valid ==> exists t :: t in old(tokenService.repo.rows) && t.token == token
      ensures var rows := old(tokenService.repo.rows); var i := IndexOfToken(rows, token);
        tokenService.repo.rows == if valid then rows[i := rows[i].(lastUsedAt := Some(now))] else rows
    {
      if blacklistService.IsTokenBlacklisted(token) {
        return false;
      }
      if !tokenService.IsTokenValid(token, now) {
        return false;
      }
      var claims := LiveClaims(parse, token, now);
      if claims.None? {
        return false;
      }
      tokenService.UpdateTokenUsage(token, now);
      valid := true;
    }
  }

  /** A token that logout blacklisted no longer validates, whatever the
   *  token table and the blacklist held before. */
  method LoggedOutTokenRejected(token: string, parse: string -> Option<Claims>, rows: seq<UserToken>,
                                listed: seq<BlacklistEntry>, now: int, later: int) returns (valid: bool)
    requires LiveClaims(parse, token, now).Some?
    ensures !valid
  {
    var tokenRepo := new UserTokenRepo();
    tokenRepo.rows := rows;
    var tokens := new TokenServiceImpl(tokenRepo);
    var blacklistRepo := new JwtBlacklistRepo();
    blacklistRepo.entries := listed;
    var blacklist := new JwtBlacklistServiceImpl(blacklistRepo);
    var utils := new JwtUtilsImpl(tokens, blacklist, 0, 0);
    var loggedOut := utils.BlacklistToken(token, "User logout", parse, now);
    valid := utils.ValidateJwtToken(token, parse, later);
  }
}
