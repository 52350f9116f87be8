/**
 * The session-token table (`UserToken` rows behind
 * `UserTokenRepository.java`) and the four queries the core runs on it.
 * Times are milliseconds on one clock.
 */
module UserTokenRepository {
  import opened Common

  /** One row of `user_tokens`. `lastUsedAt` is `None` while unset. */
  datatype UserToken = UserToken(userId: int, username: string, token: string, blacklisted: bool,
                                 ipAddress: Option<string>, userAgent: Option<string>,
                                 createdAt: int, expiresAt: int, lastUsedAt: Option<int>)

  /** The rows `findActiveTokensByUsername(username, now)` selects. */
  predicate ActiveFor(r: UserToken, username: string, now: int)
  {
    r.username == username && !r.blacklisted && r.expiresAt > now
  }

  /** The index of the first row holding `token` (`|rows|` if none): the
   *  row `findByToken` returns. */
  function IndexOfToken(rows: seq<UserToken>, token: string): (i: nat)
    ensures i <= |rows|
    ensures i < |rows| ==> rows[i].token == token
    ensures forall k :: 0 <= k < i ==> rows[k].token != token
  {
    if rows == [] then 0
    else if rows[0].token == token then 0
    else 1 + IndexOfToken(rows[1..], token)
  }

  /** The table after `blacklistAllTokensForUser(username)`. */
  function FlagUser(rows: seq<UserToken>, username: string): (r: seq<UserToken>)
    ensures |r| == |rows|
    ensures forall k :: 0 <= k < |rows| ==>
      r[k] == (if rows[k].username == username then rows[k].(blacklisted := true) else rows[k])
  {
    seq(|rows|, k requires 0 <= k < |rows| =>
      if rows[k].username == username && !rows[k].blacklisted then rows[k].(blacklisted := true) else rows[k])
  }

  /** The table after `blacklistToken(token)`. */
  function FlagToken(rows: seq<UserToken>, token: string): (r: seq<UserToken>)
    ensures |r| == |rows|
    ensures forall k :: 0 <= k < |rows| ==>
      r[k] == (if rows[k].token == token then rows[k].(blacklisted := true) else rows[k])
  {
    seq(|rows|, k requires 0 <= k < |rows| =>
      if rows[k].token == token then rows[k].(blacklisted := true) else rows[k])
  }

  /** The rows `deleteExpiredTokens(before)` keeps. */
  predicate Unexpired(r: UserToken, before: int)
  {
    !(r.expiresAt < before)
  }

  /** After flagging a user's rows, no query at any time finds an active
   *  row for that user; every other user's rows are untouched. */
  lemma FlagUserLeavesNoActive(rows: seq<UserToken>, username: string, now: int)
    ensures forall k :: 0 <= k < |rows| ==> !ActiveFor(FlagUser(rows, username)[k], username, now)
    ensures forall k :: 0 <= k < |rows| && rows[k].username != username ==> FlagUser(rows, username)[k] == rows[k]
  {
  }

  /** Flagging a token twice is flagging it once. */
  lemma FlagTokenIdempotent(rows: seq<UserToken>, token: string)
    ensures FlagToken(FlagToken(rows, token), token) == FlagToken(rows, token)
  {
  }

  class UserTokenRepo {
    var rows: seq<UserToken>

    constructor ()
      ensures rows == []
    {
      rows := [];
    }

    /** `findByToken`: the first row holding `token`. */
    function FindByToken(token: string): (r: Option<UserToken>)
      reads this
      ensures r.Some? <==> exists k :: 0 <= k < |rows| && rows[k].token == token
      ensures r.Some? ==> r.value in rows && r.value.token == token
    {
      var i := IndexOfToken(rows, token);
      if i < |rows| then Some(rows[i]) else None
    }

    /** `findActiveTokensByUsername(username, now)`. */
    function FindActiveTokensByUsername(username: string, now: int): (r: seq<UserToken>)
      reads this
      ensures forall t :: t in r <==> t in rows && ActiveFor(t, username, now)
    {
      Filter(rows, (t: UserToken) => ActiveFor(t, username, now))
    }

    /** `save` of a new row. */
    method Insert(row: UserToken)
      modifies this
      ensures rows == old(rows) + [row]
    {
      rows := rows + [row];
    }

    /** `save` of the row at `i`, changed. */
    method Update(i: nat, row: UserToken)
      requires i < |rows|
      modifies this
      ensures rows == old(rows)[i := row]
    {
      rows := rows[i := row];
    }

    /** `blacklistAllTokensForUser(username)`. */
    method BlacklistAllTokensForUser(username: string)
      modifies this
      ensures rows == FlagUser(old(rows), username)
      ensures forall now :: FindActiveTokensByUsername(username, now) == []
    {
      rows := FlagUser(rows, username);
      forall now
        ensures FindActiveTokensByUsername(username, now) == []
      {
        EmptyIffNoMember(FindActiveTokensByUsername(username, now));
      }
    }

    /** `blacklistToken(token)`: every row holding the token. */
    method BlacklistToken(token: string)
      modifies this
      ensures rows == FlagToken(old(rows), token)
    {
      rows := FlagToken(rows, token);
    }

    /** `deleteExpiredTokens(before)`: rows expiring strictly before
     *  `before` go; a row expiring exactly then stays. */
    method DeleteExpiredTokens(before: int)
      modifies this
      ensures rows == Filter(old(rows), (t: UserToken) => Unexpired(t, before))
      ensures forall t :: t in rows <==> t in old(rows) && t.expiresAt >= before
    {
      rows := Filter(rows, (t: UserToken) => Unexpired(t, before));
    }
  }
}
