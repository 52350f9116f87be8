/**
 * The session endpoints under /api/tokens (`TokenController.java`). The
 * signed-in username is a parameter (it comes from the security context),
 * and so is the clock `now`. A thrown exception becomes the 500 reply the
 * global exception handler builds.
 */
module TokenController {
  import opened Common
  import opened UserTokenRepository
  import opened TokenService

  const REDACTED := "[REDACTED]"
  const INVALID_HEADER := "Invalid authorization header"
  const OTHERS_INVALIDATED := "All other sessions have been invalidated"

  /** The table after `blacklistToken` of each token in turn. */
  function FlagTokens(rows: seq<UserToken>, tokens: seq<string>): (r: seq<UserToken>)
    ensures |r| == |rows|
    decreases |tokens|
  {
    if tokens == [] then rows
    else FlagToken(FlagTokens(rows, tokens[..|tokens| - 1]), tokens[|tokens| - 1])
  }

  /** Flagging a list of tokens flags exactly the rows holding one of
   *  them, whatever the order. */
  lemma {:induction false} FlagTokensAt(rows: seq<UserToken>, tokens: seq<string>)
    ensures forall k :: 0 <= k < |rows| ==>
      FlagTokens(rows, tokens)[k] == (if rows[k].token in tokens then rows[k].(blacklisted := true) else rows[k])
    decreases |tokens|
  {
    if tokens != [] {
      var init := tokens[..|tokens| - 1];
      FlagTokensAt(rows, init);
      assert forall x :: x in tokens <==> x in init || x == tokens[|tokens| - 1] by {
        assert tokens == init + [tokens[|tokens| - 1]];
      }
    }
  }

  /** The token values of `sessions` other than `current`, in order: the
   *  ones the invalidate loop hands to `blacklistToken`. */
  function Others(sessions: seq<UserToken>, current: string): (r: seq<string>)
    decreases |sessions|
  {
    if sessions == [] then []
    else
      var last := sessions[|sessions| - 1];
      Others(sessions[..|sessions| - 1], current) + (if last.token != current then [last.token] else [])
  }

  /** The tokens handed over are exactly those of the sessions that differ
   *  from `current`. */
  lemma {:induction false} OthersMembers(sessions: seq<UserToken>, current: string)
    ensures forall x :: x in Others(sessions, current) <==> x != current && exists t :: t in sessions && t.token == x
    decreases |sessions|
  {
    if sessions != [] {
      var last := sessions[|sessions| - 1];
      var init := sessions[..|sessions| - 1];
      OthersMembers(init, current);
      assert forall t :: t in sessions <==> t in init || t == last by {
        assert sessions == init + [last];
      }
    }
  }

  /** One more session seen by the invalidate loop. */
  lemma OthersStep(sessions: seq<UserToken>, i: nat, current: string)
    requires i < |sessions|
    ensures Others(sessions[..i + 1], current) ==
      Others(sessions[..i], current) + (if sessions[i].token != current then [sessions[i].token] else [])
  {
    assert sessions[..i + 1][..i] == sessions[..i];
  }

  /** One more token flagged. */
  lemma FlagTokensStep(rows: seq<UserToken>, tokens: seq<string>, token: string)
    ensures FlagTokens(rows, tokens + [token]) == FlagToken(FlagTokens(rows, tokens), token)
  {
    assert (tokens + [token])[..|tokens|] == tokens;
  }

  /** Every token handed over is long enough for the service's log line
   *  (`substring(0, 10)`). */
  predicate LongEnough(tokens: seq<string>)
    decreases |tokens|
  {
    tokens == [] || (LongEnough(tokens[..|tokens| - 1]) && |tokens[|tokens| - 1]| >= 10)
  }

  lemma LongEnoughStep(tokens: seq<string>, token: string)
    ensures LongEnough(tokens + [token]) <==> LongEnough(tokens) && |token| >= 10
  {
    assert (tokens + [token])[..|tokens|] == tokens;
  }

  /** `LongEnough` is the length test on every member. */
  lemma {:induction false} LongEnoughIff(tokens: seq<string>)
    ensures LongEnough(tokens) <==> forall x :: x in tokens ==> |x| >= 10
    decreases |tokens|
  {
    if tokens != [] {
      var init := tokens[..|tokens| - 1];
      LongEnoughIff(init);
      assert tokens == init + [tokens[|tokens| - 1]];
    }
  }

  /** One short token spoils the whole list. */
  lemma {:induction false} ShortSpoils(tokens: seq<string>, x: string)
    requires x in tokens && |x| < 10
    ensures !LongEnough(tokens)
    decreases |tokens|
  {
    var init := tokens[..|tokens| - 1];
    if x != tokens[|tokens| - 1] {
      assert tokens == init + [tokens[|tokens| - 1]];
      ShortSpoils(init, x);
    }
  }

  /** A session whose token differs from `current` is handed over. */
  lemma SessionAmongOthers(sessions: seq<UserToken>, i: nat, current: string)
    requires i < |sessions| && sessions[i].token != current
    ensures sessions[i].token in Others(sessions, current)
  {
    OthersMembers(sessions, current);
    assert sessions[i] in sessions;
  }

  /** Once every active token of a user other than `current` is flagged,
   *  the only active rows left for that user hold `current`, and rows
   *  holding `current` are as they were. */
  lemma {:induction false} OnlyCurrentStaysActive(rows: seq<UserToken>, username: string, now: int, current: string)
    ensures var active := Filter(rows, (t: UserToken) => ActiveFor(t, username, now));
      var after := FlagTokens(rows, Others(active, current));
      && (forall k :: 0 <= k < |rows| && ActiveFor(after[k], username, now) ==> after[k].token == current)
      && (forall k :: 0 <= k < |rows| && rows[k].token == current ==> after[k] == rows[k])
  {
    var active := Filter(rows, (t: UserToken) => ActiveFor(t, username, now));
    var others := Others(active, current);
    var after := FlagTokens(rows, others);
    FlagTokensAt(rows, others);
    OthersMembers(active, current);
    forall k | 0 <= k < |rows| && ActiveFor(after[k], username, now)
      ensures after[k].token == current
    {
      assert after[k] == rows[k];
      assert rows[k] in rows;
      assert rows[k] in active;
    }
  }

  /** `getMyActiveSessions`: the user's active sessions with every token
   *  value replaced by "[REDACTED]". */
  method Redact(sessions: seq<UserToken>) returns (shown: seq<UserToken>)
    ensures |shown| == |sessions|
    ensures forall k :: 0 <= k < |sessions| ==> shown[k] == sessions[k].(token := REDACTED)
  {
    shown := [];
    var i := 0;
    while i < |sessions|
      invariant 0 <= i <= |sessions|
      invariant |shown| == i
      invariant forall k :: 0 <= k < i ==> shown[k] == sessions[k].(token := REDACTED)
    {
      shown := shown + [sessions[i].(token := REDACTED)];
      i := i + 1;
    }
  }

  /** No session listed by my-sessions shows a token value. */
  lemma RedactionHidesTokens(sessions: seq<UserToken>, shown: seq<UserToken>)
    requires |shown| == |sessions|
    requires forall k :: 0 <= k < |sessions| ==> shown[k] == sessions[k].(token := REDACTED)
    ensures forall t :: t in shown ==> t.token == REDACTED
  {
  }

  class TokenControllerImpl {
    const tokenService: TokenServiceImpl

    constructor (service: TokenServiceImpl)
      ensures tokenService == service
    {
      tokenService := service;
    }

    /** `getMyActiveSessions`. */
    method GetMyActiveSessions(username: string, now: int) returns (shown: seq<UserToken>)
      ensures var active := tokenService.GetActiveTokensForUser(username, now);
        |shown| == |active| && forall k :: 0 <= k < |active| ==> shown[k] == active[k].(token := REDACTED)
    {
      var active := tokenService.GetActiveTokensForUser(username, now);
      shown := Redact(active);
    }

    /** `invalidateOtherSessions`: a request with no Authorization header
     *  carries no token, so the security chain refuses it with 401 before
     *  the handler runs, and nothing changes. With a header that does not
     *  start with "Bearer " the reply is 400 and nothing changes. Otherwise
     *  each active token of the user other than the current one is
     *  blacklisted in turn; a token too short for the service's log line
     *  throws, which stops the loop; the exception leaves the handler and
     *  the catch-all handler answers 500, with the earlier tokens already
     *  flagged. */
    method InvalidateOtherSessions(authHeader: Option<string>, username: string, now: int)
      returns (status: int, message: string)
      modifies tokenService.repo
      ensures authHeader.None? ==>
        status == 401 && tokenService.repo.rows == old(tokenService.repo.rows)
      ensures authHeader.Some? && BearerToken(authHeader).None? ==>
        status == 400 && message == INVALID_HEADER && tokenService.repo.rows == old(tokenService.repo.rows)
      ensures BearerToken(authHeader).Some? ==>
        var others := Others(old(tokenService.GetActiveTokensForUser(username, now)), BearerToken(authHeader).value);
        && (status == 200 <==> LongEnough(others))
        && (status == 200 ==>
              message == OTHERS_INVALIDATED
              && tokenService.repo.rows == FlagTokens(old(tokenService.repo.rows), others))
      ensures BearerToken(authHeader).Some? && status != 200 ==>
        var active := old(tokenService.GetActiveTokensForUser(username, now));
        && status == 500 && message == UNEXPECTED_ERROR
        && exists i :: 0 <= i <= |active| && tokenService.repo.rows ==
             FlagTokens(old(tokenService.repo.rows), Others(active[..i], BearerToken(authHeader).value))
    {
      if authHeader.None? {
        return 401, "";
      }
      var header := BearerToken(authHeader);
      if header.None? {
        return 400, INVALID_HEADER;
      }
      var active := tokenService.GetActiveTokensForUser(username, now);
      var failure := BlacklistOthers(active, header.value);
      if failure.Some? {
        return 500, UNEXPECTED_ERROR;
      }
      status, message := 200, OTHERS_INVALIDATED;
    }

    /** The loop of `invalidateOtherSessions`: `failure` is the message of
     *  the exception that stopped it, if one did. */
    method BlacklistOthers(active: seq<UserToken>, current: string) returns (failure: Option<string>)
      modifies tokenService.repo
      ensures failure.None? <==> LongEnough(Others(active, current))
      ensures failure.None? ==> tokenService.repo.rows == FlagTokens(old(tokenService.repo.rows), Others(active, current))
      ensures failure.Some? ==>
        exists i :: 0 <= i <= |active|
          && tokenService.repo.rows == FlagTokens(old(tokenService.repo.rows), Others(active[..i], current))
    {
      ghost var rows0 := tokenService.repo.rows;
      var i := 0;
      while i < |active|
        invariant 0 <= i <= |active|
        invariant tokenService.repo.rows == FlagTokens(rows0, Others(active[..i], current))
        invariant LongEnough(Others(active[..i], current))
      {
        ghost var done := Others(active[..i], current);
        OthersStep(active, i, current);
        if active[i].token != current {
          var token := active[i].token;
          assert Others(active[..i + 1], current) == done + [token];
          LongEnoughStep(done, token);
          FlagTokensStep(rows0, done, token);
          var outcome := tokenService.BlacklistToken(token);
          if outcome.Err? {
            SessionAmongOthers(active, i, current);
            ShortSpoils(Others(active, current), token);
            assert tokenService.repo.rows == FlagTokens(rows0, Others(active[..i], current));
            return Some(outcome.error);
          }
          assert tokenService.repo.rows == FlagTokens(rows0, done + [token]);
          assert |token| >= 10;
        } else {
          assert Others(active[..i + 1], current) == done;
        }
        i := i + 1;
      }
      assert active[..i] == active;
      failure := None;
    }

    /** `invalidateSessionsForUser`: every token of the named user is
     *  blacklisted. */
    method InvalidateSessionsForUser(username: string) returns (message: string)
      modifies tokenService.repo
      ensures tokenService.repo.rows == FlagUser(old(tokenService.repo.rows), username)
      ensures message == "All sessions for user " + username + " have been invalidated"
    {
      tokenService.BlacklistAllUserTokens(username);
      message := "All sessions for user " + username + " have been invalidated";
    }

    /** `runTokenCleanup`. */
    method RunTokenCleanup(now: int) returns (message: string)
      modifies tokenService.repo
      ensures forall t :: t in tokenService.repo.rows <==> t in old(tokenService.repo.rows) && t.expiresAt >= now
      ensures message == "Token cleanup completed"
    {
      tokenService.CleanupExpiredTokens(now);
      message := "Token cleanup completed";
    }
  }
}
