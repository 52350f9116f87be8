/**
 * The blacklist service (`JwtBlacklistServiceImpl.java`) over the
 * blacklist table. The clock is the parameter `now`.
 */
module JwtBlacklistService {
  import opened Common
  import opened JwtBlacklistRepository

  /** The user fields the service reads: its id, if it has one. */
  datatype UserRef = UserRef(id: Option<int>, username: string)

  class JwtBlacklistServiceImpl {
    const repo: JwtBlacklistRepo

    constructor (r: JwtBlacklistRepo)
      ensures repo == r
    {
      repo := r;
    }

    /** `blacklistToken(token, expiresAt)`: always a new entry, even for a
     *  token already listed. */
    method BlacklistToken(token: string, expiresAt: int, now: int) returns (entry: BlacklistEntry)
      modifies repo
      ensures entry == BlacklistEntry(token, None, None, now, expiresAt)
      ensures repo.entries == old(repo.entries) + [entry]
      ensures IsTokenBlacklisted(token)
    {
      entry := BlacklistEntry(token, None, None, now, expiresAt);
      repo.Save(entry);
    }

    /** `blacklistToken(token, user, reason, expiresAt)`. */
    method BlacklistTokenFor(token: string, user: UserRef, reason: string, expiresAt: int, now: int)
      returns (entry: BlacklistEntry)
      modifies repo
      ensures entry == BlacklistEntry(token, user.id, Some(reason), now, expiresAt)
      ensures repo.entries == old(repo.entries) + [entry]
      ensures IsTokenBlacklisted(token)
    {
      entry := BlacklistEntry(token, user.id, Some(reason), now, expiresAt);
      repo.Save(entry);
    }

    /** `isTokenBlacklisted`. */
    predicate IsTokenBlacklisted(token: string)
      reads repo
    {
      repo.ExistsByToken(token)
    }

    /** `getBlacklistedTokensForUser(user)`: nothing for a missing user or
     *  one without an id. */
    function GetBlacklistedTokensForUser(user: Option<UserRef>): (r: seq<BlacklistEntry>)
      reads repo
      ensures user.None? || user.value.id.None? ==> r == []
      ensures user.Some? && user.value.id.Some? ==>
        forall e :: e in r <==> e in repo.entries && e.userId == user.value.id
    {
      if user.None? || user.value.id.None? then [] else repo.FindAllByUserId(user.value.id.value)
    }

    /** `cleanupExpiredTokens`: the number of entries removed. */
    method CleanupExpiredTokens(now: int) returns (count: nat)
      modifies repo
      ensures repo.entries == Survivors(old(repo.entries), now)
      ensures count == |old(repo.entries)| - |repo.entries|
    {
      count := repo.DeleteExpiredTokens(now);
    }
  }

  /** Whatever the table held before, a token blacklisted with expiry
   *  `expiresAt` stays blacklisted across any cleanup at a time up to
   *  `expiresAt`. */
  method StaysListedUntilExpiry(prior: seq<BlacklistEntry>, token: string, expiresAt: int, now: int, cleanupAt: int)
    returns (listed: bool)
    requires cleanupAt <= expiresAt
    ensures listed
  {
    var repo := new JwtBlacklistRepo();
    repo.entries := prior;
    var service := new JwtBlacklistServiceImpl(repo);
    var entry := service.BlacklistToken(token, expiresAt, now);
    var _ := service.CleanupExpiredTokens(cleanupAt);
    CleanupKeepsLive(prior + [entry], entry, cleanupAt);
    var k :| 0 <= k < |repo.entries| && repo.entries[k] == entry;
    listed := service.IsTokenBlacklisted(token);
  }
}
