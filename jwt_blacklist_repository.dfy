/**
 * The JWT blacklist table (`JwtBlacklist` rows behind
 * `JwtBlacklistRepository.java`): an insertion-ordered list of entries in
 * which the same token may appear more than once.
 */
module JwtBlacklistRepository {
  import opened Common

  datatype BlacklistEntry = BlacklistEntry(token: string, userId: Option<int>, reason: Option<string>,
                                           blacklistedAt: int, expiresAt: int)

  predicate Expired(e: BlacklistEntry, now: int)
  {
    e.expiresAt < now
  }

  function Survivors(entries: seq<BlacklistEntry>, now: int): (r: seq<BlacklistEntry>)
    ensures forall e :: e in r <==> e in entries && !Expired(e, now)
    ensures |r| + CountIf(entries, (e: BlacklistEntry) => Expired(e, now)) == |entries|
  {
    CountIfSplit(entries, (e: BlacklistEntry) => Expired(e, now), (e: BlacklistEntry) => !Expired(e, now));
    Filter(entries, (e: BlacklistEntry) => !Expired(e, now))
  }

  /** An entry expiring at `now` or later survives a cleanup at `now`. */
  lemma CleanupKeepsLive(entries: seq<BlacklistEntry>, e: BlacklistEntry, now: int)
    requires e in entries && e.expiresAt >= now
    ensures e in Survivors(entries, now)
  {
  }

  /** Once every entry for a token has expired, a cleanup leaves none. */
  lemma CleanupForgetsExpiredToken(entries: seq<BlacklistEntry>, token: string, now: int)
    requires forall e :: e in entries && e.token == token ==> Expired(e, now)
    ensures forall e :: e in Survivors(entries, now) ==> e.token != token
  {
  }

  class JwtBlacklistRepo {
    var entries: seq<BlacklistEntry>

    constructor ()
      ensures entries == []
    {
      entries := [];
    }

    /** `existsByToken`. */
    predicate ExistsByToken(token: string)
      reads this
    {
      exists k :: 0 <= k < |entries| && entries[k].token == token
    }

    /** `findAllByUserId`. */
    function FindAllByUserId(userId: int): (r: seq<BlacklistEntry>)
      reads this
      ensures forall e :: e in r <==> e in entries && e.userId == Some(userId)
    {
      Filter(entries, (e: BlacklistEntry) => e.userId == Some(userId))
    }

    /** `save` of a new entry. */
    method Save(entry: BlacklistEntry)
      modifies this
      ensures entries == old(entries) + [entry]
      ensures ExistsByToken(entry.token)
    {
      entries := entries + [entry];
      assert entries[|entries| - 1] == entry;
    }

    /** `deleteExpiredTokens(now)`: the entries expiring strictly before
     *  `now` go, and their number is returned. */
    method DeleteExpiredTokens(now: int) returns (count: nat)
      modifies this
      ensures entries == Survivors(old(entries), now)
      ensures count == CountIf(old(entries), (e: BlacklistEntry) => Expired(e, now))
      ensures count == |old(entries)| - |entries|
    {
      count := CountIf(entries, (e: BlacklistEntry) => Expired(e, now));
      entries := Survivors(entries, now);
    }
  }
}
