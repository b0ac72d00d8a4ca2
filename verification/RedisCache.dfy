/** `ReportCacheDb` over the one Redis instance, whose hashes it changes in place. */
module RedisCache {
  import opened Wrappers
  import opened Decimal
  import opened Reports
  import opened ReportCache

  class Redis {
    var hashes: Cache

    constructor ()
      ensures hashes == map[]
    {
      hashes := map[];
    }
  }

  class ReportCacheDb {
    const rdb: Redis

    constructor (rdb: Redis)
      ensures this.rdb == rdb
    {
      this.rdb := rdb;
    }

    /** `None` stands for a nil map: a miss, or an unreadable entry, which the caller treats alike. */
    method GetUserExpences(user: int, cutoff: int) returns (rv: Option<Report>)
      ensures rv == Lookup(rdb.hashes, user, cutoff)
    {
      hide FormatInt, ParseInt;
      var key := FormatInt(user) + FormatInt(cutoff);
      var h: Hash := if key in rdb.hashes then rdb.hashes[key] else map[];
      if h == map[] {
        return None;
      }
      var totals: Report := map[];
      var left := h.Keys;
      while exists name :: name in left
        invariant left <= h.Keys && totals.Keys == h.Keys - left
        invariant forall name :: name in totals ==> ParseInt(h[name]) == Some(totals[name])
        decreases left
      {
        var name :| name in left;
        var total := ParseInt(h[name]);
        if total.None? {
          return None;
        }
        totals := totals[name := total.value];
        left := left - {name};
      }
      assert totals.Keys == h.Keys;
      assert totals == map name | name in h :: ParseInt(h[name]).value;
      return Some(totals);
    }

    /** Redis refuses a hash write without fields; the entry then stays as it was. */
    method SetUserExpences(user: int, expences: Hash, cutoff: int) returns (ok: bool)
      modifies rdb
      ensures rdb.hashes == SetReport(old(rdb.hashes), user, cutoff, expences)
      ensures ok <==> expences != map[]
    {
      var key := FormatInt(user) + FormatInt(cutoff);
      if expences == map[] {
        return false;
      }
      rdb.hashes := rdb.hashes[key := (if key in rdb.hashes then rdb.hashes[key] else map[]) + expences];
      return true;
    }

    method DeleteUserReports(user: int)
      modifies rdb
      ensures rdb.hashes == DeleteReports(old(rdb.hashes), user)
    {
      var keys := set key | key in rdb.hashes && FormatInt(user) <= key;
      rdb.hashes := rdb.hashes - keys;
    }
  }
}
