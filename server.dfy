/**
 * The Express server of server.js: a module-level `Map` used as a cache
 * whose entries expire on read after one hour, and the server's copy of
 * `findLatestDrawNo`, which keeps the latest round under `latest-draw-no`.
 *
 * `Date.now()` is the parameter `now` of each call; the network is the
 * oracle `accepted` of the shared search.
 */
module ApiServer {
  import opened Wrappers
  import opened Resolver

  const CACHE_TTL_MS: int := 60 * 60 * 1000
  const LATEST_KEY: string := "latest-draw-no"

  /** `{ value, timestamp }` as `cacheSet` stores it. */
  datatype Entry = Entry(value: int, timestamp: int)

  /**
   * What `cacheGet` returns: nothing for a missing key or an entry more than
   * the TTL old; an entry exactly the TTL old is still served.
   */
  function Lookup(cache: map<string, Entry>, key: string, now: int): (r: Option<int>)
    ensures r.Some? <==> key in cache && now - cache[key].timestamp <= CACHE_TTL_MS
    ensures r.Some? ==> r.value == cache[key].value
  {
    if key !in cache then None
    else if now - cache[key].timestamp > CACHE_TTL_MS then None
    else Some(cache[key].value)
  }

  class LottoServer {
    var cache: map<string, Entry>

    /** The only writer of `latest-draw-no` stores a resolved round, which is at least 1. */
    ghost predicate Valid()
      reads this
    {
      LATEST_KEY in cache ==> cache[LATEST_KEY].value >= 1
    }

    constructor ()
      ensures cache == map[] && Valid()
    {
      cache := map[];
    }

    /** `cacheGet`: an expired entry is deleted as it is read; nothing else changes. */
    method CacheGet(key: string, now: int) returns (r: Option<int>)
      modifies this
      ensures r == Lookup(old(cache), key, now)
      ensures key in old(cache) && now - old(cache)[key].timestamp > CACHE_TTL_MS ==>
        cache == old(cache) - {key}
      ensures !(key in old(cache) && now - old(cache)[key].timestamp > CACHE_TTL_MS) ==>
        cache == old(cache)
    {
      if key !in cache {
        return None;
      }
      var entry := cache[key];
      if now - entry.timestamp > CACHE_TTL_MS {
        cache := cache - {key};
        return None;
      }
      return Some(entry.value);
    }

    /** `cacheSet`: only `key` changes, stamped with `now`. */
    method CacheSet(key: string, value: int, now: int)
      modifies this
      ensures cache == old(cache)[key := Entry(value, now)]
      ensures Lookup(cache, key, now) == Some(value)
      ensures forall k :: k != key ==> Lookup(cache, k, now) == Lookup(old(cache), k, now)
    {
      cache := cache[key := Entry(value, now)];
    }

    /**
     * The server's `findLatestDrawNo`. A cached round that is truthy (not 0)
     * is returned with no query and the cache unchanged; otherwise the search
     * runs from the estimate for `now` and its result replaces the entry.
     */
    method FindLatestDrawNo(accepted: int -> bool, now: int) returns (drawNo: int, queried: seq<int>)
      modifies this
      ensures var hit := Lookup(old(cache), LATEST_KEY, now);
        hit.Some? && hit.value != 0 ==>
          drawNo == hit.value && queried == [] && cache == old(cache)
      ensures var hit := Lookup(old(cache), LATEST_KEY, now);
        !(hit.Some? && hit.value != 0) ==>
          Resolution(drawNo, queried) == Resolve(accepted, Estimate(now))
          && cache == old(cache)[LATEST_KEY := Entry(drawNo, now)]
      ensures old(Valid()) ==> Valid() && drawNo >= 1
    {
      var cached := CacheGet(LATEST_KEY, now);
      if cached.Some? && cached.value != 0 {
        return cached.value, [];
      }
      drawNo, queried := Search(accepted, Estimate(now));
      ResolveFacts(accepted, Estimate(now));
      CacheSet(LATEST_KEY, drawNo, now);
    }
  }

  /**
   * After `cacheSet(key, value)` at time `t`, reading `key` at `now` yields
   * `value` exactly while at most the TTL has passed, and every other key
   * reads as before.
   */
  lemma LookupAfterSet(cache: map<string, Entry>, key: string, other: string, value: int, t: int, now: int)
    requires other != key
    ensures Lookup(cache[key := Entry(value, t)], key, now) == Some(value) <==> now - t <= CACHE_TTL_MS
    ensures Lookup(cache[key := Entry(value, t)], key, now).None? <==> now - t > CACHE_TTL_MS
    ensures Lookup(cache[key := Entry(value, t)], other, now) == Lookup(cache, other, now)
  {
  }

  /** Staleness is strict: an entry exactly one hour old is served, one a millisecond older is not. */
  lemma StalenessBoundary(cache: map<string, Entry>, key: string)
    requires key in cache
    ensures Lookup(cache, key, cache[key].timestamp + CACHE_TTL_MS) == Some(cache[key].value)
    ensures Lookup(cache, key, cache[key].timestamp + CACHE_TTL_MS + 1) == None
  {
  }

  /**
   * Two requests for the latest round on a freshly started server, the second
   * at most one hour after the first (the boundary included): the second is
   * answered from the cache with the first's round and no query, and against
   * a source whose latest round is `m`, with the estimate in the search's
   * window, that round is `m`.
   */
  method RequestTwice(accepted: int -> bool, now: int, later: int)
      returns (first: int, second: int, queriedLater: seq<int>)
    requires now <= later <= now + CACHE_TTL_MS
    ensures second == first && queriedLater == []
    ensures first >= 1
    ensures forall m :: (LatestIs(accepted, m) && m >= 1
      && m - 31 <= Estimate(now) <= m + 20 && Estimate(now) + SLACK >= 1) ==> first == m
  {
    var server := new LottoServer();
    var q;
    first, q := server.FindLatestDrawNo(accepted, now);
    forall m | LatestIs(accepted, m) && m >= 1
      && m - 31 <= Estimate(now) <= m + 20 && Estimate(now) + SLACK >= 1
      ensures first == m
    {
      ResolveFindsLatest(accepted, m, Estimate(now));
    }
    second, queriedLater := server.FindLatestDrawNo(accepted, later);
  }
}
