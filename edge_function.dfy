/**
 * `findLatestDrawNo` of functions/api/lotto.js: the Cloudflare function keeps
 * the latest round as the text body of a cached response under
 * `https://cache.local/latest-draw-no`, writes it with `String(left)` and
 * reads it back with `Number(text)`.
 *
 * The cache is modelled as a map from request URL to body text.
 */
module EdgeLatest {
  import opened Decimal
  import opened Resolver

  const LATEST_KEY: string := "https://cache.local/latest-draw-no"
  const CACHE_TTL_MS: int := 60 * 60 * 1000
  /** The `max-age` of the cached response, in seconds. */
  const MAX_AGE_SECONDS: int := CACHE_TTL_MS / 1000

  class EdgeCache {
    var bodies: map<string, string>

    /** The body under the latest-round key is what `String` makes of a round: a decimal numeral of at least 1. */
    ghost predicate Valid()
      reads this
    {
      LATEST_KEY in bodies ==>
        bodies[LATEST_KEY] != [] && IsDigits(bodies[LATEST_KEY]) && ParseDecimal(bodies[LATEST_KEY]) >= 1
    }

    constructor ()
      ensures bodies == map[] && Valid()
    {
      bodies := map[];
    }
  }

  /**
   * A cached body is read back as a number with no query and the cache
   * untouched; otherwise the search runs from the estimate for `now` and the
   * decimal text of its result is cached.
   */
  method FindLatestDrawNo(cache: EdgeCache, accepted: int -> bool, now: int)
      returns (drawNo: int, queried: seq<int>)
    requires cache.Valid()
    modifies cache
    ensures cache.Valid() && drawNo >= 1
    ensures LATEST_KEY in old(cache.bodies) ==>
      drawNo == ParseDecimal(old(cache.bodies)[LATEST_KEY])
      && queried == [] && cache.bodies == old(cache.bodies)
    ensures LATEST_KEY !in old(cache.bodies) ==>
      Resolution(drawNo, queried) == Resolve(accepted, Estimate(now))
      && drawNo >= 1
      && cache.bodies == old(cache.bodies)[LATEST_KEY := ToDecimal(drawNo)]
  {
    if LATEST_KEY in cache.bodies {
      return ParseDecimal(cache.bodies[LATEST_KEY]), [];
    }
    drawNo, queried := Search(accepted, Estimate(now));
    ResolveFacts(accepted, Estimate(now));
    ParseToDecimal(drawNo);
    cache.bodies := cache.bodies[LATEST_KEY := ToDecimal(drawNo)];
  }

  /**
   * Two requests for the latest round against an empty cache, the second
   * while the cached response is younger than its `max-age`: the second
   * reads back exactly the round the first resolved, with no query, because
   * `Number(String(n)) == n`.
   */
  method RequestTwice(accepted: int -> bool, now: int, later: int)
      returns (first: int, second: int, queriedLater: seq<int>)
    requires now <= later < now + MAX_AGE_SECONDS * 1000
    ensures second == first && queriedLater == []
    ensures first >= 1
    ensures forall m :: (LatestIs(accepted, m) && m >= 1
      && m - 31 <= Estimate(now) <= m + 20 && Estimate(now) + SLACK >= 1) ==> first == m
  {
    var cache := new EdgeCache();
    var q;
    first, q := FindLatestDrawNo(cache, accepted, now);
    forall m | LatestIs(accepted, m) && m >= 1
      && m - 31 <= Estimate(now) <= m + 20 && Estimate(now) + SLACK >= 1
      ensures first == m
    {
      ResolveFindsLatest(accepted, m, Estimate(now));
    }
    ParseToDecimal(first);
    second, queriedLater := FindLatestDrawNo(cache, accepted, later);
  }
}
