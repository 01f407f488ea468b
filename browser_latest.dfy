/**
 * `findLatestDrawNo` of main.js: the browser keeps the latest round in
 * `localStorage` under `lotto_latest_draw` for six hours and otherwise runs
 * the shared search.
 *
 * The stored JSON text is modelled by what `JSON.parse` makes of it.
 */
module BrowserLatest {
  import opened Wrappers
  import opened Resolver

  const CACHE_TTL_MS: int := 6 * 60 * 60 * 1000

  /** What `JSON.parse` yields for the stored text. */
  datatype Saved =
    | Record(drawNo: int, timestamp: Option<int>)  // an object; a missing timestamp compares as NaN
    | NullJson                                      // `null` or another falsy value
    | Malformed                                     // `JSON.parse` throws

  /** The `lotto_latest_draw` slot of `localStorage`; `None` when nothing (or an empty string) is stored. */
  class BrowserStorage {
    var item: Option<Saved>

    constructor ()
      ensures item == None
    {
      item := None;
    }
  }

  /** The stored round when the stored record is younger than the TTL at `now`. */
  function CachedDrawNo(item: Option<Saved>, now: int): (r: Option<int>)
    ensures r.Some? <==>
      item.Some? && item.value.Record? && item.value.timestamp.Some?
      && now - item.value.timestamp.value < CACHE_TTL_MS
    ensures r.Some? ==> r.value == item.value.drawNo
  {
    match item
    case Some(Record(drawNo, Some(stamp))) =>
      if now - stamp < CACHE_TTL_MS then Some(drawNo) else None
    case _ => None
  }

  /**
   * A fresh stored round is returned with no query and the storage untouched;
   * otherwise the search runs from the estimate for `now` and its result is
   * stored stamped with `now`.
   */
  method FindLatestDrawNo(storage: BrowserStorage, accepted: int -> bool, now: int)
      returns (drawNo: int, queried: seq<int>)
    modifies storage
    ensures CachedDrawNo(old(storage.item), now).Some? ==>
      drawNo == CachedDrawNo(old(storage.item), now).value
      && queried == []
      && storage.item == old(storage.item)
    ensures CachedDrawNo(old(storage.item), now).None? ==>
      Resolution(drawNo, queried) == Resolve(accepted, Estimate(now))
      && storage.item == Some(Record(drawNo, Some(now)))
  {
    match storage.item {
      case Some(Malformed) =>
        storage.item := None;
      case Some(Record(d, Some(stamp))) =>
        if now - stamp < CACHE_TTL_MS {
          return d, [];
        }
      case _ =>
    }
    drawNo, queried := Search(accepted, Estimate(now));
    storage.item := Some(Record(drawNo, Some(now)));
  }

  /**
   * A round stored at `stamp` is reused exactly while less than six hours
   * have passed: at six hours on the dot it is stale.
   */
  lemma StoredRoundReused(drawNo: int, stamp: int, now: int)
    ensures CachedDrawNo(Some(Record(drawNo, Some(stamp))), now) == Some(drawNo)
      <==> now - stamp < CACHE_TTL_MS
    ensures CachedDrawNo(Some(Record(drawNo, Some(stamp))), stamp + CACHE_TTL_MS).None?
  {
  }

  /**
   * A first visit and a reload within six hours: the reload returns the first
   * visit's round and queries nothing. Against a source whose latest round is
   * `m`, with the estimate in the search's window, that round is `m`.
   */
  method VisitThenReload(accepted: int -> bool, now: int, later: int)
      returns (first: int, second: int, queriedLater: seq<int>)
    requires now <= later < now + CACHE_TTL_MS
    ensures second == first && queriedLater == []
    ensures first >= 1
    ensures forall m :: (LatestIs(accepted, m) && m >= 1
      && m - 31 <= Estimate(now) <= m + 20 && Estimate(now) + SLACK >= 1) ==> first == m
  {
    var storage := new BrowserStorage();
    var q;
    first, q := FindLatestDrawNo(storage, accepted, now);
    ResolveFacts(accepted, Estimate(now));
    forall m | LatestIs(accepted, m) && m >= 1
      && m - 31 <= Estimate(now) <= m + 20 && Estimate(now) + SLACK >= 1
      ensures first == m
    {
      ResolveFindsLatest(accepted, m, Estimate(now));
    }
    second, queriedLater := FindLatestDrawNo(storage, accepted, later);
  }
}
