# Lotto dashboard core, modelled in Dafny

This project models the core of a small lottery dashboard. The dashboard shows
the latest Korean Lotto 6/45 draw, analyses a window of past draws and
recommends number sets. Two build scripts also take snapshots of the Lotto
and Powerball histories. The model covers:

- **Latest-round search** (module `Resolver`). It is shared by the browser
  page, the Express server and the Cloudflare function. The estimate comes from
  the date of round 1 (2002-12-07 20:35 KST) and the week length. Up to 12
  probes go down from `estimate - 8` until a round is served. Up to 12 probes go
  up from `estimate + 8` in steps of two while rounds are served. Then up to 24
  bisection steps run. The imperative search (`Search`) is proved equal to a
  recursive specification (`Resolve`), and `Resolve` is proved to find the true
  latest round whenever the estimate lies within `[m - 31, m + 20]` and
  `estimate + 8 >= 1`. It is proved to miss the latest round just outside
  that window.
- **The three caches around the search:**
  - `BrowserLatest`: `localStorage`, six hours, strict `<`.
  - `ApiServer`: an in-memory TTL map, one hour, an entry exactly one hour old
    still served, an expired entry deleted on read.
  - `EdgeLatest`: a cached response body written by `String` and read back by
    `Number`.
  Each cache is a class holding its contents. `ApiServer.LottoServer` carries
  the get, set and lookup methods. For the other two, `FindLatestDrawNo` is a
  module-level method that takes the storage object and updates it. Each
  lookup states the cache contents it leaves behind, and a two-request
  scenario proves the second request is answered from the cache.
- **The `drawNo` route selector** (module `DrawSelector`). It is the same in
  `server.js` and `functions/api/lotto.js`: missing, `latest`, a decimal
  numeral, or rejected with status 400.
- **`fetchRange`** (module `DrawWindow`). Batches of at most 12 requests walk
  the window from `latestNo` down to `max(1, latestNo - range + 1)`. The batches
  cover each round of the window exactly once, newest first. The draws returned
  are the served ones in request order.
- **`computeStats`** (module `Statistics`). The two nested loops are proved to
  compute a declarative summary (`StatsOf`): frequencies, odd/even and
  high/low rates, and the rounded average sum. Lemmas give the frequencies'
  total, the rate bounds and the average bounds.
- **`weightedPick` and `generateRecommendation`** (module `Recommendation`).
  The weighted pick selects the first ball whose prefix weight reaches the
  target. An accepted recommendation has six distinct balls in strictly
  ascending order, holds a hot and a cold ball, and has 2 to 4 odd balls. Only
  after 120 rejected attempts does the code fall back; the
  fallback is six independent uniform balls.
- **`drawToNumbers`, `getBallColor` and `formatDate`** (module `LottoDraw`).
- **The Powerball snapshot pipeline** (module `PowerballSnapshot`):
  `parseDate`, `parseWinningNumbers` and the map/filter/sort over the fetched
  rows.
- **The Lotto snapshot scan** (module `LottoSnapshot`). Rounds are requested
  from 1 upward until two non-successes in a row. A thrown request aborts the
  scan.

Network answers are parameters of the model:

- `accepted` says whether `fetchDrawSafe(n)` yields a draw.
- `fetch` is the draw it yields.
- `respond` is the reply of the snapshot script's `fetchDraw`.

`Math.random()` is a finite stream of reals in `[0, 1)`. `Date.now()` is one
`now` value per call.

## Model

| member | source | states |
|---|---|---|
| Resolver.Estimate | main.js:161 | the estimate `e` is the 1-based week index of `now` since round 1: `(e-1)*WEEK <= now - START < e*WEEK` |
| Resolver.ProbeDownFacts | main.js:162-169 | the downward probes are `max(1, low - i)` in order. All but the last are refused. The bound is the last probe if it was served, else `max(1, low - 12)` after 12 probes. It stays in `[1, low]` |
| Resolver.ProbeUpFacts | main.js:163-175 | the upward probes are `high + 2i`. All but the last are served. The bound is the first refused probe, else `high + 24` after 12 probes |
| Resolver.BisectFacts | main.js:177-188 | bisection keeps `left < right` inside the bracket. It moves `left` only to served rounds and `right` only to refused rounds, and probes only strictly inside. It closes the gap whenever the gap is at most `2^steps` |
| Resolver.ResolveFacts | main.js:161-190 | the resolved round is at least 1 and was served, or it is the floor of the downward probe. At most 48 requests are made |
| Resolver.ScanDown | main.js:165-169 | the first loop yields exactly the bound and probe log of `ProbeDown` |
| Resolver.ScanUp | main.js:171-175 | the second loop yields exactly the bound and probe log of `ProbeUp` |
| Resolver.Narrow | main.js:177-188 | the bisection loop yields exactly `Bisect`'s left end and probe log |
| Resolver.Search | main.js:161-188 | the three loops together yield exactly `Resolve(accepted, estimate)` |
| Resolver.ResolveFindsLatest | main.js:161-188 | if the served rounds are exactly `1..m`, `m - 31 <= estimate <= m + 20` and `estimate + 8 >= 1`, the search returns `m` |
| Resolver.ProbesBracketLatest | main.js:161-175 | in that window the probes end with a served lower bound and a refused upper bound at most 52 apart |
| Resolver.BisectFindsLatest | main.js:177-188 | 24 bisection steps between a served and a refused round at most `2^24` apart land on the latest served round |
| Resolver.ResolveLatest | main.js:177-188 | the search result is the bisection of the two probe bounds |
| Resolver.ResolveOvershoots | main.js:161-188 | an estimate of `m + 21` returns the unserved round `m + 1`: the window's upper edge is sharp |
| Resolver.OvershootBracket | main.js:162-175 | for an estimate of `m + 21`, the downward probe stops at `m + 1` and the upward probe at `m + 29` |
| Resolver.OvershootBisect | main.js:177-188 | bisection of `[m+1, m+29]` keeps `m + 1` |
| Resolver.ResolveUndershoots | main.js:161-188 | an estimate of `m - 32` returns `m - 1`: the window's lower edge is sharp |
| Resolver.UndershootBracket | main.js:162-175 | for an estimate of `m - 32`, the upward probes stop at `m` |
| Resolver.UndershootBisect | main.js:177-188 | bisection of `[max(1, m-40), m]` ends at `m - 1` |
| BrowserLatest.CachedDrawNo | main.js:149-159 | a stored round is used iff the slot holds a parsed object with a timestamp younger than six hours (strict `<`); it is then that object's `drawNo` |
| BrowserLatest.FindLatestDrawNo | main.js:148-192 | a fresh stored round is returned with no request and storage untouched. Otherwise the search result is returned and stored with `now` as timestamp |
| BrowserLatest.StoredRoundReused | main.js:153 | a stored record is reused exactly while `now - stamp < 6h`, so it is stale at exactly six hours |
| BrowserLatest.VisitThenReload | main.js:148-192 | a reload within six hours returns the first visit's round with no request. That round is the latest one `m` when `m - 31 <= estimate <= m + 20` and `estimate + 8 >= 1` |
| ApiServer.Lookup | server.js:14-22 | `cacheGet` yields a value iff the key is present and at most one hour old, and the value is the stored one |
| ApiServer.LottoServer.CacheGet | server.js:14-22 | it returns `Lookup` of the old map. It deletes the key iff it is present and expired, and otherwise leaves the map unchanged |
| ApiServer.LottoServer.CacheSet | server.js:24-26 | the map gains `key -> (value, now)`. The key reads back as `value` and every other key's lookup is unchanged |
| ApiServer.LottoServer.FindLatestDrawNo | server.js:48-80 | a truthy cached round is returned with no request and the map unchanged. Otherwise the search result is cached under `latest-draw-no`. A valid cache stays valid and the result is at least 1 |
| ApiServer.LookupAfterSet | server.js:14-26 | after a set, the key reads back iff within the TTL, and other keys are unaffected |
| ApiServer.StalenessBoundary | server.js:17 | an entry exactly one hour old is served; one millisecond later it is not |
| ApiServer.RequestTwice | server.js:48-80 | a second request within the hour returns the first result with no request. That result is the latest round `m` when `m - 31 <= estimate <= m + 20` and `estimate + 8 >= 1` |
| EdgeLatest.FindLatestDrawNo | functions/api/lotto.js:26-64 | a cached body is read back with `Number` and no request. Otherwise the search result is cached as its decimal text. Either way the result is at least 1 and the cached body stays a numeral of at least 1 |
| EdgeLatest.RequestTwice | functions/api/lotto.js:26-64 | a second request within `max-age` returns the first result, because `Number(String(n)) == n`, with no request |
| Decimal.ToDecimal | functions/api/lotto.js:59 | `String(n)` of a natural number is a non-empty digit string without leading zero |
| Decimal.ParseToDecimal | functions/api/lotto.js:29-59 | reading back the written body gives the round itself |
| Decimal.LeadingZeroIgnored | functions/api/lotto.js:29 | the `Number()` model of a digit string ignores a leading `0` |
| DrawSelector.SelectRoute | server.js:84-98 | missing or empty `drawNo` maps to the missing route, `latest` to the search, and a digit string to that round. Every other text is rejected (each an iff) |
| DrawSelector.RejectStatus | server.js:86-97 | exactly the missing and invalid routes are answered with status 400 |
| DrawSelector.Acceptance | functions/api/lotto.js:69-85 | a request proceeds iff `drawNo` is `latest` or a non-empty digit string |
| DrawSelector.ZeroAndPaddedAccepted | functions/api/lotto.js:80 | `0` and `007` are accepted and passed on as written |
| DrawSelector.NonNumeralsRejected | server.js:95-97 | `-1`, `1.5` and ` 7` are rejected with 400 |
| DrawWindow.Floor | main.js:236 | the oldest round of the window is `max(1, latestNo - range + 1)` |
| DrawWindow.RequestBatch | main.js:238-242 | a batch is 1 to 12 consecutive rounds from `start` down, none below the floor. It is short only when it reaches the floor |
| DrawWindow.KeepServed | main.js:243-246 | the kept items are the served draws of the batch in batch order |
| DrawWindow.BatchStep | main.js:236-247 | one batch extends the covered rounds by the next descending run and the kept draws by its served draws |
| DrawWindow.FetchRange | main.js:233-249 | the batches, concatenated, are the window's rounds newest first, each once. Each batch has 1 to 12 rounds. The draws are the served ones in that order |
| DrawWindow.WindowBound | main.js:233-249 | at most `max(0, range)` draws come back |
| DrawWindow.RoundsInWindow | main.js:236-240 | every requested round lies in `[floor, latestNo]` |
| DrawWindow.CollectDescending | main.js:243-246 | served draws over strictly descending rounds keep that order |
| DrawWindow.WindowNewestFirst | main.js:233-249 | against a source that answers round `r` with round `r`, the draws come back strictly newest first |
| LottoDraw.DrawToNumbersFacts | main.js:85-89 | a draw's six numbers come back sorted ascending, as a permutation of its picks, all in 1..45 |
| LottoDraw.BallColor | main.js:63-69 | the colour is the palette entry for the ball's decade, the first colour at or below 10 and the last above 40 |
| LottoDraw.DashesToDotsFacts | main.js:47 | every `-` becomes `.` and nothing else changes |
| LottoDraw.FormatDate | main.js:45-48 | a missing or empty date formats as `-` |
| LottoDraw.FormatDateExample | main.js:45-48 | `2024-01-06` formats as `2024.01.06` |
| Sorting.SortNumbersAscending | main.js:88 | `sort((a, b) => a - b)` gives an ascending permutation |
| Sorting.SortDistinctNumbers | main.js:400 | sorting distinct numbers gives a strictly ascending permutation |
| Sorting.SortBySorted | scripts/build_powerball_snapshot.mjs:46 | sorting by a strict order yields a sequence sorted by it |
| Sorting.InsertSorted | scripts/build_powerball_snapshot.mjs:46 | inserting into a sorted sequence keeps it sorted |
| Statistics.ComputeStats | main.js:251-283 | the returned summary is exactly `StatsOf(draws)` |
| Statistics.Accumulate | main.js:252-269 | after the loop, slot `k` counts the occurrences of `k`, the counters are the tally of all numbers, and `sumTotal` is their sum |
| Statistics.AddNumbers | main.js:261-267 | one draw adds each number's occurrences to its slot and ticks the four counters once per number |
| Statistics.AddStep | main.js:261-267 | one more number ticks the tally once and adds one occurrence |
| Statistics.CountedAppend | main.js:259-262 | the frequency array keeps counting occurrences across draws |
| Statistics.StatsFromTotals | main.js:271-282 | the totals, guarded against an empty window, make `StatsOf(draws)` |
| Statistics.TallyCounts | main.js:263-266 | the four counters are the numbers of odd, even, high (> 22) and low (<= 22) balls |
| Statistics.CountsPartition | main.js:263-266 | odd plus even, and high plus low, each count every number once |
| Statistics.NumbersFacts | main.js:259-260 | `n` valid draws give `6n` numbers, all in 1..45 |
| Statistics.FrequencyTotal | main.js:252-262 | slot 0 stays 0 and the 46 slots sum to `totalNumbers` |
| Statistics.PercentBounds | main.js:277 | `Math.round(part / total * 100)` of a part lies in 0..100 |
| Statistics.PercentComplement | main.js:277-280 | two complementary rounded percentages sum to 100 or 101 |
| Statistics.RatesArePercentages | main.js:277-280 | all four rates lie in 0..100 |
| Statistics.ComplementaryRates | main.js:277-280 | odd+even and high+low rates each sum to 100 or 101 for a non-empty window |
| Statistics.SumBounds | main.js:268 | numbers in `[lo, hi]` sum to between `lo*n` and `hi*n` |
| Statistics.AverageSumBounds | main.js:272 | the rounded average sum of a non-empty window lies in 6..270 |
| Statistics.EmptyWindow | main.js:271-282 | an empty window yields zero everywhere, with no division by zero |
| Statistics.OccurrencesMultiset | main.js:262 | a slot's count is the multiplicity of its number |
| Statistics.FrequencyPrefixSum | main.js:252-262 | the first `hi` slots sum to the numbers below `hi` |
| Recommendation.Target | main.js:372 | `Math.random() * total` lies in `[0, total)` |
| Recommendation.PickIndexLeast | main.js:373-376 | the loop stops at the first index whose prefix weight reaches the target, or at the last index |
| Recommendation.PickIndexReaches | main.js:373-376 | for a target below the total, the chosen index's prefix interval contains the target |
| Recommendation.PickInterval | main.js:370-378 | with positive weights, the pick is ball `i` exactly when the target falls in `(prefix(i), prefix(i+1)]` |
| Recommendation.WeightedPick | main.js:370-378 | the method returns the pool entry at that index |
| Recommendation.PrefixMonotone | main.js:373-376 | positive weights make the prefix sums strictly increasing |
| Recommendation.Weights | main.js:387 | weight `k` is `max(1, frequency[k + 1])`: at least 1, at least the count, and equal to one of them |
| Recommendation.BallPool | main.js:388 | the pool is balls 1..45 in order |
| Recommendation.RankByCountFacts | main.js:382-383 | the ranking is a permutation of the 45 entries by count, descending, with ties in ball order, and each entry's count is its frequency |
| Recommendation.SortRanked | main.js:383 | the stable descending sort gives that ranking |
| Recommendation.InsertRanked | main.js:383 | inserting a higher-numbered entry keeps the ranking |
| Recommendation.HotColdPools | main.js:384-385 | hot and cold pools have 10 balls each, disjoint, and every hot ball is at least as frequent as every cold one |
| Recommendation.ScaleBounds | main.js:392-393 | `Math.floor(r * n)` is a valid index |
| Recommendation.AddToSet | main.js:392-397 | `Set.add` adds the ball, loses none and keeps distinctness |
| Recommendation.Grow | main.js:395-398 | the fill loop stops at six balls or exactly when the stream is used up |
| Recommendation.Attempt | main.js:391-398 | an attempt takes the hot ball `hot[floor(r0 * 10)]`, the cold ball `cold[floor(r1 * 10)]`, then weighted picks. It is incomplete only when the stream runs out |
| Recommendation.RejectedStep | main.js:390-404 | a complete attempt that fails the odd/even test extends the run of rejected attempts, and the next attempt starts where it stopped |
| Recommendation.AcceptedAttempt | main.js:400-403 | a complete selection passing the odd/even test, once sorted, is six strictly ascending balls in 1..45 with 2 to 4 odd balls and a hot and a cold ball |
| Recommendation.FillSelection | main.js:391-398 | the method computes exactly `Attempt`. It is incomplete only when fewer than two stream values remain. A complete selection has six distinct balls in 1..45, with a hot and a cold one |
| Recommendation.Pick | main.js:396 | one `weightedPick(pool, weights)` call on the stream value `r` yields a ball in 1..45 |
| Recommendation.HotBall | main.js:392 | `hot[floor(r * 10)]` is a ball of the hot pool |
| Recommendation.ColdBall | main.js:393 | `cold[floor(r * 10)]` is a ball of the cold pool |
| Recommendation.GrowFacts | main.js:395-398 | the fill loop loses no ball, and when it completes it holds exactly six distinct balls in 1..45 |
| Recommendation.AttemptFacts | main.js:391-398 | a complete attempt holds six distinct balls in 1..45, one of them hot and one cold |
| Recommendation.AttemptStart | main.js:390 | attempt `t` starts at the stream position where attempt `t - 1` stopped, within the stream |
| Recommendation.TryAttempts | main.js:390-404 | the attempt loop returns the first balanced attempt, sorted, with every earlier attempt rejected. It stops early only when an attempt runs out of stream. Otherwise it ends after 120 rejections |
| Recommendation.DrawFallback | main.js:406 | the fallback drawn from a stream position is `FallbackDraw` of the next six values: six balls in 1..45, ascending |
| Recommendation.SortedSelection | main.js:400 | the sorted selection is strictly ascending with the same balls |
| Recommendation.FallbackFacts | main.js:406 | the fallback is six balls in 1..45, ascending |
| Recommendation.FallbackRepeats | main.js:406 | the fallback can repeat a ball: six zero draws give six 1s |
| Recommendation.GenerateRecommendation | main.js:380-407 | every attempt before the outcome was complete and unbalanced. A balanced result is the sorted selection of attempt `tried < 120`. The fallback comes only after all 120 attempts were rejected, drawn from the six stream values that follow. Out of choices happens only when the stream is used up |
| PowerballSnapshot.ParseDate | scripts/build_powerball_snapshot.mjs:4-7 | missing or empty gives none. Otherwise the result is the first `min(10, length)` characters |
| PowerballSnapshot.NumberOf | scripts/build_powerball_snapshot.mjs:11-12 | a token is a finite number iff it is a digit string |
| PowerballSnapshot.Values | scripts/build_powerball_snapshot.mjs:11 | one value per token, in token order |
| PowerballSnapshot.ParseWinningNumbers | scripts/build_powerball_snapshot.mjs:9-14 | yields numbers iff the text is non-empty and splits into exactly six numeric tokens, which are then the six values in order |
| PowerballSnapshot.WordsOfJoin | scripts/build_powerball_snapshot.mjs:11 | splitting space-joined words gives back the words |
| PowerballSnapshot.WordsShape | scripts/build_powerball_snapshot.mjs:11 | every token is non-empty and contains no white space |
| PowerballSnapshot.WordsAbsorb | scripts/build_powerball_snapshot.mjs:11 | a space-free run joins the current token |
| PowerballSnapshot.ParseWrittenNumbers | scripts/build_powerball_snapshot.mjs:9-14 | six numbers written in decimal and space-separated parse back to themselves |
| PowerballSnapshot.KeepRowIff | scripts/build_powerball_snapshot.mjs:36-44 | a row is dropped iff its date or numbers fail to parse or its date sorts before `2015-10-07` |
| PowerballSnapshot.KeepRowFacts | scripts/build_powerball_snapshot.mjs:37-43 | a kept draw has the parsed date and five ascending white balls, a permutation of the first five numbers. The power ball is the sixth |
| PowerballSnapshot.FormatStartBoundary | scripts/build_powerball_snapshot.mjs:2 | `2015-10-07` is kept and `2015-10-06` is not. A timestamped date is cut to its day |
| PowerballSnapshot.LexCommonPrefix | scripts/build_powerball_snapshot.mjs:46 | the first differing character decides the comparison |
| PowerballSnapshot.LexIrreflexive | scripts/build_powerball_snapshot.mjs:46 | no date sorts before itself |
| PowerballSnapshot.LexTransitive | scripts/build_powerball_snapshot.mjs:46 | the comparison is transitive |
| PowerballSnapshot.LexTotal | scripts/build_powerball_snapshot.mjs:46 | two different dates are ordered one way or the other |
| PowerballSnapshot.DateLessStrictOrder | scripts/build_powerball_snapshot.mjs:46 | comparing draws by date is a strict order |
| PowerballSnapshot.KeptDrawsFromRows | scripts/build_powerball_snapshot.mjs:35-45 | every kept draw comes from some row, and every row that is kept contributes its draw |
| PowerballSnapshot.SnapshotOrdered | scripts/build_powerball_snapshot.mjs:35-46 | the snapshot is a permutation of the kept draws, ordered by date |
| PowerballSnapshot.SnapshotAfterFormatStart | scripts/build_powerball_snapshot.mjs:40-46 | no snapshot draw is older than `2015-10-07` |
| LottoSnapshot.Finite | scripts/build_lotto_snapshot.mjs:26 | the filter keeps at most as many picks as it is given |
| LottoSnapshot.FiniteKeeps | scripts/build_lotto_snapshot.mjs:26 | a number survives the filter iff it was a finite pick |
| LottoSnapshot.Rounds | scripts/build_lotto_snapshot.mjs:13-34 | the requested rounds are `1, 2, ..., n` |
| LottoSnapshot.Scan | scripts/build_lotto_snapshot.mjs:11-36 | the scan requests rounds `1..n` in order with no thrown request before the last, and never two non-successes in a row before the end. It stops on a thrown request (`crashed`) or exactly at the second non-success in a row. The draws are one record per success in order |
| LottoSnapshot.NoTwoMissesStep | scripts/build_lotto_snapshot.mjs:17-23 | a success, or a miss right after a success, keeps "no two misses in a row" |
| LottoSnapshot.RecordsSnoc | scripts/build_lotto_snapshot.mjs:28-33 | a success appends exactly its record; a miss appends nothing |
| LottoSnapshot.RecordFacts | scripts/build_lotto_snapshot.mjs:24-33 | a record holds at most six numbers, ascending, a permutation of the finite picks, with the round and bonus of the reply |
| LottoSnapshot.RecordsCount | scripts/build_lotto_snapshot.mjs:28-33 | one record per successful round |
| LottoSnapshot.IsolatedMiss | scripts/build_lotto_snapshot.mjs:14-22 | a single miss between successes does not end the scan. Rounds 1..5 are requested and rounds 1 and 3 recorded |

## Left out

- DOM rendering, event binding, `formatCurrency`, `renderHotCold`, `renderFrequency`, `renderSummary` and `renderRecommendations` are not modelled. They only display values.
- HTTP requests are not modelled:
  - `fetch`, `response.json()` and `fetchDrawSafe` become the oracles `accepted` and `fetch`.
  - The draw endpoint of both servers (`fetchDraw`, status 500 on failure, response caching of the payload) is not modelled beyond the route selection.
  - The Powerball `fetchAll` pagination is not modelled; the pipeline starts from the fetched rows.
- Concurrency is not modelled: `Promise.all` in `fetchRange` keeps request order, so a batch's requests are issued one after another in the model.
- Time: each `findLatestDrawNo` call reads one `now`; the source calls `Date.now()` up to three times per call.
- The snapshot script's `sleep(250)` every fifty rounds, the `updatedAt` timestamp, the JSON files written and `process.exit` are not modelled.
- Floating point: `Math.round(x / n * 100)` and `Math.round(sum / n)` are modelled as exact half-up rounding of the rational value. `Math.random() * total` is an exact real product.
- `Number()` on text is modelled for decimal digit strings only. Signs, exponents, hexadecimal and surrounding white space are left out.
- `\s` in `split(/\s+/)` and `trim()` is modelled as ASCII white space (space, tab, LF, VT, FF, CR). Unicode spaces are left out.
- `localeCompare` on the dates is modelled as code-unit order. For the `YYYY-MM-DD` dates the script sorts, both give the same order.
- `EdgeLatest.FindLatestDrawNo`: requires the cached body to be a decimal numeral of at least 1. The function only ever writes `String(left)` of a round of at least 1, and `Number()` of other text is out of scope.
- `Statistics.ComputeStats`: requires every draw to hold six picks in 1..45. `computeStats` does not check this; for other draws the source indexes `frequency` out of range, which the model does not follow.
- The Cloudflare cache's own `max-age` expiry is not modelled: an entry is kept until it is overwritten. `EdgeLatest.RequestTwice` therefore requires the second request to fall within `max-age`.
- `BrowserLatest.FindLatestDrawNo`: the stored JSON text is modelled by what `JSON.parse` makes of it (an object, a falsy value, or a parse error).
- Express query strings that parse to arrays or objects are not modelled; `drawNo` is a single text or missing.
- `Recommendation.GenerateRecommendation`: the random stream is finite. When it runs out before a recommendation is complete, the model yields `OutOfChoices`; the source never runs out.
- The fallback of `generateRecommendation` draws six independent balls and can repeat one (`Recommendation.FallbackRepeats`); only a balanced selection is guaranteed distinct.
- `num % 2` and `num % 2 === 1` are modelled on the positive ball numbers 1..45, where JavaScript's remainder and Dafny's agree.
- `LottoSnapshot.Scan`: requires a round `last` after which no round answers with success. This is what ends the source's `while (true)` loop.
- `Number(data.drwNo)` and `Number(data.bnusNo)` in the snapshot are taken as already numeric; their `NaN` case is not modelled. Each `drwtNo` pick is either a finite number or `None`.
