/**
 * The latest-round resolver (`findLatestDrawNo`), the part that main.js,
 * server.js and functions/api/lotto.js share word for word.
 *
 * The draw source is the oracle `accepted`: `accepted(r)` holds when a lookup of
 * round `r` succeeds (`fetchDrawSafe` returns a draw). Errors and "not found"
 * both read as `false`, as `fetchDrawSafe` maps both to `null`. Every query is
 * recorded, in order, in a `queried` sequence.
 */
module Resolver {

  /** 2002-12-07T20:35:00+09:00, the first draw, in milliseconds since the epoch. */
  const START_MS: int := 1039260900000
  const WEEK_MS: int := 7 * 24 * 60 * 60 * 1000

  const DOWN_TRIES: nat := 12
  const UP_TRIES: nat := 12
  const BISECT_STEPS: nat := 24
  /** The estimate is widened by this much in both directions before probing. */
  const SLACK: int := 8

  function Max(a: int, b: int): int
  {
    if a < b then b else a
  }

  function Pow2(n: nat): (p: nat)
    ensures p >= 1
  {
    if n == 0 then 1 else 2 * Pow2(n - 1)
  }

  /** `Math.floor((now - START_DATE) / WEEK_MS) + 1`: the draw that the weekly cadence predicts. */
  function Estimate(now: int): (e: int)
    ensures (e - 1) * WEEK_MS <= now - START_MS < e * WEEK_MS
  {
    (now - START_MS) / WEEK_MS + 1
  }

  /** The rounds that exist are exactly 1..m: the monotonicity the resolver relies on. */
  ghost predicate LatestIs(accepted: int -> bool, m: int)
  {
    forall r :: accepted(r) <==> 1 <= r <= m
  }

  datatype Probe = Probe(bound: int, queried: seq<int>)

  function Last(s: seq<int>): int
    requires s != []
  {
    s[|s| - 1]
  }

  /**
   * The downward probe: query `low`, stop on the first accepted round, otherwise
   * step down by one, never below 1.
   */
  function ProbeDown(accepted: int -> bool, low: int, tries: nat): Probe
    decreases tries
  {
    if tries == 0 then Probe(low, [])
    else if accepted(low) then Probe(low, [low])
    else
      var rest := ProbeDown(accepted, Max(1, low - 1), tries - 1);
      Probe(rest.bound, [low] + rest.queried)
  }

  /**
   * The downward probe never goes below 1, queries `low`, `low - 1`, ... (clamped
   * at 1) at most `tries` times, and stops at the first accepted round. A probe
   * that finds nothing leaves `bound` at the unqueried floor `max(1, low - tries)`.
   */
  lemma {:induction false} ProbeDownFacts(accepted: int -> bool, low: int, tries: nat)
    requires low >= 1
    ensures var p := ProbeDown(accepted, low, tries);
      && 1 <= p.bound <= low
      && |p.queried| <= tries
      && (forall i :: 0 <= i < |p.queried| ==> p.queried[i] == Max(1, low - i))
      && (forall i :: 0 <= i < |p.queried| - 1 ==> !accepted(p.queried[i]))
      && if p.queried != [] && accepted(Last(p.queried)) then p.bound == Last(p.queried)
         else |p.queried| == tries && p.bound == Max(1, low - tries)
    decreases tries
  {
    if tries > 0 && !accepted(low) {
      ProbeDownFacts(accepted, Max(1, low - 1), tries - 1);
    }
  }

  /**
   * The upward probe: query `high`, stop on the first rejected round, otherwise
   * step up by two.
   */
  function ProbeUp(accepted: int -> bool, high: int, tries: nat): Probe
    decreases tries
  {
    if tries == 0 then Probe(high, [])
    else if !accepted(high) then Probe(high, [high])
    else
      var rest := ProbeUp(accepted, high + 2, tries - 1);
      Probe(rest.bound, [high] + rest.queried)
  }

  /**
   * The upward probe queries `high`, `high + 2`, ... at most `tries` times and
   * moves up only past accepted rounds. A probe that never meets a rejection
   * leaves `bound` at the unqueried `high + 2 * tries`.
   */
  lemma {:induction false} ProbeUpFacts(accepted: int -> bool, high: int, tries: nat)
    ensures var p := ProbeUp(accepted, high, tries);
      && high <= p.bound <= high + 2 * tries
      && |p.queried| <= tries
      && (forall i :: 0 <= i < |p.queried| ==> p.queried[i] == high + 2 * i)
      && (forall i :: 0 <= i < |p.queried| - 1 ==> accepted(p.queried[i]))
      && if p.queried != [] && !accepted(Last(p.queried)) then p.bound == Last(p.queried)
         else |p.queried| == tries && p.bound == high + 2 * tries
    decreases tries
  {
    if tries > 0 && accepted(high) {
      ProbeUpFacts(accepted, high + 2, tries - 1);
    }
  }

  datatype Bracket = Bracket(left: int, right: int, queried: seq<int>)

  /**
   * Bisection of the bracket `left`/`right`: stop once they are adjacent or
   * after `steps` queries; otherwise query the midpoint and move `left` to it if
   * accepted, `right` if not.
   */
  function Bisect(accepted: int -> bool, left: int, right: int, steps: nat): Bracket
    decreases steps
  {
    if steps == 0 || left + 1 >= right then Bracket(left, right, [])
    else
      var mid := (left + right) / 2;
      var rest := if accepted(mid) then Bisect(accepted, mid, right, steps - 1)
                  else Bisect(accepted, left, mid, steps - 1);
      Bracket(rest.left, rest.right, [mid] + rest.queried)
  }

  /**
   * Bisection only narrows the bracket and keeps `left < right`; `left` only
   * ever moves to an accepted midpoint and `right` to a rejected one; every
   * query lies strictly inside the bracket; and a gap of at most 2^steps is
   * closed to adjacent rounds.
   */
  lemma {:induction false} BisectFacts(accepted: int -> bool, left: int, right: int, steps: nat)
    ensures var b := Bisect(accepted, left, right, steps);
      && left <= b.left && b.right <= right
      && (left < right ==> b.left < b.right)
      && (b.left == left || accepted(b.left))
      && (b.right == right || !accepted(b.right))
      && |b.queried| <= steps
      && (forall q :: q in b.queried ==> left < q < right)
      && (right - left <= Pow2(steps) ==> b.left + 1 >= b.right)
    decreases steps
  {
    if steps > 0 && left + 1 < right {
      var mid := (left + right) / 2;
      HalvesGap(left, right, mid, steps);
      if accepted(mid) {
        BisectFacts(accepted, mid, right, steps - 1);
      } else {
        BisectFacts(accepted, left, mid, steps - 1);
      }
    }
  }

  /** 24 halvings cover any gap the probes can leave under a monotone source. */
  lemma {:induction false} Pow2Covers(n: nat)
    requires n >= 7
    ensures Pow2(n) >= 128
  {
    if n > 7 {
      Pow2Covers(n - 1);
    } else {
      assert Pow2(7) == 128;
    }
  }

  /** The midpoint splits a gap of at most 2^steps into two gaps of at most 2^(steps-1). */
  lemma HalvesGap(left: int, right: int, mid: int, steps: nat)
    requires steps > 0 && left + 1 < right && mid == (left + right) / 2
    ensures left < mid < right
    ensures right - left <= Pow2(steps) ==> mid - left <= Pow2(steps - 1) && right - mid <= Pow2(steps - 1)
  {
  }

  datatype Resolution = Resolution(latest: int, queried: seq<int>)

  /** The whole resolution from an estimate: the two probes, then bisection between their bounds. */
  function Resolve(accepted: int -> bool, estimate: int): Resolution
  {
    var down := ProbeDown(accepted, Max(1, estimate - SLACK), DOWN_TRIES);
    var up := ProbeUp(accepted, estimate + SLACK, UP_TRIES);
    var b := Bisect(accepted, down.bound, up.bound, BISECT_STEPS);
    Resolution(b.left, down.queried + up.queried + b.queried)
  }

  /**
   * Whatever the source does, the resolver answers a round >= 1 after at most
   * 12 + 12 + 24 = 48 queries, and that round is either confirmed by the source
   * or is the unconfirmed floor left by a downward probe that found nothing.
   */
  lemma ResolveFacts(accepted: int -> bool, estimate: int)
    ensures Resolve(accepted, estimate).latest >= 1
    ensures |Resolve(accepted, estimate).queried| <= 48
    ensures var r := Resolve(accepted, estimate).latest;
      accepted(r) || r == Max(1, Max(1, estimate - SLACK) - DOWN_TRIES)
  {
    var down := ProbeDown(accepted, Max(1, estimate - SLACK), DOWN_TRIES);
    var up := ProbeUp(accepted, estimate + SLACK, UP_TRIES);
    ProbeDownFacts(accepted, Max(1, estimate - SLACK), DOWN_TRIES);
    ProbeUpFacts(accepted, estimate + SLACK, UP_TRIES);
    BisectFacts(accepted, down.bound, up.bound, BISECT_STEPS);
  }

  /** One iteration of the downward loop, stated against what is left of the probe. */
  lemma ProbeDownStep(accepted: int -> bool, low: int, tries: nat, done: seq<int>, down: Probe)
    requires tries > 0
    requires done + ProbeDown(accepted, low, tries).queried == down.queried
    requires ProbeDown(accepted, low, tries).bound == down.bound
    ensures accepted(low) ==> done + [low] == down.queried && low == down.bound
    ensures !accepted(low) ==>
      && (done + [low]) + ProbeDown(accepted, Max(1, low - 1), tries - 1).queried == down.queried
      && ProbeDown(accepted, Max(1, low - 1), tries - 1).bound == down.bound
  {
    if !accepted(low) {
      var next := ProbeDown(accepted, Max(1, low - 1), tries - 1);
      assert (done + [low]) + next.queried == done + ([low] + next.queried);
    }
  }

  /** One iteration of the upward loop, stated against what is left of the probe. */
  lemma ProbeUpStep(accepted: int -> bool, high: int, tries: nat, done: seq<int>, up: Probe)
    requires tries > 0
    requires done + ProbeUp(accepted, high, tries).queried == up.queried
    requires ProbeUp(accepted, high, tries).bound == up.bound
    ensures !accepted(high) ==> done + [high] == up.queried && high == up.bound
    ensures accepted(high) ==>
      && (done + [high]) + ProbeUp(accepted, high + 2, tries - 1).queried == up.queried
      && ProbeUp(accepted, high + 2, tries - 1).bound == up.bound
  {
    if accepted(high) {
      var next := ProbeUp(accepted, high + 2, tries - 1);
      assert (done + [high]) + next.queried == done + ([high] + next.queried);
    }
  }

  /** A bisection with no steps left, or an adjacent bracket, queries nothing. */
  lemma BisectDone(accepted: int -> bool, left: int, right: int, steps: nat)
    requires steps == 0 || left + 1 >= right
    ensures Bisect(accepted, left, right, steps) == Bracket(left, right, [])
  {
  }

  /** One iteration of the bisection loop, stated against what is left of the bisection. */
  lemma BisectStep(accepted: int -> bool, left: int, right: int, steps: nat, done: seq<int>, bracket: Bracket)
    requires steps > 0 && left + 1 < right
    requires done + Bisect(accepted, left, right, steps).queried == bracket.queried
    requires Bisect(accepted, left, right, steps).left == bracket.left
    ensures var mid := (left + right) / 2;
      var rest := if accepted(mid) then Bisect(accepted, mid, right, steps - 1)
                  else Bisect(accepted, left, mid, steps - 1);
      && (done + [mid]) + rest.queried == bracket.queried
      && rest.left == bracket.left
  {
    var mid := (left + right) / 2;
    var rest := if accepted(mid) then Bisect(accepted, mid, right, steps - 1)
                else Bisect(accepted, left, mid, steps - 1);
    assert (done + [mid]) + rest.queried == done + ([mid] + rest.queried);
  }

  /** The first loop of `findLatestDrawNo`: at most 12 queries walking down from `start`. */
  method ScanDown(accepted: int -> bool, start: int) returns (low: int, queried: seq<int>)
    requires start >= 1
    ensures Probe(low, queried) == ProbeDown(accepted, start, DOWN_TRIES)
  {
    var tries := DOWN_TRIES;
    ghost var down := ProbeDown(accepted, start, tries);
    low, queried := start, [];
    var i := 0;
    while i < tries
      invariant 0 <= i <= tries && low >= 1
      invariant queried + ProbeDown(accepted, low, tries - i).queried == down.queried
      invariant ProbeDown(accepted, low, tries - i).bound == down.bound
    {
      ProbeDownStep(accepted, low, tries - i, queried, down);
      queried := queried + [low];
      if accepted(low) {
        break;
      }
      low := Max(1, low - 1);
      i := i + 1;
    }
  }

  /** The second loop: at most 12 queries walking up from `start` in steps of two. */
  method ScanUp(accepted: int -> bool, start: int) returns (high: int, queried: seq<int>)
    ensures Probe(high, queried) == ProbeUp(accepted, start, UP_TRIES)
  {
    var tries := UP_TRIES;
    ghost var up := ProbeUp(accepted, start, tries);
    high, queried := start, [];
    var i := 0;
    while i < tries
      invariant 0 <= i <= tries
      invariant queried + ProbeUp(accepted, high, tries - i).queried == up.queried
      invariant ProbeUp(accepted, high, tries - i).bound == up.bound
    {
      ProbeUpStep(accepted, high, tries - i, queried, up);
      queried := queried + [high];
      if !accepted(high) {
        break;
      }
      high := high + 2;
      i := i + 1;
    }
  }

  /** The third loop: at most 24 bisection queries between `low` and `high`. */
  method Narrow(accepted: int -> bool, low: int, high: int) returns (left: int, queried: seq<int>)
    ensures left == Bisect(accepted, low, high, BISECT_STEPS).left
    ensures queried == Bisect(accepted, low, high, BISECT_STEPS).queried
  {
    var steps := BISECT_STEPS;
    ghost var bracket := Bisect(accepted, low, high, steps);
    left, queried := low, [];
    var right := high;
    var i := 0;
    // The loop of the source breaks at the top once `left + 1 >= right`.
    while i < steps && left + 1 < right
      invariant 0 <= i <= steps
      invariant queried + Bisect(accepted, left, right, steps - i).queried == bracket.queried
      invariant Bisect(accepted, left, right, steps - i).left == bracket.left
    {
      BisectStep(accepted, left, right, steps - i, queried, bracket);
      var mid := (left + right) / 2;
      queried := queried + [mid];
      if accepted(mid) {
        left := mid;
      } else {
        right := mid;
      }
      i := i + 1;
    }
    BisectDone(accepted, left, right, steps - i);
    assert queried + [] == queried;
  }

  /** `findLatestDrawNo` after its cache check: estimate, probe down, probe up, bisect. */
  method Search(accepted: int -> bool, estimate: int) returns (latest: int, queried: seq<int>)
    ensures Resolution(latest, queried) == Resolve(accepted, estimate)
  {
    var low, downQueried := ScanDown(accepted, Max(1, estimate - SLACK));
    var high, upQueried := ScanUp(accepted, estimate + SLACK);
    var bisectQueried;
    latest, bisectQueried := Narrow(accepted, low, high);
    queried := downQueried + upQueried + bisectQueried;
  }

  /**
   * Against a source whose rounds are exactly 1..m, the resolver returns m
   * whenever the estimate is at most 31 rounds short of m or at most 20 past it
   * (and the first upward probe is a real round number).
   */
  lemma ResolveFindsLatest(accepted: int -> bool, m: int, estimate: int)
    requires LatestIs(accepted, m) && m >= 1
    requires m - 31 <= estimate <= m + 20
    requires estimate + SLACK >= 1
    ensures Resolve(accepted, estimate).latest == m
  {
    var start := Max(1, estimate - SLACK);
    var down := ProbeDown(accepted, start, DOWN_TRIES);
    var up := ProbeUp(accepted, estimate + SLACK, UP_TRIES);
    ProbesBracketLatest(accepted, m, estimate);
    Pow2Covers(BISECT_STEPS);
    BisectFindsLatest(accepted, m, down.bound, up.bound);
    ResolveLatest(accepted, estimate, start, estimate + SLACK);
  }

  /**
   * Inside the window the probes end on an accepted round below and a rejected
   * round above, at most 52 apart.
   */
  lemma ProbesBracketLatest(accepted: int -> bool, m: int, estimate: int)
    requires LatestIs(accepted, m) && m >= 1
    requires m - 31 <= estimate <= m + 20
    requires estimate + SLACK >= 1
    ensures var down := ProbeDown(accepted, Max(1, estimate - SLACK), DOWN_TRIES);
      var up := ProbeUp(accepted, estimate + SLACK, UP_TRIES);
      && accepted(down.bound) && !accepted(up.bound)
      && down.bound < up.bound <= down.bound + 52
  {
    var start := Max(1, estimate - SLACK);
    var down := ProbeDown(accepted, start, DOWN_TRIES);
    var up := ProbeUp(accepted, estimate + SLACK, UP_TRIES);
    ProbeDownFacts(accepted, start, DOWN_TRIES);
    ProbeUpFacts(accepted, estimate + SLACK, UP_TRIES);
    assert accepted(down.bound) by {
      if !(down.queried != [] && accepted(Last(down.queried))) {
        assert !accepted(down.queried[DOWN_TRIES - 1]);
      }
    }
    assert !accepted(up.bound);
    assert down.bound >= estimate - 20 && up.bound <= estimate + 32;
  }

  /**
   * Bisecting between an accepted and a rejected round finds m whenever they
   * are at most 2^24 apart: 24 halvings close any such bracket.
   */
  lemma BisectFindsLatest(accepted: int -> bool, m: int, low: int, high: int)
    requires LatestIs(accepted, m)
    requires accepted(low) && !accepted(high) && low < high
    requires high - low <= Pow2(BISECT_STEPS)
    ensures Bisect(accepted, low, high, BISECT_STEPS).left == m
  {
    var b := Bisect(accepted, low, high, BISECT_STEPS);
    BisectFacts(accepted, low, high, BISECT_STEPS);
    assert b.left < b.right;
    assert b.left + 1 >= b.right;
    assert accepted(b.left) && !accepted(b.right) && b.right == b.left + 1;
  }

  /** The resolved round is where bisection between the two probes' bounds ends. */
  lemma ResolveLatest(accepted: int -> bool, estimate: int, start: int, high: int)
    requires start == Max(1, estimate - SLACK) && high == estimate + SLACK
    ensures Resolve(accepted, estimate).latest == Bisect(accepted,
      ProbeDown(accepted, start, DOWN_TRIES).bound,
      ProbeUp(accepted, high, UP_TRIES).bound, BISECT_STEPS).left
  {
  }

  /** One round too far past the estimate window: the unconfirmed floor m + 1 is returned. */
  lemma ResolveOvershoots(accepted: int -> bool, m: int)
    requires LatestIs(accepted, m) && m >= 1
    ensures Resolve(accepted, m + 21).latest == m + 1
  {
    OvershootBracket(accepted, m);
    OvershootBisect(accepted, m);
    ResolveLatest(accepted, m + 21, m + 13, m + 29);
  }

  /** Estimating m + 21: the downward probe exhausts its 12 tries at m + 1, the upward one stops at once. */
  lemma OvershootBracket(accepted: int -> bool, m: int)
    requires LatestIs(accepted, m) && m >= 1
    ensures ProbeDown(accepted, m + 13, DOWN_TRIES).bound == m + 1
    ensures ProbeUp(accepted, m + 29, UP_TRIES).bound == m + 29
  {
    var down := ProbeDown(accepted, m + 13, DOWN_TRIES);
    ProbeDownFacts(accepted, m + 13, DOWN_TRIES);
    assert down.queried != [] ==> Last(down.queried) >= m + 1;
    assert !accepted(m + 29);
  }

  lemma OvershootBisect(accepted: int -> bool, m: int)
    requires LatestIs(accepted, m) && m >= 1
    ensures Bisect(accepted, m + 1, m + 29, BISECT_STEPS).left == m + 1
  {
    BisectFacts(accepted, m + 1, m + 29, BISECT_STEPS);
  }

  /** One round too far short of the estimate window: the upward probe ends on m itself and m - 1 is returned. */
  lemma ResolveUndershoots(accepted: int -> bool, m: int)
    requires LatestIs(accepted, m) && m >= 25
    ensures Resolve(accepted, m - 32).latest == m - 1
  {
    UndershootBracket(accepted, m);
    UndershootBisect(accepted, m);
    ResolveLatest(accepted, m - 32, Max(1, m - 40), m - 24);
  }

  /** Estimating m - 32: the downward probe stops at once, the upward one climbs to m in 12 tries. */
  lemma UndershootBracket(accepted: int -> bool, m: int)
    requires LatestIs(accepted, m) && m >= 25
    ensures ProbeDown(accepted, Max(1, m - 40), DOWN_TRIES).bound == Max(1, m - 40)
    ensures ProbeUp(accepted, m - 24, UP_TRIES).bound == m
  {
    assert accepted(Max(1, m - 40));
    var up := ProbeUp(accepted, m - 24, UP_TRIES);
    ProbeUpFacts(accepted, m - 24, UP_TRIES);
    assert up.queried != [] ==> Last(up.queried) <= m - 2;
  }

  lemma UndershootBisect(accepted: int -> bool, m: int)
    requires LatestIs(accepted, m) && m >= 25
    ensures Bisect(accepted, Max(1, m - 40), m, BISECT_STEPS).left == m - 1
  {
    var start := Max(1, m - 40);
    Pow2Covers(BISECT_STEPS);
    var b := Bisect(accepted, start, m, BISECT_STEPS);
    BisectFacts(accepted, start, m, BISECT_STEPS);
    assert 1 <= b.left < b.right <= m;
    assert b.right == m;
  }
}
