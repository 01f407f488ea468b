/**
 * `weightedPick` and `generateRecommendation` of main.js: a recommended set
 * of six balls drawn from hot and cold pools and a frequency-weighted pool,
 * rejected until the odd/even split is balanced.
 *
 * `Math.random()` is replaced by a finite stream of values in [0, 1); each
 * call consumes the next one.
 */
module Recommendation {
  import opened Sorting
  import opened Statistics

  // ---------------------------------------------------------------------------
  // weightedPick
  // ---------------------------------------------------------------------------

  /** The sum of the first `n` weights. */
  function Prefix(weights: seq<int>, n: nat): int
    requires n <= |weights|
  {
    if n == 0 then 0 else Prefix(weights, n - 1) + weights[n - 1]
  }

  function Total(weights: seq<int>): int
  {
    Prefix(weights, |weights|)
  }

  /**
   * The least index `i >= from` whose prefix sum reaches `target`, or the last
   * index when none does.
   */
  function PickIndex(weights: seq<int>, target: real, from: nat): (i: nat)
    requires from <= |weights| && weights != []
    ensures i < |weights|
    decreases |weights| - from
  {
    if from == |weights| then |weights| - 1
    else if target <= Prefix(weights, from + 1) as real then from
    else PickIndex(weights, target, from + 1)
  }

  /** `PickIndex` from 0 is the least index whose prefix sum reaches the target, falling back to the last. */
  lemma {:induction false} PickIndexLeast(weights: seq<int>, target: real, from: nat)
    requires from <= |weights| && weights != []
    requires forall n :: 1 <= n <= from ==> Prefix(weights, n) as real < target
    ensures forall n :: 1 <= n <= PickIndex(weights, target, from) ==> Prefix(weights, n) as real < target
    ensures target <= Prefix(weights, PickIndex(weights, target, from) + 1) as real
      || (PickIndex(weights, target, from) == |weights| - 1 && Total(weights) as real < target)
    decreases |weights| - from
  {
    if from < |weights| && Prefix(weights, from + 1) as real < target {
      PickIndexLeast(weights, target, from + 1);
    }
  }

  lemma {:induction false} PrefixMonotone(weights: seq<int>, m: nat, n: nat)
    requires m <= n <= |weights|
    requires forall k :: 0 <= k < |weights| ==> weights[k] > 0
    ensures Prefix(weights, m) <= Prefix(weights, n)
    ensures m < n ==> Prefix(weights, m) < Prefix(weights, n)
    decreases n - m
  {
    if m < n {
      PrefixMonotone(weights, m, n - 1);
    }
  }

  /**
   * With positive weights and `0 <= r < 1`, `weightedPick` picks the index whose
   * interval `(Prefix(i), Prefix(i + 1)]` of the scaled target contains it (the
   * first interval also taking 0), so index `i` is picked with probability
   * proportional to its weight, and the fallback is never reached.
   */
  lemma PickInterval(weights: seq<int>, r: real)
    requires weights != []
    requires forall k :: 0 <= k < |weights| ==> weights[k] > 0
    requires 0.0 <= r < 1.0
    ensures var target := Target(r, Total(weights));
      var i := PickIndex(weights, target, 0);
      && i < |weights|
      && (i == 0 || Prefix(weights, i) as real < target)
      && target <= Prefix(weights, i + 1) as real
  {
    PrefixMonotone(weights, 0, |weights|);
    PickIndexReaches(weights, Target(r, Total(weights)));
  }

  /** A target below the total is reached by the picked index and not by any earlier one. */
  lemma PickIndexReaches(weights: seq<int>, target: real)
    requires weights != []
    requires target < Total(weights) as real
    ensures var i := PickIndex(weights, target, 0);
      && (i == 0 || Prefix(weights, i) as real < target)
      && target <= Prefix(weights, i + 1) as real
  {
    PickIndexLeast(weights, target, 0);
  }

  /** `Math.random() * total`: the scaled target for the random value `r`. */
  function Target(r: real, total: int): (x: real)
    ensures 0.0 <= r < 1.0 && total > 0 ==> 0.0 <= x < total as real
  {
    var t := total as real;
    assert 0.0 <= r < 1.0 && t > 0.0 ==> 0.0 <= r * t && 0.0 < (1.0 - r) * t == t - r * t;
    r * t
  }

  /** `weightedPick`: subtract the weights from the scaled target until it drops to 0 or below. */
  method WeightedPick(pool: seq<int>, weights: seq<int>, r: real) returns (pick: int)
    requires pool != [] && |weights| == |pool|
    ensures pick == pool[PickIndex(weights, Target(r, Total(weights)), 0)]
  {
    var total := 0;
    for k := 0 to |weights|
      invariant total == Prefix(weights, k)
    {
      total := total + weights[k];
    }
    assert total == Total(weights);
    var start := Target(r, total);
    var target := start;
    var i := 0;
    while i < |pool|
      invariant 0 <= i <= |pool|
      invariant target == start - Prefix(weights, i) as real
      invariant PickIndex(weights, start, i) == PickIndex(weights, start, 0)
    {
      assert Prefix(weights, i + 1) == Prefix(weights, i) + weights[i];
      target := target - weights[i] as real;
      if target <= 0.0 {
        assert start <= Prefix(weights, i + 1) as real;
        return pool[i];
      }
      i := i + 1;
    }
    return pool[|pool| - 1];
  }

  // ---------------------------------------------------------------------------
  // Hot and cold pools
  // ---------------------------------------------------------------------------

  /** A ball and how often it was drawn in the window. */
  datatype Entry = Entry(number: int, count: int)

  /** The comparator `(a, b) => b.count - a.count`: a larger count comes first. */
  predicate CountDesc(a: Entry, b: Entry)
  {
    a.count > b.count
  }

  /** `frequency.slice(1).map((count, index) => ({ number: index + 1, count }))`. */
  function Entries(frequency: seq<int>): (es: seq<Entry>)
    requires |frequency| == 46
  {
    seq(45, i requires 0 <= i < 45 => Entry(i + 1, frequency[i + 1]))
  }

  /** The entries sorted by count, descending, stably. */
  function RankByCount(frequency: seq<int>): seq<Entry>
    requires |frequency| == 46
  {
    SortBy(Entries(frequency), CountDesc)
  }

  function Balls(es: seq<Entry>): seq<int>
  {
    seq(|es|, i requires 0 <= i < |es| => es[i].number)
  }

  /** `sorted.slice(0, 10)`: the ten most frequent balls. */
  function HotPool(frequency: seq<int>): seq<int>
    requires |frequency| == 46
  {
    Balls(RankByCount(frequency)[..10])
  }

  /** `sorted.slice(-10)`: the ten least frequent balls. */
  function ColdPool(frequency: seq<int>): seq<int>
    requires |frequency| == 46
  {
    Balls(RankByCount(frequency)[35..])
  }

  /** `frequency.map((count) => Math.max(1, count))`: every ball keeps a chance. */
  function Weights(frequency: seq<int>): (w: seq<int>)
    requires |frequency| == 46
    ensures |w| == 45
    ensures forall k :: 0 <= k < 45 ==> w[k] >= 1 && w[k] >= frequency[k + 1]
    ensures forall k :: 0 <= k < 45 ==> w[k] == 1 || w[k] == frequency[k + 1]
  {
    seq(45, i requires 0 <= i < 45 => if frequency[i + 1] > 1 then frequency[i + 1] else 1)
  }

  /** `entries.map((item) => item.number)`: the balls 1..45. */
  function BallPool(): (p: seq<int>)
    ensures |p| == 45 && forall k :: 0 <= k < 45 ==> p[k] == k + 1
  {
    seq(45, i => i + 1)
  }

  /** `a` is ranked before `b`: more frequent, or as frequent and a smaller ball. */
  predicate RankedBefore(a: Entry, b: Entry)
  {
    a.count > b.count || (a.count == b.count && a.number < b.number)
  }

  ghost predicate Ranked(es: seq<Entry>)
  {
    forall i, j :: 0 <= i < j < |es| ==> RankedBefore(es[i], es[j])
  }

  lemma {:induction false} InsertRanked(s: seq<Entry>, x: Entry)
    requires Ranked(s)
    requires forall k :: 0 <= k < |s| ==> s[k].number < x.number
    ensures Ranked(Insert(s, x, CountDesc))
  {
    if s == [] || CountDesc(x, s[0]) {
      var r := [x] + s;
      forall i, j | 0 <= i < j < |r| ensures RankedBefore(r[i], r[j]) {
        if i == 0 {
          assert r[j] == s[j - 1];
          if j > 1 {
            assert RankedBefore(s[0], s[j - 1]);
          }
        } else {
          assert r[i] == s[i - 1] && r[j] == s[j - 1];
        }
      }
    } else {
      var tail := Insert(s[1..], x, CountDesc);
      InsertRanked(s[1..], x);
      var r := [s[0]] + tail;
      forall i, j | 0 <= i < j < |r| ensures RankedBefore(r[i], r[j]) {
        if i == 0 {
          var e := r[j];
          assert e in multiset(tail);
          assert e in multiset(s[1..]) || e == x;
          if e != x {
            var k :| 0 <= k < |s[1..]| && s[1..][k] == e;
            assert s[k + 1] == e;
          }
        } else {
          assert r[i] == tail[i - 1] && r[j] == tail[j - 1];
        }
      }
    }
  }

  /**
   * A stable count-descending sort of entries listed in increasing ball order
   * ranks them by count, ties going to the smaller ball.
   */
  lemma {:induction false} SortRanked(s: seq<Entry>)
    requires forall i, j :: 0 <= i < j < |s| ==> s[i].number < s[j].number
    ensures Ranked(SortBy(s, CountDesc))
    decreases |s|
  {
    if s != [] {
      var init := s[..|s| - 1];
      var x := s[|s| - 1];
      var sorted := SortBy(init, CountDesc);
      SortRanked(init);
      forall k | 0 <= k < |sorted| ensures sorted[k].number < x.number {
        assert sorted[k] in multiset(init);
        var m :| 0 <= m < |init| && init[m] == sorted[k];
      }
      InsertRanked(sorted, x);
    }
  }

  /**
   * The ranking is a permutation of the 45 entries, ordered by count
   * descending with ties ascending by ball.
   */
  lemma RankByCountFacts(frequency: seq<int>)
    requires |frequency| == 46
    ensures |RankByCount(frequency)| == 45
    ensures multiset(RankByCount(frequency)) == multiset(Entries(frequency))
    ensures Ranked(RankByCount(frequency))
    ensures forall k :: 0 <= k < 45 ==>
      1 <= RankByCount(frequency)[k].number <= 45
      && RankByCount(frequency)[k].count == frequency[RankByCount(frequency)[k].number]
  {
    var es := Entries(frequency);
    SortRanked(es);
    var ranked := RankByCount(frequency);
    forall k | 0 <= k < 45
      ensures 1 <= ranked[k].number <= 45 && ranked[k].count == frequency[ranked[k].number]
    {
      assert ranked[k] in multiset(es);
    }
  }

  /**
   * Every hot ball is drawn at least as often as every cold ball, the two pools
   * do not overlap, and both hold balls 1..45.
   */
  lemma HotColdPools(frequency: seq<int>)
    requires |frequency| == 46
    ensures |HotPool(frequency)| == 10 && |ColdPool(frequency)| == 10
    ensures forall h :: h in HotPool(frequency) ==> 1 <= h <= 45
    ensures forall c :: c in ColdPool(frequency) ==> 1 <= c <= 45
    ensures forall h, c :: h in HotPool(frequency) && c in ColdPool(frequency) ==>
      h != c && frequency[h] >= frequency[c]
  {
    var ranked := RankByCount(frequency);
    RankByCountFacts(frequency);
    var hot, cold := HotPool(frequency), ColdPool(frequency);
    forall h, c | h in hot && c in cold
      ensures h != c && frequency[h] >= frequency[c]
    {
      var i :| 0 <= i < 10 && hot[i] == h;
      var j :| 0 <= j < 10 && cold[j] == c;
      assert hot[i] == ranked[i].number;
      assert cold[j] == ranked[35 + j].number;
      assert RankedBefore(ranked[i], ranked[35 + j]);
    }
    forall h | h in hot ensures 1 <= h <= 45 {
      var i :| 0 <= i < 10 && hot[i] == h;
      assert hot[i] == ranked[i].number;
    }
    forall c | c in cold ensures 1 <= c <= 45 {
      var j :| 0 <= j < 10 && cold[j] == c;
      assert cold[j] == ranked[35 + j].number;
    }
  }

  // ---------------------------------------------------------------------------
  // generateRecommendation
  // ---------------------------------------------------------------------------

  /** The attempts made before falling back to uniform picks. */
  const ATTEMPTS: nat := 120

  /** What one call of `generateRecommendation` yields. */
  datatype Sample =
    | Balanced(numbers: seq<int>)  // an attempt passed the odd/even test
    | Fallback(numbers: seq<int>)  // all attempts failed
    | OutOfChoices                 // the finite stream of random values ran out

  /** Every value of the stream is one `Math.random()` result. */
  ghost predicate UnitValues(random: seq<real>)
  {
    forall i :: 0 <= i < |random| ==> 0.0 <= random[i] < 1.0
  }

  lemma UnitSlice(random: seq<real>, lo: nat, hi: nat)
    requires UnitValues(random) && lo <= hi <= |random|
    ensures UnitValues(random[lo..hi])
  {
    forall i | 0 <= i < hi - lo ensures 0.0 <= random[lo..hi][i] < 1.0 {
      assert random[lo..hi][i] == random[lo + i];
    }
  }

  /** `Math.floor(r * n)`. */
  function Scale(r: real, n: nat): int
  {
    (r * n as real).Floor
  }

  lemma ScaleBounds(r: real, n: nat)
    requires 0.0 <= r < 1.0 && n > 0
    ensures 0 <= Scale(r, n) < n
  {
    var x := r * n as real;
    assert n as real - x == (1.0 - r) * n as real;
    assert (1.0 - r) * n as real > 0.0;
  }

  /** `Set.prototype.add`, keeping insertion order. */
  function AddToSet(selection: seq<int>, x: int): (r: seq<int>)
    ensures x in r && forall y :: y in selection ==> y in r
    ensures forall y :: y in r ==> y in selection || y == x
    ensures Distinct(selection) ==> Distinct(r)
  {
    if x in selection then selection else selection + [x]
  }

  /** The fallback: six independent uniform balls, sorted, repetitions allowed. */
  function FallbackDraw(rs: seq<real>): seq<int>
    requires |rs| == 6
  {
    SortNumbers(seq(6, i requires 0 <= i < 6 => Scale(rs[i], 45) + 1))
  }

  lemma SortedInRange(s: seq<int>, lo: int, hi: int)
    requires forall k :: 0 <= k < |s| ==> lo <= s[k] <= hi
    ensures forall k :: 0 <= k < |SortNumbers(s)| ==> lo <= SortNumbers(s)[k] <= hi
  {
    var r := SortNumbers(s);
    forall k | 0 <= k < |r| ensures lo <= r[k] <= hi {
      assert r[k] in multiset(s);
    }
  }

  /** The fallback yields six balls 1..45 in non-decreasing order. */
  lemma FallbackFacts(rs: seq<real>)
    requires |rs| == 6 && UnitValues(rs)
    ensures |FallbackDraw(rs)| == 6
    ensures Ascending(FallbackDraw(rs))
    ensures forall k :: 0 <= k < 6 ==> 1 <= FallbackDraw(rs)[k] <= 45
  {
    var raw := seq(6, i requires 0 <= i < 6 => Scale(rs[i], 45) + 1);
    forall k | 0 <= k < 6 ensures 1 <= raw[k] <= 45 {
      ScaleBounds(rs[k], 45);
    }
    SortNumbersAscending(raw);
    SortedInRange(raw, 1, 45);
  }

  /** Unlike an accepted attempt, the fallback can repeat a ball: six zeros give six 1s. */
  lemma FallbackRepeats()
    ensures FallbackDraw([0.0, 0.0, 0.0, 0.0, 0.0, 0.0]) == [1, 1, 1, 1, 1, 1]
    ensures !Distinct(FallbackDraw([0.0, 0.0, 0.0, 0.0, 0.0, 0.0]))
  {
    var raw := seq(6, i requires 0 <= i < 6 => Scale([0.0, 0.0, 0.0, 0.0, 0.0, 0.0][i], 45) + 1);
    assert raw == [1, 1, 1, 1, 1, 1];
    var r := FallbackDraw([0.0, 0.0, 0.0, 0.0, 0.0, 0.0]);
    SortNumbersAscending(raw);
    forall k | 0 <= k < 6 ensures r[k] == 1 {
      assert r[k] in multiset(raw);
    }
  }

  /** `weightedPick(pool, weights)` over all 45 balls for the random value `r`. */
  function Pick(frequency: seq<int>, r: real): (ball: int)
    requires |frequency| == 46
    ensures 1 <= ball <= 45
  {
    var weights := Weights(frequency);
    BallPool()[PickIndex(weights, Target(r, Total(weights)), 0)]
  }

  /** `hot[Math.floor(r * hot.length)]`. */
  function HotBall(frequency: seq<int>, r: real): (ball: int)
    requires |frequency| == 46 && 0.0 <= r < 1.0
    ensures ball in HotPool(frequency)
  {
    HotColdPools(frequency);
    ScaleBounds(r, 10);
    HotPool(frequency)[Scale(r, 10)]
  }

  /** `cold[Math.floor(r * cold.length)]`. */
  function ColdBall(frequency: seq<int>, r: real): (ball: int)
    requires |frequency| == 46 && 0.0 <= r < 1.0
    ensures ball in ColdPool(frequency)
  {
    HotColdPools(frequency);
    ScaleBounds(r, 10);
    ColdPool(frequency)[Scale(r, 10)]
  }

  /** An attempt's selection, where the stream continues, and whether six balls were reached. */
  datatype Filled = Filled(selection: seq<int>, next: nat, complete: bool)

  /** The `while (selection.size < 6)` loop: weighted picks from stream position `next` on. */
  function Grow(frequency: seq<int>, random: seq<real>, selection: seq<int>, next: nat): (f: Filled)
    requires |frequency| == 46 && next <= |random|
    ensures next <= f.next <= |random|
    ensures !f.complete ==> f.next == |random|
    decreases |random| - next
  {
    if |selection| >= 6 then Filled(selection, next, true)
    else if next == |random| then Filled(selection, next, false)
    else Grow(frequency, random, AddToSet(selection, Pick(frequency, random[next])), next + 1)
  }

  /**
   * One attempt from stream position `start`: the hot ball, then the cold
   * ball, then weighted picks. It is incomplete exactly when the stream runs out.
   */
  function Attempt(frequency: seq<int>, random: seq<real>, start: nat): (f: Filled)
    requires |frequency| == 46 && UnitValues(random) && start <= |random|
    ensures start <= f.next <= |random|
    ensures !f.complete ==> f.next + 2 > |random|
  {
    if start + 2 > |random| then Filled([], start, false)
    else
      var h := HotBall(frequency, random[start]);
      var c := ColdBall(frequency, random[start + 1]);
      Grow(frequency, random, AddToSet([h], c), start + 2)
  }

  /** Filling keeps the balls distinct and in 1..45, loses none, and stops at exactly six. */
  lemma {:induction false} GrowFacts(frequency: seq<int>, random: seq<real>, selection: seq<int>, next: nat)
    requires |frequency| == 46 && next <= |random|
    requires Distinct(selection) && |selection| <= 6
    requires forall x :: x in selection ==> 1 <= x <= 45
    ensures var f := Grow(frequency, random, selection, next);
      && (forall x :: x in selection ==> x in f.selection)
      && (f.complete ==>
        && |f.selection| == 6
        && Distinct(f.selection)
        && forall x :: x in f.selection ==> 1 <= x <= 45)
    decreases |random| - next
  {
    if |selection| < 6 && next < |random| {
      var pick := Pick(frequency, random[next]);
      GrowFacts(frequency, random, AddToSet(selection, pick), next + 1);
    }
  }

  /**
   * A complete attempt holds six distinct balls in 1..45, among them one from
   * the hot pool and one from the cold pool.
   */
  lemma AttemptFacts(frequency: seq<int>, random: seq<real>, start: nat)
    requires |frequency| == 46 && UnitValues(random) && start <= |random|
    ensures var a := Attempt(frequency, random, start);
      a.complete ==>
        && |a.selection| == 6
        && Distinct(a.selection)
        && (forall x :: x in a.selection ==> 1 <= x <= 45)
        && (exists h :: h in HotPool(frequency) && h in a.selection)
        && (exists c :: c in ColdPool(frequency) && c in a.selection)
  {
    if start + 2 <= |random| {
      var h := HotBall(frequency, random[start]);
      var c := ColdBall(frequency, random[start + 1]);
      HotColdPools(frequency);
      GrowFacts(frequency, random, AddToSet([h], c), start + 2);
    }
  }

  /** Where attempt number `t` starts in the stream. */
  function AttemptStart(frequency: seq<int>, random: seq<real>, t: nat): (start: nat)
    requires |frequency| == 46 && UnitValues(random)
    ensures start <= |random|
  {
    if t == 0 then 0 else Attempt(frequency, random, AttemptStart(frequency, random, t - 1)).next
  }

  /** `Math.abs(odds - evens) <= 2` with `evens = 6 - odds`. */
  predicate BalancedParity(numbers: seq<int>)
  {
    var odds := Count(numbers, IsOdd);
    -2 <= odds - (6 - odds) <= 2
  }

  /** Attempt `t` filled its selection and failed the odd/even test. */
  ghost predicate Rejected(frequency: seq<int>, random: seq<real>, t: nat)
    requires |frequency| == 46 && UnitValues(random)
  {
    var a := Attempt(frequency, random, AttemptStart(frequency, random, t));
    a.complete && !BalancedParity(SortNumbers(a.selection))
  }

  /** Attempts `0 .. n - 1` were all rejected. */
  ghost predicate AllRejected(frequency: seq<int>, random: seq<real>, n: nat)
    requires |frequency| == 46 && UnitValues(random)
  {
    forall t :: 0 <= t < n ==> Rejected(frequency, random, t)
  }

  /** A further rejected attempt extends the run and moves the start to where it stopped. */
  lemma RejectedStep(frequency: seq<int>, random: seq<real>, n: nat, selection: seq<int>, next: nat)
    requires |frequency| == 46 && UnitValues(random)
    requires AllRejected(frequency, random, n)
    requires Filled(selection, next, true) == Attempt(frequency, random, AttemptStart(frequency, random, n))
    requires !BalancedParity(SortNumbers(selection))
    ensures AllRejected(frequency, random, n + 1)
    ensures AttemptStart(frequency, random, n + 1) == next
  {
  }

  /** A finished selection: six distinct balls in 1..45, one hot and one cold among them. */
  ghost predicate Complete(frequency: seq<int>, selection: seq<int>)
    requires |frequency| == 46
  {
    && |selection| == 6
    && Distinct(selection)
    && (forall x :: x in selection ==> 1 <= x <= 45)
    && (exists h :: h in HotPool(frequency) && h in selection)
    && (exists c :: c in ColdPool(frequency) && c in selection)
  }

  /**
   * One attempt's selection: a hot and a cold ball, then weighted picks until
   * six distinct balls are held. `complete` is false when the stream ran out.
   */
  method FillSelection(frequency: seq<int>, random: seq<real>, start: nat)
      returns (selection: seq<int>, next: nat, complete: bool)
    requires |frequency| == 46
    requires UnitValues(random) && start <= |random|
    ensures Filled(selection, next, complete) == Attempt(frequency, random, start)
    ensures start <= next <= |random|
    ensures !complete ==> next + 2 > |random|
    ensures complete ==> Complete(frequency, selection)
  {
    AttemptFacts(frequency, random, start);
    next := start;
    if next + 2 > |random| {
      return [], next, false;
    }
    var weights := Weights(frequency);
    var pool := BallPool();
    var h := HotBall(frequency, random[next]);
    var c := ColdBall(frequency, random[next + 1]);
    selection := AddToSet([h], c);
    next := next + 2;

    while |selection| < 6
      invariant start + 2 <= next <= |random|
      invariant Grow(frequency, random, selection, next) == Attempt(frequency, random, start)
      decreases |random| - next
    {
      if next == |random| {
        return selection, next, false;
      }
      var pick := WeightedPick(pool, weights, random[next]);
      assert pick == Pick(frequency, random[next]);
      next := next + 1;
      selection := AddToSet(selection, pick);
    }
    complete := true;
  }

  /** Sorting a complete selection keeps its balls, now strictly ascending. */
  lemma SortedSelection(selection: seq<int>)
    requires |selection| == 6 && Distinct(selection)
    requires forall x :: x in selection ==> 1 <= x <= 45
    ensures |SortNumbers(selection)| == 6
    ensures StrictlyAscending(SortNumbers(selection))
    ensures forall k :: 0 <= k < 6 ==> 1 <= SortNumbers(selection)[k] <= 45
    ensures forall x :: x in selection <==> x in SortNumbers(selection)
  {
    var numbers := SortNumbers(selection);
    SortDistinctNumbers(selection);
    forall k | 0 <= k < 6 ensures 1 <= numbers[k] <= 45 {
      assert numbers[k] in multiset(selection);
      assert numbers[k] in selection;
    }
    forall x ensures x in selection <==> x in numbers {
      assert x in selection <==> x in multiset(selection);
      assert x in numbers <==> x in multiset(numbers);
    }
  }

  /**
   * An accepted recommendation: six strictly ascending balls 1..45, two to
   * four of them odd, holding a hot and a cold ball.
   */
  ghost predicate Recommended(frequency: seq<int>, numbers: seq<int>)
    requires |frequency| == 46
  {
    && |numbers| == 6
    && StrictlyAscending(numbers)
    && (forall k :: 0 <= k < 6 ==> 1 <= numbers[k] <= 45)
    && 2 <= Count(numbers, IsOdd) <= 4
    && (exists h :: h in HotPool(frequency) && h in numbers)
    && (exists c :: c in ColdPool(frequency) && c in numbers)
  }

  /** The fallback's shape: six balls 1..45 in non-decreasing order. */
  ghost predicate FallbackShape(numbers: seq<int>)
  {
    && |numbers| == 6
    && Ascending(numbers)
    && (forall k :: 0 <= k < 6 ==> 1 <= numbers[k] <= 45)
  }

  /** A complete selection that passes the odd/even test, once sorted, is an accepted recommendation. */
  lemma AcceptedAttempt(frequency: seq<int>, selection: seq<int>)
    requires |frequency| == 46
    requires Complete(frequency, selection)
    requires BalancedParity(SortNumbers(selection))
    ensures Recommended(frequency, SortNumbers(selection))
  {
    SortedSelection(selection);
    var h :| h in HotPool(frequency) && h in selection;
    var c :| c in ColdPool(frequency) && c in selection;
    assert h in SortNumbers(selection) && c in SortNumbers(selection);
  }

  /** The fallback drawn from stream position `start`. */
  method DrawFallback(random: seq<real>, start: nat) returns (numbers: seq<int>)
    requires UnitValues(random) && start + 6 <= |random|
    ensures numbers == FallbackDraw(random[start..start + 6])
    ensures FallbackShape(numbers)
  {
    var rs := random[start..start + 6];
    UnitSlice(random, start, start + 6);
    FallbackFacts(rs);
    numbers := FallbackDraw(rs);
  }

  /**
   * The attempt loop: up to 120 attempts, stopping at the first one whose
   * sorted selection passes the odd/even test (`Balanced`) or that runs out of
   * stream (`OutOfChoices`); after 120 rejections it answers `OutOfChoices`
   * with `tried == ATTEMPTS`. `tried` counts the rejected attempts, and the
   * deciding attempt, or what follows the loop, starts at `next`.
   */
  method TryAttempts(frequency: seq<int>, random: seq<real>) returns (sample: Sample, next: nat, tried: nat)
    requires |frequency| == 46
    requires UnitValues(random)
    ensures tried <= ATTEMPTS && next == AttemptStart(frequency, random, tried)
    ensures AllRejected(frequency, random, tried)
    ensures !sample.Fallback?
    ensures sample.Balanced? ==>
      && tried < ATTEMPTS
      && Attempt(frequency, random, next).complete
      && sample.numbers == SortNumbers(Attempt(frequency, random, next).selection)
      && BalancedParity(sample.numbers)
    ensures sample.Balanced? ==> Recommended(frequency, sample.numbers)
    ensures sample.OutOfChoices? && tried < ATTEMPTS ==>
      !Attempt(frequency, random, next).complete && Attempt(frequency, random, next).next + 2 > |random|
  {
    next, tried := 0, 0;
    for attempt := 0 to ATTEMPTS
      invariant next == AttemptStart(frequency, random, attempt)
      invariant tried == attempt
      invariant AllRejected(frequency, random, attempt)
    {
      var selection, after, complete := FillSelection(frequency, random, next);
      if !complete {
        return OutOfChoices, next, tried;
      }
      var numbers := SortNumbers(selection);
      var odds: int := Count(numbers, IsOdd);
      var evens: int := 6 - odds;
      if -2 <= odds - evens <= 2 {
        AcceptedAttempt(frequency, selection);
        return Balanced(numbers), next, tried;
      }
      RejectedStep(frequency, random, attempt, selection, after);
      next, tried := after, tried + 1;
    }
    sample := OutOfChoices;
  }

  /**
   * `generateRecommendation`: up to 120 attempts, each seeding the selection
   * with a hot and a cold ball and filling it to six distinct balls by weighted
   * picks; an attempt whose odd and even counts differ by at most 2 is returned,
   * and after the last attempt six uniform balls are returned instead.
   *
   * `tried` counts the attempts rejected before the outcome and `used` is the
   * stream position where the deciding step starts.
   */
  method GenerateRecommendation(frequency: seq<int>, random: seq<real>)
      returns (sample: Sample, ghost tried: nat, ghost used: nat)
    requires |frequency| == 46
    requires UnitValues(random)
    ensures tried <= ATTEMPTS && used == AttemptStart(frequency, random, tried)
    ensures AllRejected(frequency, random, tried)
    ensures sample.Balanced? ==>
      && tried < ATTEMPTS
      && Attempt(frequency, random, used).complete
      && sample.numbers == SortNumbers(Attempt(frequency, random, used).selection)
      && BalancedParity(sample.numbers)
    ensures sample.Balanced? ==> Recommended(frequency, sample.numbers)
    ensures sample.Fallback? ==>
      && tried == ATTEMPTS && used + 6 <= |random|
      && sample.numbers == FallbackDraw(random[used..used + 6])
    ensures sample.Fallback? ==> FallbackShape(sample.numbers)
    ensures sample.OutOfChoices? ==>
      if tried < ATTEMPTS then
        !Attempt(frequency, random, used).complete && Attempt(frequency, random, used).next + 2 > |random|
      else used + 6 > |random|
  {
    var next, attempts;
    sample, next, attempts := TryAttempts(frequency, random);
    tried, used := attempts, next;
    if sample.OutOfChoices? && attempts == ATTEMPTS && next + 6 <= |random| {
      var numbers := DrawFallback(random, next);
      sample := Fallback(numbers);
    }
  }
}
