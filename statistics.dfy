/**
 * `computeStats` of main.js: frequency of every ball, odd/even and low/high
 * rates, and the average sum, over a window of draws.
 *
 * JavaScript's `Math.round(x)` is `floor(x + 0.5)`; the rates and the average
 * are computed here with that half-up rule on exact rationals.
 */
module Statistics {
  import opened LottoDraw
  import opened Sorting

  /** The balls 1..22 are "low", 23..45 "high". */
  const LOW_MAX: int := 22

  datatype Stats = Stats(
    frequency: seq<int>,
    totalNumbers: int,
    oddRate: int,
    evenRate: int,
    highRate: int,
    lowRate: int,
    avgSum: int)

  predicate IsOdd(n: int) { n % 2 != 0 }
  predicate IsEven(n: int) { n % 2 == 0 }
  predicate IsLow(n: int) { n <= LOW_MAX }
  predicate IsHigh(n: int) { n > LOW_MAX }

  /** All numbers of the window, draw after draw, each draw's numbers in ascending order. */
  function Numbers(draws: seq<Draw>): seq<int>
  {
    if draws == [] then []
    else Numbers(draws[..|draws| - 1]) + DrawToNumbers(draws[|draws| - 1])
  }

  /** How many elements of `s` satisfy `p`. */
  function Count(s: seq<int>, p: int -> bool): nat
  {
    if s == [] then 0
    else Count(s[..|s| - 1], p) + (if p(s[|s| - 1]) then 1 else 0)
  }

  /** How many times `x` occurs in `s`. */
  function Occurrences(s: seq<int>, x: int): nat
  {
    if s == [] then 0
    else Occurrences(s[..|s| - 1], x) + (if s[|s| - 1] == x then 1 else 0)
  }

  lemma {:induction false} OccurrencesAppend(a: seq<int>, b: seq<int>, x: int)
    ensures Occurrences(a + b, x) == Occurrences(a, x) + Occurrences(b, x)
    decreases |b|
  {
    if b == [] {
      assert a + b == a;
    } else {
      assert (a + b)[..|a + b| - 1] == a + b[..|b| - 1];
      assert (a + b)[|a + b| - 1] == b[|b| - 1];
      OccurrencesAppend(a, b[..|b| - 1], x);
    }
  }

  lemma {:induction false} OccurrencesMultiset(s: seq<int>, x: int)
    ensures Occurrences(s, x) == multiset(s)[x]
    decreases |s|
  {
    if s != [] {
      assert s == s[..|s| - 1] + [s[|s| - 1]];
      OccurrencesMultiset(s[..|s| - 1], x);
    }
  }

  function Sum(s: seq<int>): int
  {
    if s == [] then 0 else Sum(s[..|s| - 1]) + s[|s| - 1]
  }

  /** `Math.round(part / total * 100)`, and 0 when `total` is 0. */
  function Percent(part: int, total: int): int
  {
    if total == 0 then 0 else (200 * part + total) / (2 * total)
  }

  /** `Math.round(sum / n)`, and 0 when there are no draws. */
  function RoundedMean(sum: int, n: int): int
  {
    if n == 0 then 0 else (2 * sum + n) / (2 * n)
  }

  /** Slot `k` holds how many times ball `k` was drawn; slot 0 is unused. */
  function FrequencyOf(nums: seq<int>): seq<int>
  {
    seq(46, k => multiset(nums)[k])
  }

  lemma FrequencyOfAt(freq: seq<int>, nums: seq<int>)
    requires |freq| == 46
    requires forall k :: 0 <= k < 46 ==> freq[k] == Occurrences(nums, k)
    ensures freq == FrequencyOf(nums)
  {
    forall k | 0 <= k < 46
      ensures freq[k] == FrequencyOf(nums)[k]
    {
      OccurrencesMultiset(nums, k);
    }
  }

  /** What the statistics of a window are, stated from the multiset of its numbers and counts over it. */
  function StatsOf(draws: seq<Draw>): Stats
  {
    var nums := Numbers(draws);
    var total := 6 * |draws|;
    Stats(
      FrequencyOf(nums),
      total,
      Percent(Count(nums, IsOdd), total),
      Percent(Count(nums, IsEven), total),
      Percent(Count(nums, IsHigh), total),
      Percent(Count(nums, IsLow), total),
      RoundedMean(Sum(nums), |draws|))
  }

  /** The four counters `computeStats` keeps while it walks the numbers. */
  datatype Tally = Tally(odd: nat, even: nat, high: nat, low: nat)

  /** The counters after one more number. */
  function Tick(t: Tally, x: int): Tally
  {
    Tally(
      t.odd + (if IsOdd(x) then 1 else 0),
      t.even + (if IsEven(x) then 1 else 0),
      t.high + (if IsHigh(x) then 1 else 0),
      t.low + (if IsLow(x) then 1 else 0))
  }

  function TallyOf(s: seq<int>): Tally
  {
    if s == [] then Tally(0, 0, 0, 0) else Tick(TallyOf(s[..|s| - 1]), s[|s| - 1])
  }

  /** The counters are the four counts of the numbers seen. */
  lemma {:induction false} TallyCounts(s: seq<int>)
    ensures TallyOf(s) == Tally(Count(s, IsOdd), Count(s, IsEven), Count(s, IsHigh), Count(s, IsLow))
    decreases |s|
  {
    if s != [] {
      TallyCounts(s[..|s| - 1]);
    }
  }

  /** The inner loop of `computeStats`: one draw's numbers added to the frequency array and the counters. */
  method AddNumbers(frequency: array<int>, tally: Tally, ghost before: seq<int>, numbers: seq<int>)
      returns (after: Tally)
    requires frequency.Length == 46
    requires forall j :: 0 <= j < |numbers| ==> 1 <= numbers[j] <= 45
    requires tally == TallyOf(before)
    modifies frequency
    ensures after == TallyOf(before + numbers)
    ensures forall k :: 0 <= k < 46 ==>
      frequency[k] == old(frequency[k]) + Occurrences(numbers, k)
  {
    after := tally;
    assert numbers[..0] == [] && before + [] == before;
    var j := 0;
    while j < |numbers|
      invariant 0 <= j <= |numbers|
      invariant after == TallyOf(before + numbers[..j])
      invariant forall k :: 0 <= k < 46 ==>
        frequency[k] == old(frequency[k]) + Occurrences(numbers[..j], k)
    {
      var num := numbers[j];
      AddStep(before, numbers, j);
      frequency[num] := frequency[num] + 1;
      ghost var prev := after;
      if num % 2 == 0 {
        after := after.(even := after.even + 1);
      } else {
        after := after.(odd := after.odd + 1);
      }
      if num <= LOW_MAX {
        after := after.(low := after.low + 1);
      } else {
        after := after.(high := after.high + 1);
      }
      assert after == Tick(prev, num);
      j := j + 1;
    }
    assert numbers[..|numbers|] == numbers;
  }

  /** Taking one more of `numbers` ticks the counters once and adds one occurrence of that number. */
  lemma AddStep(before: seq<int>, numbers: seq<int>, j: int)
    requires 0 <= j < |numbers|
    ensures TallyOf(before + numbers[..j + 1]) == Tick(TallyOf(before + numbers[..j]), numbers[j])
    ensures forall k ::
      Occurrences(numbers[..j + 1], k) == Occurrences(numbers[..j], k) + (if numbers[j] == k then 1 else 0)
  {
    var seen := before + numbers[..j];
    assert before + numbers[..j + 1] == seen + [numbers[j]];
    assert (seen + [numbers[j]])[..|seen|] == seen;
    assert numbers[..j + 1][..j] == numbers[..j];
  }

  /** Slot `k` of `freq` counts the occurrences of `k` in `nums`, for every slot 0..45. */
  ghost predicate Counted(freq: seq<int>, nums: seq<int>)
  {
    |freq| == 46 && forall k :: 0 <= k < 46 ==> freq[k] == Occurrences(nums, k)
  }

  lemma CountedAppend(freq: seq<int>, next: seq<int>, before: seq<int>, numbers: seq<int>)
    requires Counted(freq, before) && |next| == 46
    requires forall k :: 0 <= k < 46 ==> next[k] == freq[k] + Occurrences(numbers, k)
    ensures Counted(next, before + numbers)
  {
    forall k | 0 <= k < 46 ensures next[k] == Occurrences(before + numbers, k) {
      OccurrencesAppend(before, numbers, k);
    }
  }

  /** The totals accumulated over a window give its statistics, with the source's guards against an empty window. */
  lemma StatsFromTotals(draws: seq<Draw>, freq: seq<int>, tally: Tally, sumTotal: int)
    requires Counted(freq, Numbers(draws))
    requires tally == TallyOf(Numbers(draws)) && sumTotal == Sum(Numbers(draws))
    ensures var total := |draws| * 6;
      Stats(
        freq,
        total,
        if total != 0 then Percent(tally.odd, total) else 0,
        if total != 0 then Percent(tally.even, total) else 0,
        if total != 0 then Percent(tally.high, total) else 0,
        if total != 0 then Percent(tally.low, total) else 0,
        if |draws| != 0 then RoundedMean(sumTotal, |draws|) else 0)
      == StatsOf(draws)
  {
    var nums := Numbers(draws);
    var total := |draws| * 6;
    FrequencyOfAt(freq, nums);
    TallyCounts(nums);
    var expected := StatsOf(draws);
    assert expected.frequency == freq && expected.totalNumbers == total;
    assert expected.oddRate == Percent(tally.odd, total);
    assert expected.evenRate == Percent(tally.even, total);
    assert expected.highRate == Percent(tally.high, total);
    assert expected.lowRate == Percent(tally.low, total);
    assert expected.avgSum == RoundedMean(sumTotal, |draws|);
  }

  /** The loop of `computeStats`: every draw's numbers are added to a fresh 46-slot array and the counters. */
  method Accumulate(draws: seq<Draw>) returns (frequency: array<int>, tally: Tally, sumTotal: int)
    requires forall d :: d in draws ==> ValidDraw(d)
    ensures fresh(frequency)
    ensures Counted(frequency[..], Numbers(draws))
    ensures tally == TallyOf(Numbers(draws)) && sumTotal == Sum(Numbers(draws))
  {
    frequency := new int[46](_ => 0);
    tally := Tally(0, 0, 0, 0);
    sumTotal := 0;
    assert Numbers(draws[..0]) == [];

    var i := 0;
    while i < |draws|
      invariant 0 <= i <= |draws|
      invariant Counted(frequency[..], Numbers(draws[..i]))
      invariant tally == TallyOf(Numbers(draws[..i]))
      invariant sumTotal == Sum(Numbers(draws[..i]))
    {
      var numbers := DrawToNumbers(draws[i]);
      assert draws[i] in draws;
      DrawToNumbersFacts(draws[i]);
      ghost var before := Numbers(draws[..i]);
      ghost var counted := frequency[..];
      tally := AddNumbers(frequency, tally, before, numbers);
      sumTotal := sumTotal + Sum(numbers);
      NumbersSnoc(draws, i);
      SumAppend(before, numbers);
      CountedAppend(counted, frequency[..], before, numbers);
      i := i + 1;
    }
    assert draws[..|draws|] == draws;
  }

  /** `computeStats`: the accumulated totals turned into rates and an average, guarding against an empty window. */
  method ComputeStats(draws: seq<Draw>) returns (stats: Stats)
    requires forall d :: d in draws ==> ValidDraw(d)
    ensures stats == StatsOf(draws)
  {
    var frequency, tally, sumTotal := Accumulate(draws);
    StatsFromTotals(draws, frequency[..], tally, sumTotal);
    var totalNumbers := |draws| * 6;
    var avgSum := if |draws| != 0 then RoundedMean(sumTotal, |draws|) else 0;
    stats := Stats(
      frequency[..],
      totalNumbers,
      if totalNumbers != 0 then Percent(tally.odd, totalNumbers) else 0,
      if totalNumbers != 0 then Percent(tally.even, totalNumbers) else 0,
      if totalNumbers != 0 then Percent(tally.high, totalNumbers) else 0,
      if totalNumbers != 0 then Percent(tally.low, totalNumbers) else 0,
      avgSum);
  }

  lemma NumbersSnoc(draws: seq<Draw>, i: int)
    requires 0 <= i < |draws|
    ensures Numbers(draws[..i + 1]) == Numbers(draws[..i]) + DrawToNumbers(draws[i])
  {
    assert draws[..i + 1][..i] == draws[..i];
  }

  lemma {:induction false} SumAppend(a: seq<int>, b: seq<int>)
    ensures Sum(a + b) == Sum(a) + Sum(b)
    decreases |b|
  {
    if b == [] {
      assert a + b == a;
    } else {
      assert (a + b)[..|a + b| - 1] == a + b[..|b| - 1];
      assert (a + b)[|a + b| - 1] == b[|b| - 1];
      SumAppend(a, b[..|b| - 1]);
    }
  }


  // ---------------------------------------------------------------------------
  // Properties of the statistics
  // ---------------------------------------------------------------------------

  /** Each valid draw contributes six balls in 1..45. */
  lemma {:induction false} NumbersFacts(draws: seq<Draw>)
    requires forall d :: d in draws ==> ValidDraw(d)
    ensures |Numbers(draws)| == 6 * |draws|
    ensures forall j :: 0 <= j < |Numbers(draws)| ==> 1 <= Numbers(draws)[j] <= 45
    decreases |draws|
  {
    if draws != [] {
      var init := draws[..|draws| - 1];
      var d := draws[|draws| - 1];
      assert forall e :: e in init ==> e in draws;
      NumbersFacts(init);
      DrawToNumbersFacts(d);
      var a, b := Numbers(init), DrawToNumbers(d);
      forall j | 0 <= j < |a + b|
        ensures 1 <= (a + b)[j] <= 45
      {
        if j < |a| {
          assert (a + b)[j] == a[j];
        } else {
          assert (a + b)[j] == b[j - |a|];
        }
      }
    }
  }

  /** Every number is odd or even, and low or high, and never both. */
  lemma {:induction false} CountsPartition(s: seq<int>)
    ensures Count(s, IsOdd) + Count(s, IsEven) == |s|
    ensures Count(s, IsLow) + Count(s, IsHigh) == |s|
    decreases |s|
  {
    if s != [] {
      CountsPartition(s[..|s| - 1]);
    }
  }

  /** The total count of the balls `lo..hi-1` in `s`. */
  function OccurrencesBetween(s: seq<int>, lo: int, hi: int): nat
    decreases hi - lo
  {
    if hi <= lo then 0 else OccurrencesBetween(s, lo, hi - 1) + Occurrences(s, hi - 1)
  }

  lemma {:induction false} OccurrencesBetweenSnoc(s: seq<int>, x: int, lo: int, hi: int)
    ensures OccurrencesBetween(s + [x], lo, hi)
      == OccurrencesBetween(s, lo, hi) + (if lo <= x < hi then 1 else 0)
    decreases hi - lo
  {
    assert (s + [x])[..|s|] == s;
    if lo < hi {
      OccurrencesBetweenSnoc(s, x, lo, hi - 1);
    }
  }

  /** When every element lies in `lo..hi-1`, the per-ball counts add up to the length. */
  lemma {:induction false} OccurrencesBetweenAll(s: seq<int>, lo: int, hi: int)
    requires forall j :: 0 <= j < |s| ==> lo <= s[j] < hi
    ensures OccurrencesBetween(s, lo, hi) == |s|
    decreases |s|
  {
    if s == [] {
      ZeroBetween(lo, hi);
    } else {
      var init := s[..|s| - 1];
      assert s == init + [s[|s| - 1]];
      OccurrencesBetweenAll(init, lo, hi);
      OccurrencesBetweenSnoc(init, s[|s| - 1], lo, hi);
    }
  }

  lemma {:induction false} ZeroBetween(lo: int, hi: int)
    ensures OccurrencesBetween([], lo, hi) == 0
    decreases hi - lo
  {
    if lo < hi {
      ZeroBetween(lo, hi - 1);
    }
  }

  lemma {:induction false} FrequencyPrefixSum(nums: seq<int>, hi: int)
    requires 0 <= hi <= 46
    ensures Sum(FrequencyOf(nums)[..hi]) == OccurrencesBetween(nums, 0, hi)
    decreases hi
  {
    if hi > 0 {
      var f := FrequencyOf(nums);
      assert f[..hi][..hi - 1] == f[..hi - 1];
      FrequencyPrefixSum(nums, hi - 1);
      OccurrencesMultiset(nums, hi - 1);
    }
  }

  /**
   * The frequency table accounts for every number drawn exactly once: slot 0
   * stays empty and the slots add up to `totalNumbers`.
   */
  lemma FrequencyTotal(draws: seq<Draw>)
    requires forall d :: d in draws ==> ValidDraw(d)
    ensures |StatsOf(draws).frequency| == 46
    ensures StatsOf(draws).frequency[0] == 0
    ensures Sum(StatsOf(draws).frequency) == StatsOf(draws).totalNumbers
  {
    var nums := Numbers(draws);
    NumbersFacts(draws);
    var f := FrequencyOf(nums);
    OccurrencesMultiset(nums, 0);
    assert Occurrences(nums, 0) == OccurrencesBetween(nums, 0, 1) - OccurrencesBetween(nums, 0, 0);
    OccurrencesBetweenAll(nums, 1, 46);
    OccurrencesBetweenAll(nums, 0, 46);
    FrequencyPrefixSum(nums, 46);
    assert f[..46] == f;
  }

  // ---------------------------------------------------------------------------
  // Rounding
  // ---------------------------------------------------------------------------

  lemma DivBounds(a: int, b: int, lo: int, hi: int)
    requires b > 0
    requires b * lo <= a < b * (hi + 1)
    ensures lo <= a / b <= hi
  {
    var q, r := a / b, a % b;
    assert a == b * q + r && 0 <= r < b;
    if q < lo {
      MulMonotone(b, q + 1, lo);
    }
    if q > hi {
      MulMonotone(b, hi + 1, q);
    }
  }

  lemma MulMonotone(b: int, x: int, y: int)
    requires b > 0 && x <= y
    ensures b * x <= b * y
  {
    assert b * y - b * x == b * (y - x);
  }

  /** A share of a positive total rounds to a percentage in 0..100. */
  lemma PercentBounds(part: int, total: int)
    requires 0 <= part <= total
    ensures 0 <= Percent(part, total) <= 100
  {
    if total > 0 {
      DivBounds(200 * part + total, 2 * total, 0, 100);
    }
  }

  /** Two complementary shares round to 100 or, when both halves round up, to 101. */
  lemma PercentComplement(a: int, b: int, total: int)
    requires 0 <= a && 0 <= b && a + b == total && total > 0
    ensures 100 <= Percent(a, total) + Percent(b, total) <= 101
  {
    var d := 2 * total;
    var x, y := 200 * a + total, 200 * b + total;
    var qx, qy := x / d, y / d;
    assert d * qx <= x < d * qx + d;
    assert d * qy <= y < d * qy + d;
    assert x + y == d * 101;
    assert d * (qx + qy) == d * qx + d * qy;
    if qx + qy > 101 {
      MulMonotone(d, 102, qx + qy);
    }
    if qx + qy < 100 {
      MulMonotone(d, qx + qy + 1, 100);
    }
  }

  /** Every rate is a percentage. */
  lemma RatesArePercentages(draws: seq<Draw>)
    requires forall d :: d in draws ==> ValidDraw(d)
    ensures 0 <= StatsOf(draws).oddRate <= 100 && 0 <= StatsOf(draws).evenRate <= 100
    ensures 0 <= StatsOf(draws).highRate <= 100 && 0 <= StatsOf(draws).lowRate <= 100
  {
    var nums := Numbers(draws);
    NumbersFacts(draws);
    CountsPartition(nums);
    PercentBounds(Count(nums, IsOdd), 6 * |draws|);
    PercentBounds(Count(nums, IsEven), 6 * |draws|);
    PercentBounds(Count(nums, IsHigh), 6 * |draws|);
    PercentBounds(Count(nums, IsLow), 6 * |draws|);
  }

  /**
   * Over a non-empty window the odd and even rates, and the high and low rates,
   * add up to 100 (101 when both halves of a split round up).
   */
  lemma ComplementaryRates(draws: seq<Draw>)
    requires forall d :: d in draws ==> ValidDraw(d)
    requires draws != []
    ensures 100 <= StatsOf(draws).oddRate + StatsOf(draws).evenRate <= 101
    ensures 100 <= StatsOf(draws).highRate + StatsOf(draws).lowRate <= 101
  {
    var nums := Numbers(draws);
    NumbersFacts(draws);
    CountsPartition(nums);
    PercentComplement(Count(nums, IsOdd), Count(nums, IsEven), 6 * |draws|);
    PercentComplement(Count(nums, IsHigh), Count(nums, IsLow), 6 * |draws|);
  }

  lemma {:induction false} SumBounds(s: seq<int>, lo: int, hi: int)
    requires forall j :: 0 <= j < |s| ==> lo <= s[j] <= hi
    ensures lo * |s| <= Sum(s) <= hi * |s|
    decreases |s|
  {
    if s != [] {
      var init := s[..|s| - 1];
      SumBounds(init, lo, hi);
      assert lo * |s| == lo * |init| + lo && hi * |s| == hi * |init| + hi;
    }
  }

  /** The average sum of a non-empty window lies between 6 (all ones) and 270 (all 45s). */
  lemma AverageSumBounds(draws: seq<Draw>)
    requires forall d :: d in draws ==> ValidDraw(d)
    requires draws != []
    ensures 6 <= StatsOf(draws).avgSum <= 270
  {
    var nums := Numbers(draws);
    NumbersFacts(draws);
    SumBounds(nums, 1, 45);
    var n, total := |draws|, Sum(nums);
    assert 6 * n <= total <= 270 * n;
    assert (2 * n) * 6 <= 2 * total + n < (2 * n) * (270 + 1);
    DivBounds(2 * total + n, 2 * n, 6, 270);
    assert StatsOf(draws).avgSum == (2 * total + n) / (2 * n);
  }

  /** An empty window yields zero everywhere: no division by zero. */
  lemma EmptyWindow()
    ensures StatsOf([]) == Stats(seq(46, _ => 0), 0, 0, 0, 0, 0, 0)
  {
    assert Numbers([]) == [];
  }
}
