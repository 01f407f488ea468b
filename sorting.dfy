/**
 * `Array.prototype.sort` with a comparator, as the sources use it.
 *
 * A comparator `cmp` is modelled by the relation `less(a, b) == (cmp(a, b) < 0)`:
 * `less(a, b)` holds when `a` must come before `b`. Since ES2019 the sort is
 * stable, so it agrees with the stable insertion sort below: each element is
 * inserted in front of the first element it is strictly less than, that is,
 * after every element it ties with.
 */
module Sorting {

  /** A strict order: irreflexive and transitive (hence also asymmetric). */
  ghost predicate StrictOrder<T(!new)>(less: (T, T) -> bool)
  {
    && (forall a :: !less(a, a))
    && (forall a, b, c :: less(a, b) && less(b, c) ==> less(a, c))
  }

  /** No later element must come before an earlier one. */
  ghost predicate SortedBy<T>(s: seq<T>, less: (T, T) -> bool)
  {
    forall i, j :: 0 <= i < j < |s| ==> !less(s[j], s[i])
  }

  /** Inserts `x` in front of the first element of `s` that `x` is strictly less than. */
  function Insert<T(==)>(s: seq<T>, x: T, less: (T, T) -> bool): (r: seq<T>)
    ensures |r| == |s| + 1
    ensures multiset(r) == multiset(s) + multiset{x}
  {
    if s == [] || less(x, s[0]) then [x] + s
    else
      assert s == [s[0]] + s[1..];
      [s[0]] + Insert(s[1..], x, less)
  }

  /** The stable sort of `s` under `less`: the last element is inserted into the sorted prefix. */
  function SortBy<T(==)>(s: seq<T>, less: (T, T) -> bool): (r: seq<T>)
    ensures |r| == |s|
    ensures multiset(r) == multiset(s)
  {
    if s == [] then []
    else
      assert s == s[..|s| - 1] + [s[|s| - 1]];
      Insert(SortBy(s[..|s| - 1], less), s[|s| - 1], less)
  }

  lemma {:induction false} InsertSorted<T(!new)>(s: seq<T>, x: T, less: (T, T) -> bool)
    requires StrictOrder(less)
    requires SortedBy(s, less)
    ensures SortedBy(Insert(s, x, less), less)
  {
    if s == [] || less(x, s[0]) {
      var r := [x] + s;
      forall i, j | 0 <= i < j < |r| ensures !less(r[j], r[i]) {
        if i == 0 {
          assert r[j] == s[j - 1];
          assert !less(s[j - 1], s[0]);
        } else {
          assert r[i] == s[i - 1] && r[j] == s[j - 1];
        }
      }
    } else {
      var tail := Insert(s[1..], x, less);
      assert SortedBy(s[1..], less);
      InsertSorted(s[1..], x, less);
      var r := [s[0]] + tail;
      forall i, j | 0 <= i < j < |r| ensures !less(r[j], r[i]) {
        if i == 0 {
          var e := r[j];
          assert e in multiset(tail);
          assert e in multiset(s[1..]) || e == x;
          if e != x {
            var k :| 0 <= k < |s[1..]| && s[1..][k] == e;
            assert s[k + 1] == e;
          }
        } else {
          assert r[i] == tail[i - 1] && r[j] == tail[j - 1];
        }
      }
    }
  }

  lemma {:induction false} SortBySorted<T(!new)>(s: seq<T>, less: (T, T) -> bool)
    requires StrictOrder(less)
    ensures SortedBy(SortBy(s, less), less)
  {
    if s != [] {
      SortBySorted(s[..|s| - 1], less);
      InsertSorted(SortBy(s[..|s| - 1], less), s[|s| - 1], less);
    }
  }

  /** The comparator `(a, b) => a - b`: ascending numeric order. */
  predicate NumLess(a: int, b: int)
  {
    a < b
  }

  /** `numbers.sort((a, b) => a - b)`. */
  function SortNumbers(s: seq<int>): (r: seq<int>)
  {
    SortBy(s, NumLess)
  }

  ghost predicate Ascending(s: seq<int>)
  {
    forall i, j :: 0 <= i < j < |s| ==> s[i] <= s[j]
  }

  ghost predicate StrictlyAscending(s: seq<int>)
  {
    forall i, j :: 0 <= i < j < |s| ==> s[i] < s[j]
  }

  ghost predicate Distinct<T>(s: seq<T>)
  {
    forall i, j :: 0 <= i < j < |s| ==> s[i] != s[j]
  }

  /** Sorting numbers yields an ascending permutation of them. */
  lemma SortNumbersAscending(s: seq<int>)
    ensures |SortNumbers(s)| == |s|
    ensures multiset(SortNumbers(s)) == multiset(s)
    ensures Ascending(SortNumbers(s))
  {
    SortBySorted(s, NumLess);
  }

  /** Two equal entries at different positions are counted twice by the multiset. */
  lemma {:induction false} RepeatCounted<T>(s: seq<T>, i: nat, j: nat)
    requires i < j < |s| && s[i] == s[j]
    ensures multiset(s)[s[i]] >= 2
  {
    assert s == s[..j] + [s[j]] + s[j + 1..];
    assert s[i] in multiset(s[..j]) by { assert s[..j][i] == s[i]; }
    assert multiset(s) == multiset(s[..j]) + multiset{s[j]} + multiset(s[j + 1..]);
  }

  /** A permutation of a repetition-free sequence is repetition-free. */
  lemma DistinctPermutation<T>(s: seq<T>, r: seq<T>)
    requires Distinct(s)
    requires multiset(r) == multiset(s)
    ensures Distinct(r)
  {
    forall i, j | 0 <= i < j < |r| ensures r[i] != r[j] {
      if r[i] == r[j] {
        RepeatCounted(r, i, j);
        DistinctCountedOnce(s, r[i]);
      }
    }
  }

  lemma {:induction false} DistinctCountedOnce<T>(s: seq<T>, x: T)
    requires Distinct(s)
    ensures multiset(s)[x] <= 1
  {
    if s != [] {
      var t := s[..|s| - 1];
      assert s == t + [s[|s| - 1]];
      assert Distinct(t);
      DistinctCountedOnce(t, x);
      if x == s[|s| - 1] {
        forall k | 0 <= k < |t| ensures t[k] != x {
          assert s[k] != s[|s| - 1];
        }
        assert x !in t;
      }
    }
  }

  /** Sorting repetition-free numbers yields a strictly ascending permutation of them. */
  lemma SortDistinctNumbers(s: seq<int>)
    requires Distinct(s)
    ensures |SortNumbers(s)| == |s|
    ensures multiset(SortNumbers(s)) == multiset(s)
    ensures StrictlyAscending(SortNumbers(s))
  {
    var r := SortNumbers(s);
    SortNumbersAscending(s);
    DistinctPermutation(s, r);
  }
}
