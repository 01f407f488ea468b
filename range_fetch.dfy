/**
 * `fetchRange` of main.js: the rounds of the trailing window ending at
 * `latestNo` are requested newest first, in batches of at most twelve, and
 * the draws that come back are kept in request order.
 *
 * `fetchDrawSafe` is the parameter `fetch`, which yields `None` for a round
 * the source does not serve (or a failed request). A batch's requests run
 * concurrently in the source; `Promise.all` keeps their order, so they are
 * issued one after another here.
 */
module DrawWindow {
  import opened Wrappers
  import opened LottoDraw
  import opened Resolver

  const BATCH_SIZE: int := 12

  /** The oldest round of the window: never below round 1. */
  function Floor(latestNo: int, range: int): (f: int)
    ensures f >= 1 && f >= latestNo - range + 1
    ensures f == 1 || f == latestNo - range + 1
  {
    Max(1, latestNo - range + 1)
  }

  /** The rounds `hi, hi - 1, ..., lo`; empty when `hi < lo`. */
  function Descending(hi: int, lo: int): seq<int>
    decreases hi - lo
  {
    if hi < lo then [] else [hi] + Descending(hi - 1, lo)
  }

  /** The draws served for `rounds`, in the order of `rounds`. */
  function Collect(fetch: int -> Option<Draw>, rounds: seq<int>): seq<Draw>
  {
    if rounds == [] then []
    else
      var last := fetch(rounds[|rounds| - 1]);
      Collect(fetch, rounds[..|rounds| - 1]) + (if last.Some? then [last.value] else [])
  }

  function Flatten(batches: seq<seq<int>>): seq<int>
  {
    if batches == [] then [] else Flatten(batches[..|batches| - 1]) + batches[|batches| - 1]
  }

  /** Position `i` of `Descending(hi, lo)` is round `hi - i`. */
  lemma {:induction false} DescendingFacts(hi: int, lo: int)
    ensures |Descending(hi, lo)| == if hi < lo then 0 else hi - lo + 1
    ensures forall i :: 0 <= i < |Descending(hi, lo)| ==> Descending(hi, lo)[i] == hi - i
    decreases hi - lo
  {
    if hi >= lo {
      DescendingFacts(hi - 1, lo);
    }
  }

  /** Extending a descending run by the next older round. */
  lemma DescendingSnoc(hi: int, lo: int)
    requires lo <= hi + 1
    ensures Descending(hi, lo - 1) == Descending(hi, lo) + [lo - 1]
  {
    DescendingFacts(hi, lo);
    DescendingFacts(hi, lo - 1);
  }

  /** Two adjacent descending runs make one. */
  lemma DescendingJoin(hi: int, mid: int, lo: int)
    requires lo <= mid + 1 <= hi + 1
    ensures Descending(hi, mid + 1) + Descending(mid, lo) == Descending(hi, lo)
  {
    DescendingFacts(hi, mid + 1);
    DescendingFacts(mid, lo);
    DescendingFacts(hi, lo);
  }

  lemma {:induction false} CollectAppend(fetch: int -> Option<Draw>, a: seq<int>, b: seq<int>)
    ensures Collect(fetch, a + b) == Collect(fetch, a) + Collect(fetch, b)
    decreases |b|
  {
    if b == [] {
      assert a + b == a;
    } else {
      var c := a + b;
      assert c[..|c| - 1] == a + b[..|b| - 1];
      assert c[|c| - 1] == b[|b| - 1];
      CollectAppend(fetch, a, b[..|b| - 1]);
    }
  }

  /**
   * One batch: the rounds from `start` down, at most twelve of them, none
   * older than the window's floor.
   */
  method RequestBatch(latestNo: int, range: int, start: int) returns (batch: seq<int>)
    requires start >= Floor(latestNo, range)
    ensures 1 <= |batch| <= BATCH_SIZE
    ensures batch == Descending(start, start - |batch| + 1)
    ensures start - |batch| + 1 >= Floor(latestNo, range)
    ensures |batch| < BATCH_SIZE ==> start - |batch| + 1 == Floor(latestNo, range)
  {
    batch := [];
    var offset := 0;
    while offset < BATCH_SIZE
      invariant 0 <= offset <= BATCH_SIZE && |batch| == offset
      invariant start - offset + 1 >= Floor(latestNo, range)
      invariant batch == Descending(start, start - offset + 1)
    {
      var drawNo := start - offset;
      if drawNo < 1 || drawNo < latestNo - range + 1 {
        break;
      }
      DescendingSnoc(start, start - offset + 1);
      batch := batch + [drawNo];
      offset := offset + 1;
    }
  }

  /** `results.forEach((item) => { if (item) draws.push(item); })` over one batch. */
  method KeepServed(fetch: int -> Option<Draw>, batch: seq<int>) returns (served: seq<Draw>)
    ensures served == Collect(fetch, batch)
  {
    served := [];
    var k := 0;
    while k < |batch|
      invariant 0 <= k <= |batch|
      invariant served == Collect(fetch, batch[..k])
    {
      var item := fetch(batch[k]);
      assert batch[..k + 1][..k] == batch[..k];
      if item.Some? {
        served := served + [item.value];
      }
      k := k + 1;
    }
    assert batch[..|batch|] == batch;
  }

  /** Every batch holds one to twelve requests. */
  ghost predicate BatchesBounded(batches: seq<seq<int>>)
  {
    forall i :: 0 <= i < |batches| ==> 1 <= |batches[i]| <= BATCH_SIZE
  }

  /**
   * The rounds covered so far, extended by one batch, are the rounds down to
   * the next batch's start, and the draws kept so far, extended by the
   * batch's served draws, are the draws served for them.
   */
  lemma BatchStep(fetch: int -> Option<Draw>, latestNo: int, floor: int, start: int,
                  batches: seq<seq<int>>, batch: seq<int>, draws: seq<Draw>, served: seq<Draw>)
    requires floor <= start <= latestNo && 1 <= |batch| <= BATCH_SIZE
    requires batch == Descending(start, start - |batch| + 1)
    requires start - |batch| + 1 >= floor
    requires |batch| < BATCH_SIZE ==> start - |batch| + 1 == floor
    requires Flatten(batches) == Descending(latestNo, Max(start + 1, floor))
    requires BatchesBounded(batches)
    requires draws == Collect(fetch, Flatten(batches))
    requires served == Collect(fetch, batch)
    ensures Flatten(batches + [batch]) == Descending(latestNo, Max(start - BATCH_SIZE + 1, floor))
    ensures BatchesBounded(batches + [batch])
    ensures draws + served == Collect(fetch, Flatten(batches + [batch]))
  {
    var next := start - |batch| + 1;
    assert Max(start + 1, floor) == start + 1;
    assert Max(start - BATCH_SIZE + 1, floor) == next;
    FlattenSnoc(batches, batch);
    DescendingJoin(latestNo, start, next);
    CollectAppend(fetch, Flatten(batches), batch);
  }

  lemma FlattenSnoc(batches: seq<seq<int>>, batch: seq<int>)
    ensures Flatten(batches + [batch]) == Flatten(batches) + batch
  {
    assert (batches + [batch])[..|batches|] == batches;
  }

  /**
   * `fetchRange(latestNo, range)`: the batches requested cover the rounds of
   * the window newest first, each exactly once, and the draws returned are
   * the served ones in that order.
   */
  method FetchRange(fetch: int -> Option<Draw>, latestNo: int, range: int)
      returns (draws: seq<Draw>, batches: seq<seq<int>>)
    ensures Flatten(batches) == Descending(latestNo, Floor(latestNo, range))
    ensures BatchesBounded(batches)
    ensures draws == Collect(fetch, Flatten(batches))
  {
    draws, batches := [], [];
    var floor := Max(1, latestNo - range + 1);
    var start := latestNo;
    while start >= floor
      invariant floor == Floor(latestNo, range)
      invariant start <= latestNo
      invariant Flatten(batches) == Descending(latestNo, Max(start + 1, floor))
      invariant BatchesBounded(batches)
      invariant draws == Collect(fetch, Flatten(batches))
      decreases start - floor + BATCH_SIZE
    {
      var batch := RequestBatch(latestNo, range, start);
      var served := KeepServed(fetch, batch);
      BatchStep(fetch, latestNo, floor, start, batches, batch, draws, served);
      draws := draws + served;
      batches := batches + [batch];
      start := start - BATCH_SIZE;
    }
  }

  /** The window holds at most `range` rounds, so at most `range` draws come back. */
  lemma WindowBound(fetch: int -> Option<Draw>, latestNo: int, range: int)
    ensures |Collect(fetch, Descending(latestNo, Floor(latestNo, range)))| <= Max(0, range)
  {
    CollectShorter(fetch, Descending(latestNo, Floor(latestNo, range)));
    DescendingFacts(latestNo, Floor(latestNo, range));
  }

  lemma {:induction false} CollectShorter(fetch: int -> Option<Draw>, rounds: seq<int>)
    ensures |Collect(fetch, rounds)| <= |rounds|
  {
    if rounds != [] {
      CollectShorter(fetch, rounds[..|rounds| - 1]);
    }
  }

  /** Every round requested lies in the window `[Floor, latestNo]`. */
  lemma RoundsInWindow(latestNo: int, range: int)
    ensures forall r :: r in Descending(latestNo, Floor(latestNo, range)) ==>
      Floor(latestNo, range) <= r <= latestNo
  {
    var rounds := Descending(latestNo, Floor(latestNo, range));
    DescendingFacts(latestNo, Floor(latestNo, range));
    forall r | r in rounds ensures Floor(latestNo, range) <= r <= latestNo {
      var i :| 0 <= i < |rounds| && rounds[i] == r;
    }
  }

  /** The source answers a request for round `r` with round `r`. */
  ghost predicate Faithful(fetch: int -> Option<Draw>)
  {
    forall r :: fetch(r).Some? ==> fetch(r).value.drwNo == r
  }

  ghost predicate StrictlyDescending(rounds: seq<int>)
  {
    forall i, j :: 0 <= i < j < |rounds| ==> rounds[i] > rounds[j]
  }

  /** Draws collected over strictly descending rounds come back newest first, each one of those rounds. */
  lemma {:induction false} CollectDescending(fetch: int -> Option<Draw>, rounds: seq<int>)
    requires Faithful(fetch)
    requires StrictlyDescending(rounds)
    ensures forall i, j :: 0 <= i < j < |Collect(fetch, rounds)| ==>
      Collect(fetch, rounds)[i].drwNo > Collect(fetch, rounds)[j].drwNo
    ensures forall i :: 0 <= i < |Collect(fetch, rounds)| ==> Collect(fetch, rounds)[i].drwNo in rounds
  {
    if rounds != [] {
      var init := rounds[..|rounds| - 1];
      var last := rounds[|rounds| - 1];
      assert StrictlyDescending(init);
      CollectDescending(fetch, init);
      var c := Collect(fetch, rounds);
      var p := Collect(fetch, init);
      forall i | 0 <= i < |p| ensures p[i].drwNo > last {
        var j :| 0 <= j < |init| && init[j] == p[i].drwNo;
        assert rounds[j] > rounds[|rounds| - 1];
      }
      forall i | 0 <= i < |c| ensures c[i].drwNo in rounds {
        if i < |p| {
          assert c[i] == p[i];
          assert p[i].drwNo in init;
        } else {
          assert c[i].drwNo == last;
        }
      }
    }
  }

  /** Against a faithful source, `fetchRange` returns the window's draws newest first. */
  lemma WindowNewestFirst(fetch: int -> Option<Draw>, latestNo: int, range: int)
    requires Faithful(fetch)
    ensures var draws := Collect(fetch, Descending(latestNo, Floor(latestNo, range)));
      forall i, j :: 0 <= i < j < |draws| ==> draws[i].drwNo > draws[j].drwNo
  {
    var rounds := Descending(latestNo, Floor(latestNo, range));
    DescendingFacts(latestNo, Floor(latestNo, range));
    CollectDescending(fetch, rounds);
  }
}
