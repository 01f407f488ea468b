/**
 * The scan of scripts/build_lotto_snapshot.mjs: rounds are requested one by
 * one from round 1, every successful answer becomes one record, and the scan
 * ends at the second non-success in a row.
 *
 * The lottery's answers are the parameter `respond`. The pause every fifty
 * rounds and the file written at the end are not part of this model.
 */
module LottoSnapshot {
  import opened Wrappers
  import opened Sorting

  /** What `fetchDraw(n)` yields. */
  datatype Reply =
    | Success(drwNo: int, drwNoDate: string, picks: seq<Option<int>>, bnusNo: int)
      // `returnValue` is "success"; `picks` are `Number(drwtNo1..6)`, `None` where not finite
    | NotSuccess   // any other `returnValue`
    | HttpError    // `!res.ok` or a body that is not JSON: `fetchDraw` throws

  datatype SnapshotDraw = SnapshotDraw(round: int, date: string, nums: seq<int>, bonus: int)

  /** `.filter(Number.isFinite)`: the finite picks in order. */
  function Finite(picks: seq<Option<int>>): (r: seq<int>)
    ensures |r| <= |picks|
  {
    if picks == [] then []
    else
      var last := picks[|picks| - 1];
      Finite(picks[..|picks| - 1]) + (if last.Some? then [last.value] else [])
  }

  /** The record pushed for a successful reply. */
  function Record(reply: Reply): SnapshotDraw
    requires reply.Success?
  {
    SnapshotDraw(reply.drwNo, reply.drwNoDate, SortNumbers(Finite(reply.picks)), reply.bnusNo)
  }

  /** The records for the successful replies to `rounds`, in request order. */
  function Records(respond: int -> Reply, rounds: seq<int>): seq<SnapshotDraw>
  {
    if rounds == [] then []
    else
      var reply := respond(rounds[|rounds| - 1]);
      Records(respond, rounds[..|rounds| - 1]) + (if reply.Success? then [Record(reply)] else [])
  }

  /** The rounds `1, 2, ..., n`. */
  function Rounds(n: nat): (r: seq<int>)
    ensures |r| == n && forall i :: 0 <= i < n ==> r[i] == i + 1
  {
    if n == 0 then [] else Rounds(n - 1) + [n]
  }

  /** Every round below `n` was answered without a thrown request. */
  ghost predicate Answered(respond: int -> Reply, n: int)
  {
    forall k :: 1 <= k < n ==> !respond(k).HttpError?
  }

  /** No two rounds in a row below `n` failed to answer with success. */
  ghost predicate NoTwoMisses(respond: int -> Reply, n: int)
  {
    forall k :: 2 <= k < n ==> respond(k).Success? || respond(k - 1).Success?
  }

  lemma NoTwoMissesStep(respond: int -> Reply, n: int)
    requires NoTwoMisses(respond, n)
    requires n < 2 || respond(n).Success? || respond(n - 1).Success?
    ensures NoTwoMisses(respond, n + 1)
  {
  }

  /**
   * `main`'s loop. The scan requests rounds `1, 2, ...`, one per iteration.
   * It stops at a thrown request (`crashed`: nothing is saved) or at the
   * second non-success in a row, never earlier; `failures` counts the
   * non-successes since the last success. `draws` holds one record per
   * success in request order.
   *
   * `last` bounds the rounds that answer with success; it is what makes the
   * source's `while (true)` end.
   */
  method Scan(respond: int -> Reply, ghost last: nat)
      returns (draws: seq<SnapshotDraw>, queried: seq<int>, crashed: bool)
    requires forall k :: k > last ==> !respond(k).Success?
    ensures 1 <= |queried| <= last + 2 && queried == Rounds(|queried|)
    ensures Answered(respond, |queried|)
    ensures NoTwoMisses(respond, |queried|)
    ensures crashed <==> respond(|queried|).HttpError?
    ensures !crashed ==>
      && |queried| >= 2
      && respond(|queried|) == NotSuccess && respond(|queried| - 1) == NotSuccess
    ensures draws == Records(respond, queried)
  {
    draws, queried, crashed := [], [], false;
    var n := 1;
    var failures := 0;
    while true
      invariant 1 <= n <= last + 2 && queried == Rounds(n - 1)
      invariant failures == (if n > 1 && !respond(n - 1).Success? then 1 else 0)
      invariant n == last + 2 ==> failures == 1
      invariant Answered(respond, n)
      invariant NoTwoMisses(respond, n)
      invariant draws == Records(respond, queried)
      decreases last + 2 - n
    {
      var reply := respond(n);
      RecordsSnoc(respond, queried, n);
      assert Rounds(n) == queried + [n];
      queried := queried + [n];
      if reply.HttpError? {
        crashed := true;
        return;
      }
      if !reply.Success? {
        failures := failures + 1;
        if failures >= 2 {
          break;
        }
        NoTwoMissesStep(respond, n);
        n := n + 1;
        continue;
      }
      failures := 0;
      var nums := SortNumbers(Finite(reply.picks));
      assert SnapshotDraw(reply.drwNo, reply.drwNoDate, nums, reply.bnusNo) == Record(reply);
      draws := draws + [SnapshotDraw(reply.drwNo, reply.drwNoDate, nums, reply.bnusNo)];
      NoTwoMissesStep(respond, n);
      n := n + 1;
    }
  }

  lemma RecordsSnoc(respond: int -> Reply, rounds: seq<int>, n: int)
    ensures Records(respond, rounds + [n]) ==
      Records(respond, rounds) + (if respond(n).Success? then [Record(respond(n))] else [])
  {
    assert (rounds + [n])[..|rounds|] == rounds;
  }

  /** A record's numbers are the finite picks sorted ascending: at most six of them for six picks. */
  lemma RecordFacts(reply: Reply)
    requires reply.Success? && |reply.picks| == 6
    ensures |Record(reply).nums| <= 6
    ensures Ascending(Record(reply).nums)
    ensures multiset(Record(reply).nums) == multiset(Finite(reply.picks))
    ensures Record(reply).round == reply.drwNo && Record(reply).bonus == reply.bnusNo
  {
    SortNumbersAscending(Finite(reply.picks));
  }

  /** A finite pick survives the filter; a non-finite one does not. */
  lemma {:induction false} FiniteKeeps(picks: seq<Option<int>>)
    ensures forall x :: x in Finite(picks) <==> Some(x) in picks
  {
    if picks != [] {
      var init := picks[..|picks| - 1];
      FiniteKeeps(init);
      assert picks == init + [picks[|picks| - 1]];
    }
  }

  /** Exactly one record per successful round. */
  lemma {:induction false} RecordsCount(respond: int -> Reply, rounds: seq<int>)
    ensures |Records(respond, rounds)| == |SuccessfulRounds(respond, rounds)|
  {
    if rounds != [] {
      RecordsCount(respond, rounds[..|rounds| - 1]);
    }
  }

  function SuccessfulRounds(respond: int -> Reply, rounds: seq<int>): seq<int>
  {
    if rounds == [] then []
    else
      var r := rounds[|rounds| - 1];
      SuccessfulRounds(respond, rounds[..|rounds| - 1]) + (if respond(r).Success? then [r] else [])
  }

  /**
   * An isolated miss does not end the scan: when round 2 fails between two
   * successes and round 4 onward fail, the scan asks for rounds 1 to 5 and
   * keeps the records of rounds 1 and 3.
   */
  method IsolatedMiss(a: Reply, b: Reply) returns (draws: seq<SnapshotDraw>, queried: seq<int>)
    requires a.Success? && b.Success?
    ensures queried == [1, 2, 3, 4, 5]
    ensures draws == [Record(a), Record(b)]
  {
    var respond := (k: int) => if k == 1 then a else if k == 3 then b else NotSuccess;
    var crashed;
    draws, queried, crashed := Scan(respond, 3);
    var k := |queried|;
    assert !respond(k).HttpError?;
    assert respond(k) == NotSuccess && respond(k - 1) == NotSuccess;
    assert k != 1 && k != 3 && k - 1 != 1 && k - 1 != 3;
    assert k == 5;
    assert queried == [1, 2, 3, 4, 5];
    RecordsSnoc(respond, [], 1);
    assert [] + [1] == [1];
    assert Records(respond, [1]) == [Record(a)];
    RecordsSnoc(respond, [1], 2);
    assert [1] + [2] == [1, 2];
    assert Records(respond, [1, 2]) == [Record(a)];
    RecordsSnoc(respond, [1, 2], 3);
    assert [1, 2] + [3] == [1, 2, 3];
    assert Records(respond, [1, 2, 3]) == [Record(a), Record(b)];
    RecordsSnoc(respond, [1, 2, 3], 4);
    assert [1, 2, 3] + [4] == [1, 2, 3, 4];
    assert Records(respond, [1, 2, 3, 4]) == [Record(a), Record(b)];
    RecordsSnoc(respond, [1, 2, 3, 4], 5);
    assert [1, 2, 3, 4] + [5] == [1, 2, 3, 4, 5];
  }
}
