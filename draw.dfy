/** A draw record as the browser receives it, and the pure helpers of main.js that read it. */
module LottoDraw {
  import opened Wrappers
  import opened Sorting

  /**
   * The fields of a successful lookup that the core reads: `drwNo`,
   * `drwNoDate`, `drwtNo1`..`drwtNo6` (as `picks`, in field order) and `bnusNo`.
   */
  datatype Draw = Draw(drwNo: int, drwNoDate: string, picks: seq<int>, bnusNo: int)

  /** Six winning numbers, each a ball 1..45. */
  ghost predicate ValidDraw(d: Draw)
  {
    |d.picks| == 6 && forall i :: 0 <= i < 6 ==> 1 <= d.picks[i] <= 45
  }

  /** `drawToNumbers`: the six winning numbers, sorted ascending. */
  function DrawToNumbers(d: Draw): seq<int>
  {
    SortNumbers(d.picks)
  }

  /** The numbers of a draw are its six picks in ascending order, still balls 1..45. */
  lemma DrawToNumbersFacts(d: Draw)
    requires ValidDraw(d)
    ensures |DrawToNumbers(d)| == 6
    ensures multiset(DrawToNumbers(d)) == multiset(d.picks)
    ensures Ascending(DrawToNumbers(d))
    ensures forall i :: 0 <= i < 6 ==> 1 <= DrawToNumbers(d)[i] <= 45
  {
    SortNumbersAscending(d.picks);
    var r := DrawToNumbers(d);
    forall i | 0 <= i < 6 ensures 1 <= r[i] <= 45 {
      assert r[i] in multiset(d.picks);
    }
  }

  /** The five ball colours, from the lowest decade of numbers to the highest. */
  const PALETTE: seq<string> := ["#ffd166", "#4db8ff", "#ff6f59", "#b0bec5", "#5ad1a6"]

  /** `getBallColor`. */
  function BallColor(n: int): (c: string)
    ensures c in PALETTE
    ensures 1 <= n <= 45 ==> c == PALETTE[(n - 1) / 10]
    ensures n <= 0 ==> c == PALETTE[0]
    ensures n > 45 ==> c == PALETTE[4]
  {
    if n <= 10 then PALETTE[0]
    else if n <= 20 then PALETTE[1]
    else if n <= 30 then PALETTE[2]
    else if n <= 40 then PALETTE[3]
    else PALETTE[4]
  }

  /** `dateString.replace(/-/g, '.')`. */
  function DashesToDots(s: string): string
  {
    if s == [] then []
    else [if s[0] == '-' then '.' else s[0]] + DashesToDots(s[1..])
  }

  /** Every dash becomes a dot and nothing else moves or changes. */
  lemma {:induction false} DashesToDotsFacts(s: string)
    ensures |DashesToDots(s)| == |s|
    ensures forall i :: 0 <= i < |s| ==> DashesToDots(s)[i] == if s[i] == '-' then '.' else s[i]
    ensures '-' !in DashesToDots(s)
  {
    if s != [] {
      DashesToDotsFacts(s[1..]);
    }
  }

  /** `formatDate`: a missing or empty date shows as "-". */
  function FormatDate(date: Option<string>): (r: string)
    ensures date.None? || date == Some("") ==> r == "-"
  {
    match date
    case None => "-"
    case Some(s) => if s == "" then "-" else DashesToDots(s)
  }

  /** An API date such as 2024-01-06 displays as 2024.01.06. */
  lemma FormatDateExample()
    ensures FormatDate(Some("2024-01-06")) == "2024.01.06"
  {
    DashesToDotsFacts("2024-01-06");
  }
}
