/**
 * The row pipeline of scripts/build_powerball_snapshot.mjs: each row of the
 * New York open-data export is parsed into a date and six numbers, rows
 * before the five-plus-one format of 2015-10-07 are dropped, the first five
 * numbers become the sorted white balls and the sixth the Powerball, and the
 * kept draws are ordered by date.
 *
 * `\s` is the ASCII whitespace set, and `Number(token)` is modelled for
 * decimal numerals (and the empty token, which reads as 0); any other token
 * is treated as not finite.
 */
module PowerballSnapshot {
  import opened Wrappers
  import opened Decimal
  import opened Sorting

  const FORMAT_START: string := "2015-10-07"
  const DATE_LENGTH: nat := 10

  /** A row of the export: `draw_date` and `winning_numbers`, either possibly missing. */
  datatype Row = Row(drawDate: Option<string>, winningNumbers: Option<string>)

  datatype PowerballDraw = PowerballDraw(date: string, white: seq<int>, power: int)

  /** `parseDate`: nothing for a missing or empty value, else its first ten characters. */
  function ParseDate(value: Option<string>): (r: Option<string>)
    ensures r.None? <==> value == None || value == Some("")
    ensures r.Some? ==>
      && r.value <= value.value
      && |r.value| == if |value.value| < DATE_LENGTH then |value.value| else DATE_LENGTH
  {
    match value
    case None => None
    case Some(text) =>
      if text == "" then None
      else if |text| < DATE_LENGTH then Some(text)
      else Some(text[..DATE_LENGTH])
  }

  predicate IsSpace(c: char)
  {
    c == ' ' || c == '\t' || c == '\n' || c == '\r' || c == '\U{000B}' || c == '\U{000C}'
  }

  predicate SpaceFree(w: string)
  {
    forall i :: 0 <= i < |w| ==> !IsSpace(w[i])
  }

  /** The maximal runs of non-space characters of `s`, the pending run being `cur`. */
  function Words(s: string, cur: string): seq<string>
  {
    if s == [] then (if cur == [] then [] else [cur])
    else if IsSpace(s[0]) then (if cur == [] then Words(s[1..], []) else [cur] + Words(s[1..], []))
    else Words(s[1..], cur + [s[0]])
  }

  /**
   * `s.trim().split(/\s+/)`: the words of `s`, or the single empty token when
   * `s` holds nothing but spaces.
   */
  function SplitTrimmed(s: string): seq<string>
  {
    var ws := Words(s, []);
    if ws == [] then [""] else ws
  }

  /** `Number(token)` when it is finite. */
  function NumberOf(token: string): (r: Option<int>)
    ensures r.Some? <==> IsDigits(token)
  {
    if IsDigits(token) then Some(ParseDecimal(token) as int) else None
  }

  predicate AllNumeric(tokens: seq<string>)
  {
    forall i :: 0 <= i < |tokens| ==> NumberOf(tokens[i]).Some?
  }

  function Values(tokens: seq<string>): (r: seq<int>)
    requires AllNumeric(tokens)
    ensures |r| == |tokens|
    ensures forall i :: 0 <= i < |tokens| ==> r[i] == NumberOf(tokens[i]).value
  {
    if tokens == [] then [] else [NumberOf(tokens[0]).value] + Values(tokens[1..])
  }

  /**
   * `parseWinningNumbers`: the six numbers of the string in token order, or
   * nothing when the string is missing or empty, does not split into exactly
   * six tokens, or holds a token that is not a number.
   */
  function ParseWinningNumbers(text: Option<string>): (r: Option<seq<int>>)
    ensures r.Some? <==>
      text.Some? && text.value != "" && |SplitTrimmed(text.value)| == 6
      && AllNumeric(SplitTrimmed(text.value))
    ensures r.Some? ==>
      && |r.value| == 6
      && forall i :: 0 <= i < 6 ==> r.value[i] == ParseDecimal(SplitTrimmed(text.value)[i])
  {
    match text
    case None => None
    case Some(s) =>
      if s == "" then None
      else
        var parts := SplitTrimmed(s);
        if |parts| != 6 || !AllNumeric(parts) then None
        else Some(Values(parts))
  }

  /** JavaScript's `<` on strings: code-unit lexicographic order, a proper prefix first. */
  predicate LexLess(a: string, b: string)
  {
    if b == [] then false
    else if a == [] then true
    else if a[0] != b[0] then a[0] < b[0]
    else LexLess(a[1..], b[1..])
  }

  /** The row mapping of `main`: a draw for a parsable row on or after the format change. */
  function KeepRow(row: Row): (r: Option<PowerballDraw>)
  {
    var date := ParseDate(row.drawDate);
    var nums := ParseWinningNumbers(row.winningNumbers);
    if date.None? || nums.None? then None
    else if LexLess(date.value, FORMAT_START) then None
    else Some(PowerballDraw(date.value, SortNumbers(nums.value[..5]), nums.value[5]))
  }

  /** `.map(...).filter(Boolean)`: the kept draws in row order. */
  function KeptDraws(rows: seq<Row>): seq<PowerballDraw>
  {
    if rows == [] then []
    else
      var last := KeepRow(rows[|rows| - 1]);
      KeptDraws(rows[..|rows| - 1]) + (if last.Some? then [last.value] else [])
  }

  /** The comparator `(a, b) => a.date.localeCompare(b.date)`. */
  predicate DateLess(a: PowerballDraw, b: PowerballDraw)
  {
    LexLess(a.date, b.date)
  }

  /** The `draws` of the payload. */
  function SnapshotDraws(rows: seq<Row>): seq<PowerballDraw>
  {
    SortBy(KeptDraws(rows), DateLess)
  }

  // ---------------------------------------------------------------------
  // Tokenising

  function Join(words: seq<string>): string
  {
    if words == [] then ""
    else if |words| == 1 then words[0]
    else words[0] + " " + Join(words[1..])
  }

  lemma {:induction false} WordsAbsorb(w: string, rest: string, cur: string)
    requires SpaceFree(w)
    ensures Words(w + rest, cur) == Words(rest, cur + w)
    decreases |w|
  {
    if w == [] {
      assert w + rest == rest;
      assert cur + w == cur;
    } else {
      assert (w + rest)[0] == w[0];
      assert (w + rest)[1..] == w[1..] + rest;
      assert cur + w == (cur + [w[0]]) + w[1..];
      WordsAbsorb(w[1..], rest, cur + [w[0]]);
    }
  }

  /** Splitting words joined by single spaces gives back the words. */
  lemma {:induction false} WordsOfJoin(words: seq<string>)
    requires forall i :: 0 <= i < |words| ==> words[i] != [] && SpaceFree(words[i])
    ensures Words(Join(words), []) == words
  {
    if |words| == 1 {
      WordsAbsorb(words[0], [], []);
      assert words[0] + [] == words[0];
    } else if |words| > 1 {
      var rest := " " + Join(words[1..]);
      assert Join(words) == words[0] + rest;
      WordsAbsorb(words[0], rest, []);
      assert [] + words[0] == words[0];
      assert rest[1..] == Join(words[1..]);
      WordsOfJoin(words[1..]);
    }
  }

  /** Every word is a non-empty run of non-space characters. */
  lemma {:induction false} WordsShape(s: string, cur: string)
    requires SpaceFree(cur)
    ensures forall i :: 0 <= i < |Words(s, cur)| ==>
      Words(s, cur)[i] != [] && SpaceFree(Words(s, cur)[i])
  {
    if s != [] {
      if IsSpace(s[0]) {
        WordsShape(s[1..], []);
      } else {
        WordsShape(s[1..], cur + [s[0]]);
      }
    }
  }

  /** Six numbers written as decimal numerals and separated by spaces parse back to themselves. */
  lemma ParseWrittenNumbers(nums: seq<nat>)
    requires |nums| == 6
    ensures var text := Join(seq(6, i requires 0 <= i < 6 => ToDecimal(nums[i])));
      ParseWinningNumbers(Some(text)) == Some(seq(6, i requires 0 <= i < 6 => nums[i] as int))
  {
    var words := seq(6, i requires 0 <= i < 6 => ToDecimal(nums[i]));
    forall i | 0 <= i < 6 ensures words[i] != [] && SpaceFree(words[i]) {
      forall k | 0 <= k < |words[i]| ensures !IsSpace(words[i][k]) {
        assert IsDigit(words[i][k]);
      }
    }
    WordsOfJoin(words);
    var text := Join(words);
    assert text != "" by {
      assert Join(words) == words[0] + " " + Join(words[1..]);
    }
    assert SplitTrimmed(text) == words;
    forall i | 0 <= i < 6 ensures ParseDecimal(words[i]) == nums[i] {
      ParseToDecimal(nums[i]);
    }
    assert AllNumeric(words);
    var r := ParseWinningNumbers(Some(text));
    assert r.Some?;
    assert r.value == seq(6, i requires 0 <= i < 6 => nums[i] as int);
  }

  // ---------------------------------------------------------------------
  // Row filter and ordering

  /** A row is dropped exactly when its date or numbers do not parse or its date precedes the format change. */
  lemma KeepRowIff(row: Row)
    ensures KeepRow(row).None? <==>
      ParseDate(row.drawDate).None? || ParseWinningNumbers(row.winningNumbers).None?
      || LexLess(ParseDate(row.drawDate).value, FORMAT_START)
  {
  }

  /**
   * A kept draw carries the parsed date, the first five numbers sorted
   * ascending as white balls and the sixth, unchanged, as the Powerball.
   */
  lemma KeepRowFacts(row: Row)
    requires KeepRow(row).Some?
    ensures var d := KeepRow(row).value;
      var nums := ParseWinningNumbers(row.winningNumbers).value;
      && d.date == ParseDate(row.drawDate).value
      && !LexLess(d.date, FORMAT_START)
      && |d.white| == 5 && Ascending(d.white)
      && multiset(d.white) == multiset(nums[..5])
      && d.power == nums[5]
  {
    var nums := ParseWinningNumbers(row.winningNumbers).value;
    SortNumbersAscending(nums[..5]);
  }

  /** The draw date of the first five-plus-one draw is kept; the day before is dropped. */
  lemma FormatStartBoundary()
    ensures !LexLess("2015-10-07", FORMAT_START)
    ensures LexLess("2015-10-06", FORMAT_START)
    ensures ParseDate(Some("2015-10-07T00:00:00.000")) == Some("2015-10-07")
  {
    LexIrreflexive("2015-10-07");
    assert "2015-10-07T00:00:00.000"[..DATE_LENGTH] == "2015-10-07";
    assert "2015-10-06"[..9] == "2015-10-07"[..9];
    LexCommonPrefix("2015-10-06", FORMAT_START, 9);
  }

  lemma {:induction false} LexCommonPrefix(a: string, b: string, k: nat)
    requires k < |a| && k < |b| && a[..k] == b[..k] && a[k] < b[k]
    ensures LexLess(a, b)
  {
    if k > 0 {
      assert a[0] == a[..k][0] == b[..k][0] == b[0];
      assert a[1..][..k - 1] == a[..k][1..] == b[..k][1..] == b[1..][..k - 1];
      LexCommonPrefix(a[1..], b[1..], k - 1);
    }
  }

  lemma {:induction false} LexIrreflexive(a: string)
    ensures !LexLess(a, a)
  {
    if a != [] {
      LexIrreflexive(a[1..]);
    }
  }

  lemma {:induction false} LexTransitive(a: string, b: string, c: string)
    requires LexLess(a, b) && LexLess(b, c)
    ensures LexLess(a, c)
  {
    if a != [] && a[0] == b[0] && b[0] == c[0] {
      LexTransitive(a[1..], b[1..], c[1..]);
    }
  }

  /** Two different strings are ordered one way or the other. */
  lemma {:induction false} LexTotal(a: string, b: string)
    requires a != b
    ensures LexLess(a, b) || LexLess(b, a)
  {
    if a != [] && b != [] && a[0] == b[0] {
      assert a == [a[0]] + a[1..] && b == [b[0]] + b[1..];
      LexTotal(a[1..], b[1..]);
    }
  }

  lemma DateLessStrictOrder()
    ensures StrictOrder(DateLess)
  {
    forall a: PowerballDraw ensures !DateLess(a, a) {
      LexIrreflexive(a.date);
    }
    forall a: PowerballDraw, b: PowerballDraw, c: PowerballDraw | DateLess(a, b) && DateLess(b, c)
      ensures DateLess(a, c)
    {
      LexTransitive(a.date, b.date, c.date);
    }
  }

  /** The output holds exactly the draws of the kept rows. */
  lemma {:induction false} KeptDrawsFromRows(rows: seq<Row>)
    ensures forall d :: d in KeptDraws(rows) ==> exists i :: 0 <= i < |rows| && KeepRow(rows[i]) == Some(d)
    ensures forall i :: 0 <= i < |rows| && KeepRow(rows[i]).Some? ==> KeepRow(rows[i]).value in KeptDraws(rows)
  {
    if rows != [] {
      var init := rows[..|rows| - 1];
      KeptDrawsFromRows(init);
      forall i | 0 <= i < |rows| && KeepRow(rows[i]).Some? ensures KeepRow(rows[i]).value in KeptDraws(rows) {
        if i < |init| {
          assert rows[i] == init[i];
        }
      }
      forall d | d in KeptDraws(rows) ensures exists i :: 0 <= i < |rows| && KeepRow(rows[i]) == Some(d) {
        if d in KeptDraws(init) {
          var i :| 0 <= i < |init| && KeepRow(init[i]) == Some(d);
          assert rows[i] == init[i];
        } else {
          assert KeepRow(rows[|rows| - 1]) == Some(d);
        }
      }
    }
  }

  /**
   * The payload's draws are exactly the kept draws, reordered so that dates
   * never decrease.
   */
  lemma SnapshotOrdered(rows: seq<Row>)
    ensures multiset(SnapshotDraws(rows)) == multiset(KeptDraws(rows))
    ensures forall i, j :: 0 <= i < j < |SnapshotDraws(rows)| ==>
      !LexLess(SnapshotDraws(rows)[j].date, SnapshotDraws(rows)[i].date)
  {
    DateLessStrictOrder();
    SortBySorted(KeptDraws(rows), DateLess);
  }

  /** No draw of the payload predates the five-plus-one format. */
  lemma SnapshotAfterFormatStart(rows: seq<Row>)
    ensures forall d :: d in SnapshotDraws(rows) ==> !LexLess(d.date, FORMAT_START)
  {
    KeptDrawsFromRows(rows);
    forall d | d in SnapshotDraws(rows) ensures !LexLess(d.date, FORMAT_START) {
      assert d in multiset(SnapshotDraws(rows));
      assert d in multiset(KeptDraws(rows));
      var i :| 0 <= i < |rows| && KeepRow(rows[i]) == Some(d);
    }
  }
}
