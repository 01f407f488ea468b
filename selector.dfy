/**
 * The validation of the `drawNo` query parameter shared by the `/api/lotto`
 * handler of server.js and `onRequestGet` of functions/api/lotto.js: a
 * missing or empty selector and one that is neither `latest` nor a decimal
 * numeral are answered with 400.
 */
module DrawSelector {
  import opened Wrappers
  import opened Decimal

  const BAD_REQUEST: int := 400

  /** Where a request goes: one of the two rejections, the resolver, or the given round. */
  datatype Route =
    | MissingDrawNo
    | InvalidDrawNo
    | LatestRound
    | Round(drawNo: string)

  /** `!drawNo`, then `drawNo === 'latest'`, then `/^\d+$/.test(drawNo)`. */
  function SelectRoute(drawNo: Option<string>): (r: Route)
    ensures r == MissingDrawNo <==> drawNo == None || drawNo == Some("")
    ensures r == LatestRound <==> drawNo == Some("latest")
    ensures r.Round? <==> drawNo.Some? && drawNo.value != "" && IsDigits(drawNo.value)
    ensures r.Round? ==> r.drawNo == drawNo.value
    ensures r == InvalidDrawNo <==>
      drawNo.Some? && drawNo.value != "" && drawNo.value != "latest" && !IsDigits(drawNo.value)
  {
    match drawNo
    case None => MissingDrawNo
    case Some(text) =>
      if text == "" then MissingDrawNo
      else if text == "latest" then
        assert !IsDigit(text[0]);  // `latest` is no numeral
        LatestRound
      else if IsDigits(text) then Round(text)
      else InvalidDrawNo
  }

  /** The status of the immediate answer, if the request is rejected. */
  function RejectStatus(route: Route): (status: Option<int>)
    ensures status.Some? <==> route == MissingDrawNo || route == InvalidDrawNo
    ensures status.Some? ==> status.value == BAD_REQUEST
  {
    match route
    case MissingDrawNo => Some(BAD_REQUEST)
    case InvalidDrawNo => Some(BAD_REQUEST)
    case _ => None
  }

  /** A selector gets past validation exactly when it is `latest` or a non-empty decimal numeral. */
  lemma Acceptance(drawNo: Option<string>)
    ensures RejectStatus(SelectRoute(drawNo)).None? <==>
      drawNo == Some("latest") || (drawNo.Some? && drawNo.value != "" && IsDigits(drawNo.value))
  {
  }

  /**
   * `0` and the zero-padded `007` pass validation unchanged and are requested
   * as such; the padded numeral denotes round 7.
   */
  lemma ZeroAndPaddedAccepted()
    ensures SelectRoute(Some("0")) == Round("0")
    ensures SelectRoute(Some("007")) == Round("007")
    ensures ParseDecimal("007") == 7
  {
    LeadingZeroIgnored("07");
    LeadingZeroIgnored("7");
  }

  /** A sign, a fraction or surrounding space is rejected with 400. */
  lemma NonNumeralsRejected()
    ensures SelectRoute(Some("-1")) == InvalidDrawNo
    ensures SelectRoute(Some("1.5")) == InvalidDrawNo
    ensures SelectRoute(Some(" 7")) == InvalidDrawNo
    ensures RejectStatus(InvalidDrawNo) == Some(BAD_REQUEST)
  {
    assert !IsDigit("-1"[0]);
    assert !IsDigit("1.5"[1]);
    assert !IsDigit(" 7"[0]);
  }
}
