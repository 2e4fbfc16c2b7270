/** Cell formatting for the terminal tables: shortening strings, abbreviating counts, and the sign and
    colour of period-over-period deltas. Colours are a tag on the cell; escape codes are not modelled. */
module Table {
  import opened Common

  /** The styles a cell can be printed in. */
  datatype Style = Dimmed | Green | Red

  datatype Cell = Cell(style: Style, text: Text)

  /** The em dash printed for a zero delta. */
  const Dash: string := "—"

  /** `FormatNumber`: counts of a million or more in millions with suffix M, of a thousand or more in
      thousands with suffix K, smaller counts whole. */
  function FormatNumber(n: real): (r: Text)
    ensures r.Fixed? && r.sign == ""
    ensures r.suffix == "M" <==> n >= 1000000.0
    ensures r.suffix == "K" <==> 1000.0 <= n < 1000000.0
    ensures r.suffix == "" <==> n < 1000.0
    ensures r.digits == if n >= 1000.0 then 1 else 0
    ensures r.suffix == "M" ==> r.value * 1000000.0 == n
    ensures r.suffix == "K" ==> r.value * 1000.0 == n
    ensures r.suffix == "" ==> r.value == n
  {
    if n >= 1000000.0 then Fixed("", n / 1000000.0, 1, "M")
    else if n >= 1000.0 then Fixed("", n / 1000.0, 1, "K")
    else Fixed("", n, 0, "")
  }

  /** A change counts as an improvement when it goes the good way: up when higher is better,
      down otherwise (a search position improves when it falls). */
  predicate Improves(delta: real, higherIsBetter: bool) {
    if higherIsBetter then delta > 0.0 else delta < 0.0
  }

  /** `FormatDelta`: a dim dash for no change; otherwise the delta with one decimal, signed "+" when
      positive, green when it improves and red when it does not. */
  function FormatDelta(delta: real, higherIsBetter: bool): (r: Cell)
    ensures r.style == Dimmed <==> delta == 0.0
    ensures r.style == Green <==> Improves(delta, higherIsBetter)
    ensures r.style == Red <==> delta != 0.0 && !Improves(delta, higherIsBetter)
    ensures delta == 0.0 ==> r.text == Plain(Dash)
    ensures delta != 0.0 ==> r.text.Fixed? && r.text.value == delta && r.text.digits == 1 && r.text.suffix == ""
    ensures delta != 0.0 ==> (r.text.sign == "+" <==> delta > 0.0) && (r.text.sign == "" <==> delta < 0.0)
  {
    if delta == 0.0 then Cell(Dimmed, Plain(Dash))
    else
      var sign := if delta < 0.0 then "" else "+";
      var formatted := Fixed(sign, delta, 1, "");
      if higherIsBetter then
        (if delta > 0.0 then Cell(Green, formatted) else Cell(Red, formatted))
      else
        (if delta < 0.0 then Cell(Green, formatted) else Cell(Red, formatted))
  }

  /** `FormatPercentDelta`: as `FormatDelta`, with a "%" after the number. */
  function FormatPercentDelta(delta: real, higherIsBetter: bool): (r: Cell)
    ensures r.style == Dimmed <==> delta == 0.0
    ensures r.style == Green <==> Improves(delta, higherIsBetter)
    ensures delta == 0.0 ==> r.text == Plain(Dash)
    ensures delta != 0.0 ==> r.text.Fixed? && r.text.value == delta && r.text.digits == 1 && r.text.suffix == "%"
  {
    if delta == 0.0 then Cell(Dimmed, Plain(Dash))
    else
      var sign := if delta < 0.0 then "" else "+";
      var formatted := Fixed(sign, delta, 1, "%");
      if higherIsBetter then
        (if delta > 0.0 then Cell(Green, formatted) else Cell(Red, formatted))
      else
        (if delta < 0.0 then Cell(Green, formatted) else Cell(Red, formatted))
  }

  /** The two delta formatters classify every delta alike and differ only in the "%" suffix. */
  lemma PercentDeltaAgreesWithDelta(delta: real, higherIsBetter: bool)
    ensures FormatPercentDelta(delta, higherIsBetter).style == FormatDelta(delta, higherIsBetter).style
    ensures delta != 0.0 ==> FormatPercentDelta(delta, higherIsBetter).text
                             == FormatDelta(delta, higherIsBetter).text.(suffix := "%")
  {
  }

  /** `TruncateString`: strings that fit are kept; longer ones keep their first `maxLen - 3` characters
      followed by "...". The source panics when it must shorten to fewer than three characters, so callers
      are asked not to do that. */
  function TruncateString(s: string, maxLen: int): (r: string)
    requires |s| <= maxLen || maxLen >= 3
    ensures |s| <= maxLen ==> r == s
    ensures |s| > maxLen ==> |r| == maxLen && r == s[..maxLen - 3] + "..."
    ensures |r| <= maxLen && |r| <= |s|
  {
    if |s| <= maxLen then s else s[..maxLen - 3] + "..."
  }
}
