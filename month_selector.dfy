/**
 * The month arithmetic of the month picker: the `value` prop is a
 * `YYYY-MM` text, the previous and next buttons build a `Date` one month
 * back or ahead and format it back to text.
 */
module MonthSelector {
  import opened Text
  import opened JsDate

  /** Index of the first '-' in `s`, or |s| when there is none. */
  function FirstDash(s: string): (k: nat)
    ensures k <= |s| && (k < |s| ==> s[k] == '-')
    ensures forall i :: 0 <= i < k ==> s[i] != '-'
  {
    if s == [] || s[0] == '-' then 0 else 1 + FirstDash(s[1..])
  }

  /** The text before the first dash: the first piece of `value.split('-')`. */
  function YearText(value: string): string {
    value[..FirstDash(value)]
  }

  /** The second piece of `value.split('-')` (empty when there is no dash). */
  function MonthText(value: string): string {
    var k := FirstDash(value);
    if k == |value| then "" else
      var rest := value[k + 1..];
      rest[..FirstDash(rest)]
  }

  /** A value whose two pieces are decimal numerals, so that `Number` reads both. */
  predicate IsMonthValue(value: string) {
    FirstDash(value) < |value| && AllDigits(YearText(value)) && AllDigits(MonthText(value))
  }

  /** `const [year, month] = value.split('-').map(Number)`: two non-negative whole numbers. */
  function ParseValue(value: string): (ym: YearMonth)
    requires IsMonthValue(value)
    ensures ym.year >= 0 && ym.month >= 0
  {
    YearMonth(DigitsValue(YearText(value)), DigitsValue(MonthText(value)))
  }

  /** `formatMonth(date)`: the full year, unpadded, a dash, and the month number padded to two digits. */
  function FormatMonth(ym: YearMonth): (r: string)
    requires IsValidMonth(ym)
    ensures |r| >= 4 && r[|r| - 3] == '-'
    ensures r[|r| - 2..] == Pad2(ym.month)
    ensures AllDigits(r[|r| - 2..]) && DigitsValue(r[|r| - 2..]) == ym.month
  {
    Pad2Digits(ym.month);
    var r := IntToString(ym.year) + "-" + Pad2(ym.month);
    assert r[|r| - 2..] == Pad2(ym.month);
    r
  }

  /**
   * `handlePrev`: `new Date(year, month - 2, 1)`, formatted. From a month of
   * a year 100 or later it gives the calendar month before.
   */
  function HandlePrev(value: string): (r: string)
    requires IsMonthValue(value)
    ensures var ym := ParseValue(value);
      IsValidMonth(ym) && ym.year >= 100 ==>
        IsMonthValue(r) && ParseValue(r) == if ym.month == 1 then YearMonth(ym.year - 1, 12) else YearMonth(ym.year, ym.month - 1)
  {
    var ym := ParseValue(value);
    if IsValidMonth(ym) && ym.year >= 100 then
      PrevStep(ym);
      ParseFormat(Prev(ym));
      FormatMonth(Prev(ym))
    else FormatMonth(Prev(ym))
  }

  /**
   * `handleNext`: `new Date(year, month, 1)`, formatted. From a month of a
   * year 100 or later it gives the calendar month after.
   */
  function HandleNext(value: string): (r: string)
    requires IsMonthValue(value)
    ensures var ym := ParseValue(value);
      IsValidMonth(ym) && ym.year >= 100 ==>
        IsMonthValue(r) && ParseValue(r) == if ym.month == 12 then YearMonth(ym.year + 1, 1) else YearMonth(ym.year, ym.month + 1)
  {
    var ym := ParseValue(value);
    if IsValidMonth(ym) && ym.year >= 100 then
      NextStep(ym);
      ParseFormat(Next(ym));
      FormatMonth(Next(ym))
    else FormatMonth(Next(ym))
  }

  /** The month after `ym`, as `Date` computes it: one month later, counting the year as `Date` reads it. */
  function Next(ym: YearMonth): (r: YearMonth)
    ensures IsValidMonth(r)
    ensures r.year * 12 + r.month == FullYear(ym.year) * 12 + ym.month + 1
  {
    MonthOf(ym.year, ym.month)
  }

  /** The month before `ym`, as `Date` computes it: one month earlier, counting the year as `Date` reads it. */
  function Prev(ym: YearMonth): (r: YearMonth)
    ensures IsValidMonth(r)
    ensures r.year * 12 + r.month == FullYear(ym.year) * 12 + ym.month - 1
  {
    MonthOf(ym.year, ym.month - 2)
  }

  /** Outside the two-digit years, next is "month + 1, and December rolls into January of the next year". */
  lemma NextStep(ym: YearMonth)
    requires IsValidMonth(ym) && !(0 <= ym.year <= 99)
    ensures Next(ym) == if ym.month == 12 then YearMonth(ym.year + 1, 1) else YearMonth(ym.year, ym.month + 1)
  {
  }

  /** Outside the two-digit years, previous is "month - 1, and January rolls back into December of the year before". */
  lemma PrevStep(ym: YearMonth)
    requires IsValidMonth(ym) && !(0 <= ym.year <= 99)
    ensures Prev(ym) == if ym.month == 1 then YearMonth(ym.year - 1, 12) else YearMonth(ym.year, ym.month - 1)
  {
  }

  lemma PrevOfNext(ym: YearMonth)
    requires IsValidMonth(ym) && ym.year >= 100
    ensures Prev(Next(ym)) == ym
  {
    NextStep(ym);
    PrevStep(Next(ym));
  }

  lemma NextOfPrev(ym: YearMonth)
    requires IsValidMonth(ym) && ym.year >= 100 && Prev(ym).year >= 100
    ensures Next(Prev(ym)) == ym
  {
    PrevStep(ym);
    NextStep(Prev(ym));
  }

  lemma {:induction false} FirstDashAfterDigits(y: string, rest: string)
    requires AllDigits(y)
    ensures FirstDash(y + "-" + rest) == |y|
  {
    if y != [] {
      assert (y + "-" + rest)[1..] == y[1..] + "-" + rest;
      FirstDashAfterDigits(y[1..], rest);
    }
  }

  lemma {:induction false} FirstDashOfDigits(s: string)
    requires AllDigits(s)
    ensures FirstDash(s) == |s|
  {
    if s != [] {
      FirstDashOfDigits(s[1..]);
    }
  }

  lemma SplitParts(y: string, m: string)
    requires AllDigits(y) && AllDigits(m)
    ensures IsMonthValue(y + "-" + m)
    ensures YearText(y + "-" + m) == y && MonthText(y + "-" + m) == m
  {
    var r := y + "-" + m;
    FirstDashAfterDigits(y, m);
    assert r[..|y|] == y;
    assert r[|y| + 1..] == m;
    FirstDashOfDigits(m);
  }

  /** A formatted month of a non-negative year reads back as the same year and month. */
  lemma ParseFormat(ym: YearMonth)
    requires IsValidMonth(ym) && ym.year >= 0
    ensures IsMonthValue(FormatMonth(ym)) && ParseValue(FormatMonth(ym)) == ym
  {
    var y := NatToString(ym.year);
    Pad2Digits(ym.month);
    var m := Pad2(ym.month);
    assert FormatMonth(ym) == y + "-" + m;
    SplitParts(y, m);
  }

  /** On a canonical value (year 100 or later, written without leading zeros), next then previous is the identity. */
  lemma PrevOfNextValue(value: string)
    requires IsMonthValue(value)
    requires var ym := ParseValue(value); IsValidMonth(ym) && ym.year >= 100 && FormatMonth(ym) == value
    ensures IsMonthValue(HandleNext(value)) && HandlePrev(HandleNext(value)) == value
  {
    var ym := ParseValue(value);
    NextStep(ym);
    ParseFormat(Next(ym));
    PrevOfNext(ym);
  }

  /**
   * The two-digit-year rule of `Date` makes the picker jump from year 50 to
   * 1950, and from January of year 100 back to December of year 99, which
   * the next step reads as 1999.
   */
  lemma TwoDigitYearJump()
    ensures Next(YearMonth(50, 5)) == YearMonth(1950, 6)
    ensures Prev(YearMonth(100, 1)) == YearMonth(99, 12)
    ensures Next(YearMonth(99, 12)) == YearMonth(2000, 1)
  {
  }

  /** "0050-05" reads as year 50, month 5. */
  lemma YearFiftyValue()
    ensures IsMonthValue("0050-05") && ParseValue("0050-05") == YearMonth(50, 5)
  {
    SplitParts("0050", "05");
    assert "0050" + "-" + "05" == "0050-05";
    assert "0050"[..3] == "005" && "005"[..2] == "00" && "00"[..1] == "0" && "0"[..0] == [];
    assert DigitsValue("0050") == 50;
    assert "05"[..1] == "0" && DigitsValue("05") == 5;
  }

  /** So next then previous on "0050-05" lands on May 1950, not back on "0050-05". */
  lemma TwoDigitYearValue()
    ensures IsMonthValue("0050-05") && IsMonthValue(HandleNext("0050-05"))
    ensures var back := HandlePrev(HandleNext("0050-05"));
      IsMonthValue(back) && ParseValue(back) == YearMonth(1950, 5) && back != "0050-05"
  {
    YearFiftyValue();
    TwoDigitYearJump();
    ParseFormat(YearMonth(1950, 6));
    PrevStep(YearMonth(1950, 6));
  }
}
