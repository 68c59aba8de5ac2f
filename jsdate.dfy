/**
 * The part of JavaScript's `Date` the code uses: the local-time constructor
 * `new Date(year, monthIndex, day)` with its rollover of out-of-range
 * months, its rule that a year 0..99 means 1900..1999, and the
 * proleptic Gregorian calendar behind `getFullYear`, `getMonth`, `getDate`.
 */
module JsDate {

  /** A calendar month: `month` is 1..12. */
  datatype YearMonth = YearMonth(year: int, month: int)

  predicate IsValidMonth(ym: YearMonth) { 1 <= ym.month <= 12 }

  /**
   * The constructor reads a year argument from 0 to 99 as 1900 + year: the
   * year it lands on is never itself such a year, it keeps the last two
   * digits, and every other year is kept.
   */
  function FullYear(year: int): (y: int)
    ensures !(0 <= y <= 99)
    ensures 0 <= year <= 99 ==> 1900 <= y <= 1999 && y % 100 == year
    ensures !(0 <= year <= 99) ==> y == year
  {
    if 0 <= year <= 99 then 1900 + year else year
  }

  /**
   * The month of `new Date(year, monthIndex, 1)`: month indexes outside
   * 0..11 roll over into earlier or later years.
   */
  function MonthOf(year: int, monthIndex: int): (ym: YearMonth)
    ensures IsValidMonth(ym)
    ensures ym.year * 12 + (ym.month - 1) == FullYear(year) * 12 + monthIndex
  {
    YearMonth(FullYear(year) + monthIndex / 12, monthIndex % 12 + 1)
  }

  /** The Gregorian leap-year rule. */
  predicate IsLeapYear(y: int) {
    (y % 4 == 0 && y % 100 != 0) || y % 400 == 0
  }

  /** Length of a calendar month. */
  function DaysIn(ym: YearMonth): (d: int)
    requires IsValidMonth(ym)
    ensures 28 <= d <= 31
    ensures ym.month == 2 ==> (d == 29 <==> IsLeapYear(ym.year)) && (d == 28 <==> !IsLeapYear(ym.year))
    ensures ym.month in {4, 6, 9, 11} ==> d == 30
    ensures ym.month in {1, 3, 5, 7, 8, 10, 12} ==> d == 31
  {
    if ym.month == 2 then (if IsLeapYear(ym.year) then 29 else 28)
    else if ym.month in {4, 6, 9, 11} then 30
    else 31
  }

  /**
   * `new Date(year, monthIndex, 0).getDate()`: day 0 of a month is the last
   * day of the month before it, so the result is always a month length.
   */
  function LastDayBefore(year: int, monthIndex: int): (d: int)
    ensures 28 <= d <= 31
  {
    DaysIn(MonthOf(year, monthIndex - 1))
  }

  /** For a month number 1..12, that is the length of that month of the year `Date` reads. */
  lemma LastDayBeforeIsLength(year: int, month: int)
    requires 1 <= month <= 12
    ensures LastDayBefore(year, month) == DaysIn(YearMonth(FullYear(year), month))
  {
    assert MonthOf(year, month - 1) == YearMonth(FullYear(year), month);
  }
}
