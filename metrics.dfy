/**
 * `GET /api/metrics/month`: the spending summary of one `YYYY-MM` month,
 * with every amount in integer cents until the response converts it.
 */
module Metrics {
  import opened Wrappers
  import opened Text
  import opened Sql
  import opened Sorting
  import opened Schemas
  import opened JsDate
  import opened Money
  import opened Store
  import opened ErrorHandler
  import ExpenseRoutes

  // ---- the month and its range --------------------------------------------

  /** `month.split('-').map(Number)`: the year of a month token, at most four digits. */
  function YearOf(m: string): (y: nat)
    requires IsMonthText(m)
    ensures y < 10000
  {
    DigitsValueBelow(m[..4]);
    assert Pow10(4) == 10000;
    DigitsValue(m[..4])
  }

  /** The month number of a month token: its two digits read as a number, which pad back to those digits. */
  function MonthNumberOf(m: string): (n: nat)
    requires IsMonthText(m)
    ensures n < 100 && Pad2(n) == m[5..7]
  {
    assert m[5..7] == m[5..];
    Pad2OfValue(m[5..7]);
    DigitsValue(m[5..7])
  }

  /**
   * `new Date(year, monthNum, 0).getDate()`. For a month number 01..12 this
   * is the calendar length of that month; other month numbers roll over.
   */
  function DaysInMonth(m: string): (d: int)
    requires IsMonthText(m)
    ensures 28 <= d <= 31
  {
    LastDayBefore(YearOf(m), MonthNumberOf(m))
  }

  /** A month numbered 01..12 has its calendar length, leap years included. */
  lemma DaysInMonthIsLength(m: string)
    requires IsMonthText(m) && 1 <= MonthNumberOf(m) <= 12
    ensures DaysInMonth(m) == DaysIn(YearMonth(FullYear(YearOf(m)), MonthNumberOf(m)))
    ensures MonthNumberOf(m) == 2 ==> (DaysInMonth(m) == 29 <==> IsLeapYear(FullYear(YearOf(m))))
  {
    LastDayBeforeIsLength(YearOf(m), MonthNumberOf(m));
  }

  /**
   * What the handler derives from the month once: the text `YYYY-MM-` that
   * every date of the month starts with, and the number of days.
   */
  datatype MonthSpan = MonthSpan(prefix: string, days: nat)

  function SpanOf(m: string): (s: MonthSpan)
    requires IsMonthText(m)
    ensures |s.prefix| == 8 && 28 <= s.days <= 31
  {
    MonthSpan(m + "-", DaysInMonth(m))
  }

  /** A span the handler can produce: an eight-character prefix and a two-digit day count. */
  predicate Spans(s: MonthSpan) {
    |s.prefix| == 8 && s.days < 100
  }

  /** `${month}-${String(day).padStart(2, '0')}`. */
  function DateStr(s: MonthSpan, day: nat): string {
    s.prefix + Pad2(day)
  }

  /** `monthStart`: `${month}-01`. */
  function MonthStart(s: MonthSpan): string {
    s.prefix + "01"
  }

  /** `monthEnd`: the date of the last day. */
  function MonthEnd(s: MonthSpan): string {
    DateStr(s, s.days)
  }

  /** `date >= monthStart AND date <= monthEnd`, compared as TEXT. */
  predicate InMonth(s: MonthSpan, date: string) {
    TextLe(MonthStart(s), date) && TextLe(date, MonthEnd(s))
  }

  lemma DateStrShape(s: MonthSpan, day: nat)
    requires Spans(s) && day < 100
    ensures |DateStr(s, day)| == 10 && DateStr(s, day)[..8] == s.prefix
  {
    Pad2Digits(day);
  }

  /** Distinct days give distinct dates. */
  lemma DateStrInjective(s: MonthSpan, d1: nat, d2: nat)
    requires d1 < 100 && d2 < 100 && DateStr(s, d1) == DateStr(s, d2)
    ensures d1 == d2
  {
    Pad2Digits(d1);
    Pad2Digits(d2);
    assert Pad2(d1) == DateStr(s, d1)[|s.prefix|..];
    assert Pad2(d2) == DateStr(s, d2)[|s.prefix|..];
  }

  /** The same, stated for two different days. */
  lemma DateStrDistinct(s: MonthSpan, d1: nat, d2: nat)
    requires d1 < 100 && d2 < 100 && d1 != d2
    ensures DateStr(s, d1) != DateStr(s, d2)
  {
    Pad2Digits(d1);
    Pad2Digits(d2);
    assert Pad2(d1) == DateStr(s, d1)[|s.prefix|..];
    assert Pad2(d2) == DateStr(s, d2)[|s.prefix|..];
  }

  lemma PadOne()
    ensures Pad2(1) == "01"
  {
    assert NatToString(1) == [DigitChar(1)];
  }

  /** Later days give later dates, as TEXT. */
  lemma DateStrMonotone(s: MonthSpan, d1: nat, d2: nat)
    requires d1 <= d2 < 100
    ensures TextLe(DateStr(s, d1), DateStr(s, d2))
  {
    Pad2Digits(d1);
    Pad2Digits(d2);
    TextLeTwoDigits(Pad2(d1), Pad2(d2));
    TextLeCommonPrefix(s.prefix, Pad2(d1), Pad2(d2));
  }

  /** The date of each day 1..days lies in the range. */
  lemma DateStrInMonth(s: MonthSpan, day: nat)
    requires Spans(s) && 1 <= day <= s.days
    ensures InMonth(s, DateStr(s, day))
  {
    PadOne();
    assert MonthStart(s) == DateStr(s, 1);
    DateStrMonotone(s, 1, day);
    DateStrMonotone(s, day, s.days);
  }

  /** The day number of a date: `Number` of its last two digits. */
  function DayOf(x: string): nat
    requires IsDateText(x)
  {
    assert AllDigits(x[8..]) by {
      forall i | 0 <= i < 2 ensures IsDigit(x[8..][i]) { assert x[8..][i] == x[8 + i]; }
    }
    DigitsValue(x[8..])
  }

  /** A well-formed date in the range is the date of one of the days. */
  lemma InMonthIsDateStr(s: MonthSpan, x: string)
    requires Spans(s) && IsDateText(x) && InMonth(s, x)
    ensures 1 <= DayOf(x) <= s.days
    ensures x == DateStr(s, DayOf(x))
  {
    var p := s.prefix;
    var tail := x[8..];
    Pad2Digits(s.days);
    TextLeSandwich(p, "01", Pad2(s.days), x);
    assert x == p + tail;
    TextLeCommonPrefix(p, "01", tail);
    TextLeCommonPrefix(p, tail, Pad2(s.days));
    assert "01"[0] == '0' && "01"[1] == '1';
    TwoDigitsValue("01");
    assert AllDigits(tail) by {
      forall i | 0 <= i < 2 ensures IsDigit(tail[i]) { assert tail[i] == x[8 + i]; }
    }
    TextLeTwoDigits("01", tail);
    TextLeTwoDigits(tail, Pad2(s.days));
    Pad2OfValue(tail);
  }

  /** For a well-formed date, the range holds exactly the dates of days 1..days. */
  lemma RangeIsMonthDays(s: MonthSpan, x: string)
    requires Spans(s) && IsDateText(x)
    ensures InMonth(s, x) <==> exists day: nat :: 1 <= day <= s.days && x == DateStr(s, day)
  {
    if InMonth(s, x) {
      InMonthIsDateStr(s, x);
    }
    if exists day: nat :: 1 <= day <= s.days && x == DateStr(s, day) {
      var day: nat :| 1 <= day <= s.days && x == DateStr(s, day);
      DateStrInMonth(s, day);
    }
  }

  // ---- totals ---------------------------------------------------------------

  predicate NonNegative(es: seq<Expense>) {
    forall e | e in es :: e.amountCents >= 0
  }

  /**
   * `COALESCE(SUM(amount_cents), 0)` over the month: 0 when nothing falls in
   * the month, and never negative for non-negative amounts.
   */
  function TotalSpend(es: seq<Expense>, s: MonthSpan): (t: int)
    requires Spans(s)
    ensures (forall e | e in es :: !InMonth(s, e.date)) ==> t == 0
    ensures NonNegative(es) ==> t >= 0
  {
    if es == [] then 0
    else
      assert es[0] in es && forall e | e in es[1..] :: e in es;
      (if InMonth(s, es[0].date) then es[0].amountCents else 0) + TotalSpend(es[1..], s)
  }

  /** The spend of one category over the month: part of the total, and not negative. */
  function CategorySpend(es: seq<Expense>, s: MonthSpan, id: string): (c: int)
    requires Spans(s)
    ensures NonNegative(es) ==> 0 <= c <= TotalSpend(es, s)
  {
    if es == [] then 0
    else
      assert es[0] in es && forall e | e in es[1..] :: e in es;
      (if es[0].categoryId == id && InMonth(s, es[0].date) then es[0].amountCents else 0)
      + CategorySpend(es[1..], s, id)
  }

  /** The spend on one date of the month: 0 for a date outside the month or without expenses. */
  function DateTotal(es: seq<Expense>, s: MonthSpan, date: string): (d: int)
    requires Spans(s)
    ensures !InMonth(s, date) || (forall e | e in es :: e.date != date) ==> d == 0
    ensures NonNegative(es) ==> d >= 0
  {
    if es == [] then 0
    else
      assert es[0] in es && forall e | e in es[1..] :: e in es;
      (if es[0].date == date && InMonth(s, date) then es[0].amountCents else 0) + DateTotal(es[1..], s, date)
  }

  /** `Math.round(totalSpend / daysInMonth)`, as `daysInMonth > 0 ? ... : 0` has it. */
  function AvgPerDay(es: seq<Expense>, s: MonthSpan): (a: int)
    requires Spans(s) && NonNegative(es)
    ensures 0 <= a <= TotalSpend(es, s)
    ensures s.days > 0 ==> a == Round(TotalSpend(es, s) as real / s.days as real)
  {
    if s.days > 0 then
      RoundDivIsRound(TotalSpend(es, s), s.days);
      RoundDiv(TotalSpend(es, s), s.days)
    else 0
  }

  // ---- the daily series -----------------------------------------------------

  datatype DayTotal = DayTotal(date: string, total: int)

  /** The first `n` days of the month with their spend. */
  function Series(es: seq<Expense>, s: MonthSpan, n: nat): (r: seq<DayTotal>)
    requires Spans(s)
    ensures |r| == n
    ensures forall i :: 0 <= i < n ==> r[i] == DayTotal(DateStr(s, i + 1), DateTotal(es, s, DateStr(s, i + 1)))
  {
    seq(n, i requires 0 <= i < n => DayTotal(DateStr(s, i + 1), DateTotal(es, s, DateStr(s, i + 1))))
  }

  lemma SeriesSnoc(es: seq<Expense>, s: MonthSpan, n: nat)
    requires Spans(s)
    ensures Series(es, s, n + 1) == Series(es, s, n) + [DayTotal(DateStr(s, n + 1), DateTotal(es, s, DateStr(s, n + 1)))]
  {
    var a, b := Series(es, s, n + 1), Series(es, s, n);
    assert forall i :: 0 <= i < n ==> a[i] == b[i];
  }

  /** One entry per day of the month, in order, each with that date's spend. */
  function DailySeries(es: seq<Expense>, s: MonthSpan): (r: seq<DayTotal>)
    requires Spans(s)
    ensures |r| == s.days
    ensures forall i :: 0 <= i < |r| ==> r[i].date == DateStr(s, i + 1) && r[i].total == DateTotal(es, s, r[i].date)
  {
    Series(es, s, s.days)
  }

  /**
   * `SELECT date, SUM(amount_cents) ... GROUP BY date`: the spend of each
   * date of the month on which something was spent.
   */
  function DayGroups(es: seq<Expense>, s: MonthSpan): (g: map<string, int>)
    requires Spans(s)
    ensures forall d :: d in g <==> exists e :: e in es && e.date == d && InMonth(s, d)
    ensures forall d | d in g :: g[d] == DateTotal(es, s, d)
  {
    var dates := set e | e in es && InMonth(s, e.date) :: e.date;
    map d | d in dates :: DateTotal(es, s, d)
  }

  /** A day of the month missing from the groups is a day without spending. */
  lemma GroupedOrZero(es: seq<Expense>, s: MonthSpan, day: nat)
    requires Spans(s) && 1 <= day <= s.days
    ensures var d, g := DateStr(s, day), DayGroups(es, s);
      (if d in g then g[d] else 0) == DateTotal(es, s, d)
  {
    var d, g := DateStr(s, day), DayGroups(es, s);
    if d !in g {
      DateStrInMonth(s, day);
    }
  }

  /** The zero-filling loop: one entry per day, the grouped spend of its date or 0. */
  method DailyData(es: seq<Expense>, s: MonthSpan) returns (daily: seq<DayTotal>)
    requires Spans(s)
    ensures daily == DailySeries(es, s)
  {
    var groups := DayGroups(es, s);
    var days := s.days;
    daily := [];
    var day := 1;
    while day <= days
      invariant 1 <= day <= days + 1
      invariant |daily| == day - 1
      invariant daily == Series(es, s, day - 1)
    {
      var dateStr := DateStr(s, day);
      var total := if dateStr in groups then groups[dateStr] else 0;
      GroupedOrZero(es, s, day);
      SeriesSnoc(es, s, day - 1);
      daily := daily + [DayTotal(dateStr, total)];
      day := day + 1;
    }
  }

  /** The series has one entry per day of the month, the i-th dated day i + 1, every date in the month. */
  lemma DailySeriesDates(es: seq<Expense>, s: MonthSpan)
    requires Spans(s)
    ensures |DailySeries(es, s)| == s.days
    ensures forall i :: 0 <= i < s.days ==>
      DailySeries(es, s)[i].date == DateStr(s, i + 1) && InMonth(s, DailySeries(es, s)[i].date)
  {
    forall d | 1 <= d <= s.days ensures InMonth(s, DateStr(s, d)) {
      DateStrInMonth(s, d);
    }
  }

  /** The dates of the series ascend strictly. */
  lemma DailySeriesAscending(es: seq<Expense>, s: MonthSpan)
    requires Spans(s)
    ensures forall i, j :: 0 <= i < j < |DailySeries(es, s)| ==>
      TextLe(DailySeries(es, s)[i].date, DailySeries(es, s)[j].date)
      && DailySeries(es, s)[i].date != DailySeries(es, s)[j].date
  {
    var ds := DailySeries(es, s);
    forall i, j | 0 <= i < j < |ds| ensures TextLe(ds[i].date, ds[j].date) && ds[i].date != ds[j].date {
      DatesAscend(s, i + 1, j + 1);
    }
  }

  /** A day on which nothing was spent is filled with 0. */
  lemma DailySeriesZeroDays(es: seq<Expense>, s: MonthSpan, i: nat)
    requires Spans(s) && i < s.days
    requires forall e | e in es :: e.date != DateStr(s, i + 1)
    ensures DailySeries(es, s)[i].total == 0
  {
  }

  lemma DatesAscend(s: MonthSpan, d1: nat, d2: nat)
    requires d1 < d2 < 100
    ensures TextLe(DateStr(s, d1), DateStr(s, d2)) && DateStr(s, d1) != DateStr(s, d2)
  {
    DateStrMonotone(s, d1, d2);
    if DateStr(s, d1) == DateStr(s, d2) {
      DateStrInjective(s, d1, d2);
    }
  }

  /** Sum of the totals of a series. */
  function SeriesTotal(series: seq<DayTotal>): int {
    if series == [] then 0 else SeriesTotal(series[..|series| - 1]) + series[|series| - 1].total
  }

  /** Spend over days 1..n of the month, day by day. */
  function DaySum(es: seq<Expense>, s: MonthSpan, n: nat): int
    requires Spans(s)
  {
    if n == 0 then 0 else DaySum(es, s, n - 1) + DateTotal(es, s, DateStr(s, n))
  }

  lemma {:induction false} SeriesTotalIsDaySum(es: seq<Expense>, s: MonthSpan, n: nat)
    requires Spans(s)
    ensures SeriesTotal(Series(es, s, n)) == DaySum(es, s, n)
  {
    if n > 0 {
      assert Series(es, s, n)[..n - 1] == Series(es, s, n - 1);
      SeriesTotalIsDaySum(es, s, n - 1);
    }
  }

  /** What one expense adds to days 1..n. */
  function Hits(e: Expense, s: MonthSpan, n: nat): int
    requires Spans(s)
  {
    if n == 0 then 0
    else Hits(e, s, n - 1) + (if e.date == DateStr(s, n) && InMonth(s, e.date) then e.amountCents else 0)
  }

  lemma {:induction false} DaySumSplit(es: seq<Expense>, s: MonthSpan, n: nat)
    requires Spans(s) && es != []
    ensures DaySum(es, s, n) == Hits(es[0], s, n) + DaySum(es[1..], s, n)
  {
    if n > 0 {
      DaySumSplit(es, s, n - 1);
      var d := DateStr(s, n);
      var hit := if es[0].date == d && InMonth(s, d) then es[0].amountCents else 0;
      assert DateTotal(es, s, d) == hit + DateTotal(es[1..], s, d);
      assert Hits(es[0], s, n) == Hits(es[0], s, n - 1) + hit;
    }
  }

  /** An expense of the month adds its amount on its own day and nowhere else. */
  lemma {:induction false} HitsOnItsDay(e: Expense, s: MonthSpan, n: nat, day: nat)
    requires Spans(s) && 1 <= day <= n < 100 && e.date == DateStr(s, day) && InMonth(s, e.date)
    ensures Hits(e, s, n) == e.amountCents
  {
    var hit := if e.date == DateStr(s, n) && InMonth(s, e.date) then e.amountCents else 0;
    assert Hits(e, s, n) == Hits(e, s, n - 1) + hit;
    if n > day {
      DateStrDistinct(s, day, n);
      assert hit == 0;
      HitsOnItsDay(e, s, n - 1, day);
    } else {
      assert hit == e.amountCents;
      HitsBefore(e, s, n - 1, day);
    }
  }

  lemma {:induction false} HitsBefore(e: Expense, s: MonthSpan, n: nat, day: nat)
    requires Spans(s) && n < day < 100 && e.date == DateStr(s, day)
    ensures Hits(e, s, n) == 0
  {
    if n > 0 {
      DateStrDistinct(s, day, n);
      HitsBefore(e, s, n - 1, day);
    }
  }

  lemma {:induction false} HitsOutside(e: Expense, s: MonthSpan, n: nat)
    requires Spans(s) && !InMonth(s, e.date)
    ensures Hits(e, s, n) == 0
  {
    if n > 0 {
      HitsOutside(e, s, n - 1);
    }
  }

  lemma {:induction false} DaySumIsTotal(es: seq<Expense>, s: MonthSpan)
    requires Spans(s) && forall e | e in es :: IsDateText(e.date)
    ensures DaySum(es, s, s.days) == TotalSpend(es, s)
  {
    var n := s.days;
    if es == [] {
      DaySumOfNothing(s, n);
    } else {
      var e := es[0];
      assert e in es && forall x | x in es[1..] :: x in es;
      DaySumSplit(es, s, n);
      DaySumIsTotal(es[1..], s);
      HitsOverMonth(e, s);
    }
  }

  /** Over the whole month an expense adds its amount exactly when it falls in the month. */
  lemma HitsOverMonth(e: Expense, s: MonthSpan)
    requires Spans(s) && IsDateText(e.date)
    ensures Hits(e, s, s.days) == if InMonth(s, e.date) then e.amountCents else 0
  {
    if InMonth(s, e.date) {
      InMonthIsDateStr(s, e.date);
      HitsOnItsDay(e, s, s.days, DayOf(e.date));
    } else {
      HitsOutside(e, s, s.days);
    }
  }

  lemma {:induction false} DaySumOfNothing(s: MonthSpan, n: nat)
    requires Spans(s)
    ensures DaySum([], s, n) == 0
  {
    if n > 0 {
      DaySumOfNothing(s, n - 1);
      var date := DateStr(s, n);
      assert DateTotal([], s, date) == 0;
    }
  }

  /** The daily series adds up to the month's total spend. */
  lemma DailySeriesSumsToTotal(es: seq<Expense>, s: MonthSpan)
    requires Spans(s) && forall e | e in es :: IsDateText(e.date)
    ensures SeriesTotal(DailySeries(es, s)) == TotalSpend(es, s)
  {
    SeriesTotalIsDaySum(es, s, s.days);
    DaySumIsTotal(es, s);
  }

  // ---- categories -----------------------------------------------------------

  datatype CategoryTotal = CategoryTotal(id: string, name: string, total: int)

  /** The LEFT JOIN ... GROUP BY c.id: every category with its spend over the month, in table order. */
  function CategoryTotals(cats: seq<Category>, es: seq<Expense>, s: MonthSpan): (r: seq<CategoryTotal>)
    requires Spans(s)
    ensures |r| == |cats|
    ensures forall i :: 0 <= i < |cats| ==>
      r[i] == CategoryTotal(cats[i].id, cats[i].name, CategorySpend(es, s, cats[i].id))
  {
    seq(|cats|, i requires 0 <= i < |cats| => CategoryTotal(cats[i].id, cats[i].name, CategorySpend(es, s, cats[i].id)))
  }

  /** `ORDER BY total DESC`. */
  predicate LargerOrSame(a: CategoryTotal, b: CategoryTotal) {
    a.total >= b.total
  }

  function ByTotal(cats: seq<Category>, es: seq<Expense>, s: MonthSpan): (r: seq<CategoryTotal>)
    requires Spans(s)
    ensures multiset(r) == multiset(CategoryTotals(cats, es, s))
    ensures Sorted(r, LargerOrSame)
  {
    assert IsTotalPreorder(LargerOrSame);
    Sort(CategoryTotals(cats, es, s), LargerOrSame)
  }

  /** `categoryTotals.find(c => c.total > 0)`. */
  function FirstPositive(ts: seq<CategoryTotal>): (r: Option<CategoryTotal>)
    ensures r.None? <==> forall t | t in ts :: t.total <= 0
    ensures r.Some? ==> r.value in ts && r.value.total > 0
  {
    if ts == [] then None
    else if ts[0].total > 0 then Some(ts[0])
    else
      assert forall t | t in ts :: t == ts[0] || t in ts[1..];
      FirstPositive(ts[1..])
  }

  /** The top category: none iff no category spent anything; otherwise one no other category exceeds. */
  lemma TopCategoryIsMaximal(cats: seq<Category>, es: seq<Expense>, s: MonthSpan)
    requires Spans(s) && NonNegative(es)
    ensures var top := FirstPositive(ByTotal(cats, es, s));
      && (top.None? <==> forall c | c in cats :: CategorySpend(es, s, c.id) == 0)
      && (top.Some? ==>
            && top.value.total > 0
            && (exists c | c in cats :: top.value == CategoryTotal(c.id, c.name, CategorySpend(es, s, c.id)))
            && forall c | c in cats :: CategorySpend(es, s, c.id) <= top.value.total)
  {
    var ts := CategoryTotals(cats, es, s);
    var sorted := ByTotal(cats, es, s);
    var top := FirstPositive(sorted);
    forall t ensures t in ts <==> t in sorted {
      assert t in ts <==> t in multiset(ts);
      assert t in sorted <==> t in multiset(sorted);
    }
    forall c | c in cats ensures CategoryTotal(c.id, c.name, CategorySpend(es, s, c.id)) in ts {
      var i :| 0 <= i < |cats| && cats[i] == c;
      assert ts[i] == CategoryTotal(c.id, c.name, CategorySpend(es, s, c.id));
    }
    if top.Some? {
      assert sorted[0].total > 0 by {
        var i :| 0 <= i < |sorted| && sorted[i] == top.value;
        assert i == 0 || LargerOrSame(sorted[0], sorted[i]);
      }
      assert top.value == sorted[0];
      forall c | c in cats ensures CategorySpend(es, s, c.id) <= top.value.total {
        var t := CategoryTotal(c.id, c.name, CategorySpend(es, s, c.id));
        var j :| 0 <= j < |sorted| && sorted[j] == t;
        assert j == 0 || LargerOrSame(sorted[0], sorted[j]);
      }
      assert top.value in ts;
      var i :| 0 <= i < |ts| && ts[i] == top.value;
      assert cats[i] in cats;
    }
  }

  /** A row of the breakdown: its total in dollars and its share of the month in percent. */
  datatype Share = Share(id: string, name: string, total: real, percentage: int)

  /** `totalSpend > 0 ? Math.round((total / totalSpend) * 100) : 0`. */
  function Percentage(total: int, totalSpend: int): (p: int)
    requires total >= 0
    ensures 0 <= total <= totalSpend ==> 0 <= p <= 100
    ensures totalSpend <= 0 ==> p == 0
  {
    if totalSpend > 0 then
      assert total <= totalSpend ==> RoundDiv(total * 100, totalSpend) <= 100 by {
        if total <= totalSpend { ShareAtMostAll(total, totalSpend); }
      }
      RoundDiv(total * 100, totalSpend)
    else 0
  }

  lemma ShareAtMostAll(total: int, totalSpend: int)
    requires 0 <= total <= totalSpend && totalSpend > 0
    ensures RoundDiv(total * 100, totalSpend) <= 100
  {
    var p := RoundDiv(total * 100, totalSpend);
    assert 2 * totalSpend * p <= 2 * (total * 100) + totalSpend;
    assert total * 100 <= totalSpend * 100;
    assert 2 * totalSpend * p < 2 * totalSpend * 101;
  }

  /** The integer formula is `Math.round((total / totalSpend) * 100)` of the exact quotient. */
  lemma PercentageIsRound(total: int, totalSpend: int)
    requires total >= 0 && totalSpend > 0
    ensures Percentage(total, totalSpend) == Round(total as real / totalSpend as real * 100.0)
  {
    RoundDivIsRound(total * 100, totalSpend);
    var t, d := total as real, totalSpend as real;
    assert (total * 100) as real == t * 100.0;
    assert t * 100.0 / d == t / d * 100.0;
  }

  /** An exact tie: 2300 of 4000 cents is 57.5 percent, which rounds up. */
  lemma PercentageOfTie()
    ensures Percentage(2300, 4000) == 58
  {
    assert RoundDiv(230000, 4000) == 58;
  }

  /** One entry of the breakdown: the category, its positive total in dollars and its share of the month. */
  function ShareOf(t: CategoryTotal, totalSpend: int): (r: Share)
    requires t.total > 0
    ensures r.id == t.id && r.name == t.name
    ensures r.total > 0.0 && r.total * 100.0 == t.total as real
    ensures t.total <= totalSpend ==> 0 <= r.percentage <= 100
  {
    Share(t.id, t.name, ToDollars(t.total), Percentage(t.total, totalSpend))
  }

  /** `.filter(c => c.total > 0).map(...)`. */
  function Breakdown(ts: seq<CategoryTotal>, totalSpend: int): (r: seq<Share>)
    ensures forall t | t in ts && t.total > 0 :: ShareOf(t, totalSpend) in r
    ensures forall sh | sh in r :: exists t | t in ts && t.total > 0 :: sh == ShareOf(t, totalSpend)
    ensures |r| <= |ts|
  {
    if ts == [] then []
    else
      var rest := Breakdown(ts[1..], totalSpend);
      assert forall t | t in ts :: t == ts[0] || t in ts[1..];
      if ts[0].total > 0 then [ShareOf(ts[0], totalSpend)] + rest else rest
  }

  /** No share of the breakdown exceeds a bound on every category total. */
  lemma BreakdownBelow(ts: seq<CategoryTotal>, totalSpend: int, bound: int)
    requires forall t | t in ts :: t.total <= bound
    ensures forall sh | sh in Breakdown(ts, totalSpend) :: sh.total <= ToDollars(bound)
  {
  }

  /** Shares listed largest total first. */
  predicate SharesDescending(r: seq<Share>) {
    forall i, j :: 0 <= i < j < |r| ==> r[i].total >= r[j].total
  }

  lemma ConsDescending(x: Share, rest: seq<Share>)
    requires SharesDescending(rest) && forall sh | sh in rest :: sh.total <= x.total
    ensures SharesDescending([x] + rest)
  {
    var r := [x] + rest;
    forall i, j | 0 <= i < j < |r|
      ensures r[i].total >= r[j].total
    {
      assert r[j] == rest[j - 1] && rest[j - 1] in rest;
      if i > 0 {
        assert r[i] == rest[i - 1];
      }
    }
  }

  /** The filter keeps the order of `ts`: totals sorted largest first stay largest first. */
  lemma {:induction false} BreakdownKeepsOrder(ts: seq<CategoryTotal>, totalSpend: int)
    requires forall i, j :: 0 <= i < j < |ts| ==> ts[i].total >= ts[j].total
    ensures SharesDescending(Breakdown(ts, totalSpend))
  {
    if ts != [] {
      var rest := Breakdown(ts[1..], totalSpend);
      BreakdownKeepsOrder(ts[1..], totalSpend);
      if ts[0].total > 0 {
        assert forall t | t in ts[1..] :: t.total <= ts[0].total;
        BreakdownBelow(ts[1..], totalSpend, ts[0].total);
        ConsDescending(ShareOf(ts[0], totalSpend), rest);
      } else {
        assert Breakdown(ts, totalSpend) == rest;
      }
    }
  }

  /** Each share of the breakdown lies between 0 and 100 percent, and is 0 when the month spent nothing. */
  lemma BreakdownPercentages(cats: seq<Category>, es: seq<Expense>, s: MonthSpan)
    requires Spans(s) && NonNegative(es)
    ensures forall sh | sh in Breakdown(ByTotal(cats, es, s), TotalSpend(es, s)) :: 0 <= sh.percentage <= 100
    ensures TotalSpend(es, s) == 0 ==> forall sh | sh in Breakdown(ByTotal(cats, es, s), TotalSpend(es, s)) :: sh.percentage == 0
  {
    var ts := CategoryTotals(cats, es, s);
    var sorted := ByTotal(cats, es, s);
    forall t | t in sorted ensures 0 <= t.total <= TotalSpend(es, s) {
      assert t in multiset(ts);
      var i :| 0 <= i < |ts| && ts[i] == t;
      assert t.total == CategorySpend(es, s, cats[i].id);
    }
  }

  // ---- the report -----------------------------------------------------------

  datatype TopCategory = TopCategory(id: string, name: string, total: real)

  datatype DayAmount = DayAmount(date: string, total: real)

  datatype Report = Report(
    month: string,
    totalSpend: real,
    avgPerDay: real,
    topCategory: Option<TopCategory>,
    categoryBreakdown: seq<Share>,
    dailyTotals: seq<DayAmount>,
    recentExpenses: seq<ExpenseRoutes.ExpenseView>)

  const RecentLimit := 10

  /** The expenses of the month, in table order. */
  function InMonthRows(es: seq<Expense>, s: MonthSpan): (r: seq<Expense>)
    requires Spans(s)
    ensures forall e :: e in r <==> e in es && InMonth(s, e.date)
  {
    if es == [] then []
    else if InMonth(s, es[0].date) then [es[0]] + InMonthRows(es[1..], s)
    else InMonthRows(es[1..], s)
  }

  /**
   * `ORDER BY e.date DESC, e.created_at DESC LIMIT 10`: the first ten of the
   * month's expenses newest first, or all of them when there are fewer.
   */
  function Recent(es: seq<Expense>, s: MonthSpan): (r: seq<Expense>)
    requires Spans(s)
    ensures |r| == if |InMonthRows(es, s)| < RecentLimit then |InMonthRows(es, s)| else RecentLimit
    ensures r == ExpenseRoutes.NewestFirst(InMonthRows(es, s))[..|r|]
  {
    var sorted := ExpenseRoutes.NewestFirst(InMonthRows(es, s));
    assert |sorted| == |multiset(sorted)| == |InMonthRows(es, s)|;
    ExpenseRoutes.Limit(sorted, RecentLimit, 0)
  }

  /** At most ten, all of the month, newest first. */
  lemma RecentShape(es: seq<Expense>, s: MonthSpan)
    requires Spans(s)
    ensures |Recent(es, s)| <= RecentLimit
    ensures forall e | e in Recent(es, s) :: e in es && InMonth(s, e.date)
    ensures Sorted(Recent(es, s), ExpenseRoutes.NewerOrSame)
  {
    var sorted := ExpenseRoutes.NewestFirst(InMonthRows(es, s));
    var r := Recent(es, s);
    forall e | e in r ensures e in es && InMonth(s, e.date) {
      assert e in sorted;
      assert e in multiset(sorted);
    }
    assert forall i :: 0 <= i < |r| ==> r[i] == sorted[i];
  }

  function DayAmounts(series: seq<DayTotal>): (r: seq<DayAmount>)
    ensures |r| == |series|
    ensures forall i :: 0 <= i < |series| ==> r[i] == DayAmount(series[i].date, ToDollars(series[i].total))
  {
    seq(|series|, i requires 0 <= i < |series| => DayAmount(series[i].date, ToDollars(series[i].total)))
  }

  /** `topCategory`: null when there is no row, else the row's category and its total in dollars. */
  function TopOf(t: Option<CategoryTotal>): (r: Option<TopCategory>)
    ensures r.Some? <==> t.Some?
    ensures r.Some? ==>
      r.value.id == t.value.id && r.value.name == t.value.name && r.value.total * 100.0 == t.value.total as real
  {
    match t
    case None => None
    case Some(c) => Some(TopCategory(c.id, c.name, ToDollars(c.total)))
  }

  /**
   * The report of a month, with the daily series given: the month's total
   * and daily average in dollars, no top category exactly when nothing was
   * spent and otherwise a category that spent the most, percentages within
   * 0..100 listed largest total first, the series' days with their amounts
   * in dollars and at most ten recent expenses.
   */
  function ReportOf(cats: seq<Category>, es: seq<Expense>, m: string, daily: seq<DayTotal>): (r: Report)
    requires IsMonthText(m) && NonNegative(es)
    ensures r.month == m
    ensures r.totalSpend == ToDollars(TotalSpend(es, SpanOf(m))) && r.totalSpend >= 0.0
    ensures 0.0 <= r.avgPerDay <= r.totalSpend
    ensures r.topCategory.None? <==> forall c | c in cats :: CategorySpend(es, SpanOf(m), c.id) == 0
    ensures r.topCategory.Some? ==>
      && (exists c | c in cats :: r.topCategory.value.id == c.id && r.topCategory.value.name == c.name)
      && forall c | c in cats :: ToDollars(CategorySpend(es, SpanOf(m), c.id)) <= r.topCategory.value.total
    ensures forall sh | sh in r.categoryBreakdown :: 0 <= sh.percentage <= 100
    ensures SharesDescending(r.categoryBreakdown)
    ensures |r.dailyTotals| == |daily|
    ensures forall i | 0 <= i < |daily| ::
      r.dailyTotals[i].date == daily[i].date && r.dailyTotals[i].total * 100.0 == daily[i].total as real
    ensures |r.recentExpenses| <= RecentLimit
  {
    var s := SpanOf(m);
    var sorted := ByTotal(cats, es, s);
    TopCategoryIsMaximal(cats, es, s);
    BreakdownPercentages(cats, es, s);
    assert forall i, j :: 0 <= i < j < |sorted| ==> LargerOrSame(sorted[i], sorted[j]);
    BreakdownKeepsOrder(sorted, TotalSpend(es, s));
    Report(m, ToDollars(TotalSpend(es, s)), ToDollars(AvgPerDay(es, s)), TopOf(FirstPositive(sorted)),
      Breakdown(sorted, TotalSpend(es, s)), DayAmounts(daily),
      ExpenseRoutes.Views(cats, Recent(es, s)))
  }

  /** `GET /api/metrics/month?month=YYYY-MM`. */
  method MonthReport(db: Ledger, month: Option<string>) returns (r: Result<Report, Thrown>)
    requires db.Valid()
    ensures ParseMetricsMonth(month).Failure? ==>
      r == Failure(ValidationError(ParseMetricsMonth(month).error))
    ensures ParseMetricsMonth(month).Success? ==>
      var m := ParseMetricsMonth(month).value;
      && IsMonthText(m)
      && NonNegative(db.expenses)
      && r == Success(ReportOf(db.categories, db.expenses, m, DailySeries(db.expenses, SpanOf(m))))
  {
    var parsed := ParseMetricsMonth(month);
    if parsed.Failure? {
      return Failure(ValidationError(parsed.error));
    }
    var m := parsed.value;
    var daily := DailyData(db.expenses, SpanOf(m));
    r := Success(ReportOf(db.categories, db.expenses, m, daily));
  }
}
