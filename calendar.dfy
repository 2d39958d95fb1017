/**
 * Calendar dates as Ruby's `Date` treats them: the proleptic Gregorian calendar,
 * compared in calendar order, with day arithmetic (`date + n.days`, `date - other`),
 * month and week boundaries (`beginning_of_month`, `end_of_week(:sunday)`) and
 * `next_month`.
 */
module Calendar {

  datatype YMD = YMD(year: int, month: int, day: int)

  predicate IsLeapYear(y: int) {
    y % 4 == 0 && (y % 100 != 0 || y % 400 == 0)
  }

  /** The length of month `m` of year `y`. */
  function DaysInMonth(y: int, m: int): (n: int)
    requires 1 <= m <= 12
    ensures 28 <= n <= 31
    ensures n == 29 <==> m == 2 && IsLeapYear(y)
  {
    if m == 2 then (if IsLeapYear(y) then 29 else 28)
    else if m == 4 || m == 6 || m == 9 || m == 11 then 30
    else 31
  }

  predicate IsDate(d: YMD) {
    1 <= d.month <= 12 && 1 <= d.day <= DaysInMonth(d.year, d.month)
  }

  /** A real calendar day (any year, month 1..12, day within the month). */
  type Date = d: YMD | IsDate(d) witness YMD(2000, 1, 1)

  /** Calendar order: by year, then month, then day. */
  predicate Before(a: Date, b: Date) {
    a.year < b.year
    || (a.year == b.year && a.month < b.month)
    || (a.year == b.year && a.month == b.month && a.day < b.day)
  }

  predicate Leq(a: Date, b: Date) {
    a == b || Before(a, b)
  }

  lemma BeforeTotal(a: Date, b: Date)
    ensures a == b || Before(a, b) || Before(b, a)
    ensures !(Before(a, b) && Before(b, a))
    ensures !Before(a, a)
  {
  }

  /** Days of year `y` before the first of month `m`. */
  function DaysBeforeMonth(y: int, m: int): (n: int)
    requires 1 <= m <= 12
    ensures 0 <= n <= 335
  {
    var common := if m == 1 then 0 else if m == 2 then 31 else if m == 3 then 59
      else if m == 4 then 90 else if m == 5 then 120 else if m == 6 then 151
      else if m == 7 then 181 else if m == 8 then 212 else if m == 9 then 243
      else if m == 10 then 273 else if m == 11 then 304 else 334;
    if m > 2 && IsLeapYear(y) then common + 1 else common
  }

  lemma DaysBeforeMonthStep(y: int, m: int)
    requires 1 <= m < 12
    ensures DaysBeforeMonth(y, m + 1) == DaysBeforeMonth(y, m) + DaysInMonth(y, m)
  {
  }

  function LeapDay(y: int): int {
    if IsLeapYear(y) then 1 else 0
  }

  /** Days from 1 January of year 1 to 1 January of year `y` (negative before year 1). */
  function YearStart(y: int): int {
    365 * (y - 1) + (y - 1) / 4 - (y - 1) / 100 + (y - 1) / 400
  }

  lemma DivStep4(y: int)
    ensures y / 4 - (y - 1) / 4 == if y % 4 == 0 then 1 else 0
  {
  }

  lemma DivStep100(y: int)
    ensures y / 100 - (y - 1) / 100 == if y % 100 == 0 then 1 else 0
  {
  }

  lemma DivStep400(y: int)
    ensures y / 400 - (y - 1) / 400 == if y % 400 == 0 then 1 else 0
  {
  }

  lemma YearStep(y: int)
    ensures YearStart(y + 1) == YearStart(y) + 365 + LeapDay(y)
  {
    DivStep4(y);
    DivStep100(y);
    DivStep400(y);
    CenturyDivisibility(y);
    var a, b, c := y / 4 - (y - 1) / 4, y / 100 - (y - 1) / 100, y / 400 - (y - 1) / 400;
    assert YearStart(y + 1) - YearStart(y) == 365 + a - b + c;
    assert a - b + c == LeapDay(y);
  }

  lemma CenturyDivisibility(y: int)
    ensures y % 100 == 0 ==> y % 4 == 0
    ensures y % 400 == 0 ==> y % 100 == 0
  {
  }

  lemma {:induction false} YearStartMonotone(y1: int, y2: int)
    requires y1 <= y2
    ensures YearStart(y1) + 365 * (y2 - y1) <= YearStart(y2)
    decreases y2 - y1
  {
    if y1 < y2 {
      YearStartMonotone(y1 + 1, y2);
      YearStep(y1);
    }
  }

  /**
   * The day's position on a single count of days (1 January of year 1 is day 0):
   * what Ruby's `Date#jd` gives, up to a constant.
   */
  function DayNumber(d: Date): int {
    YearStart(d.year) + DaysBeforeMonth(d.year, d.month) + d.day - 1
  }

  lemma DayNumberWithinYear(d: Date)
    ensures YearStart(d.year) <= DayNumber(d) < YearStart(d.year + 1)
  {
    YearStep(d.year);
  }

  /** Calendar order is the order of day numbers. */
  lemma BeforeIsEarlier(a: Date, b: Date)
    ensures Before(a, b) <==> DayNumber(a) < DayNumber(b)
  {
    if Before(a, b) {
      EarlierDayNumber(a, b);
    } else if a != b {
      BeforeTotal(a, b);
      EarlierDayNumber(b, a);
    }
  }

  lemma EarlierDayNumber(a: Date, b: Date)
    requires Before(a, b)
    ensures DayNumber(a) < DayNumber(b)
  {
    if a.year < b.year {
      DayNumberWithinYear(a);
      DayNumberWithinYear(b);
      YearStartMonotone(a.year + 1, b.year);
    } else if a.month < b.month {
      MonthsAccumulate(a.year, a.month, b.month);
    }
  }

  lemma {:induction false} MonthsAccumulate(y: int, m1: int, m2: int)
    requires 1 <= m1 < m2 <= 12
    ensures DaysBeforeMonth(y, m1) + DaysInMonth(y, m1) <= DaysBeforeMonth(y, m2)
    decreases m2 - m1
  {
    DaysBeforeMonthStep(y, m1);
    if m1 + 1 < m2 {
      MonthsAccumulate(y, m1 + 1, m2);
    }
  }

  /** Distinct dates have distinct day numbers. */
  lemma DayNumberInjective(a: Date, b: Date)
    requires DayNumber(a) == DayNumber(b)
    ensures a == b
  {
    BeforeIsEarlier(a, b);
    BeforeIsEarlier(b, a);
    BeforeTotal(a, b);
  }

  lemma LeqIsNotLater(a: Date, b: Date)
    ensures Leq(a, b) <==> DayNumber(a) <= DayNumber(b)
  {
    BeforeIsEarlier(a, b);
    if DayNumber(a) == DayNumber(b) {
      DayNumberInjective(a, b);
    }
  }

  /** `date + 1.day`. */
  function NextDay(d: Date): (r: Date)
    ensures DayNumber(r) == DayNumber(d) + 1
  {
    if d.day < DaysInMonth(d.year, d.month) then
      YMD(d.year, d.month, d.day + 1)
    else if d.month < 12 then
      DaysBeforeMonthStep(d.year, d.month);
      YMD(d.year, d.month + 1, 1)
    else
      YearStep(d.year);
      YMD(d.year + 1, 1, 1)
  }

  /** `date - 1.day`. */
  function PrevDay(d: Date): (r: Date)
    ensures DayNumber(r) == DayNumber(d) - 1
  {
    if d.day > 1 then
      YMD(d.year, d.month, d.day - 1)
    else if d.month > 1 then
      DaysBeforeMonthStep(d.year, d.month - 1);
      YMD(d.year, d.month - 1, DaysInMonth(d.year, d.month - 1))
    else
      YearStep(d.year - 1);
      YMD(d.year - 1, 12, 31)
  }

  lemma NextPrevInverse(d: Date)
    ensures PrevDay(NextDay(d)) == d
    ensures NextDay(PrevDay(d)) == d
  {
    DayNumberInjective(PrevDay(NextDay(d)), d);
    DayNumberInjective(NextDay(PrevDay(d)), d);
  }

  /** `date + n.days` (`n` may be negative). */
  function AddDays(d: Date, n: int): (r: Date)
    ensures DayNumber(r) == DayNumber(d) + n
    decreases if n < 0 then -n else n
  {
    if n == 0 then d
    else if n > 0 then AddDays(NextDay(d), n - 1)
    else AddDays(PrevDay(d), n + 1)
  }

  /** `later - earlier` in whole days. */
  function DaysBetween(earlier: Date, later: Date): (n: int)
    ensures AddDays(earlier, n) == later
  {
    var n := DayNumber(later) - DayNumber(earlier);
    DayNumberInjective(AddDays(earlier, n), later);
    n
  }

  /** Day of the week: 0 is Sunday, 6 is Saturday (1 January of year 1 was a Monday). */
  function Weekday(d: Date): (w: int)
    ensures 0 <= w < 7
  {
    (DayNumber(d) + 1) % 7
  }

  function BeginningOfMonth(d: Date): (r: Date)
    ensures r.year == d.year && r.month == d.month && r.day == 1
  {
    YMD(d.year, d.month, 1)
  }

  function EndOfMonth(d: Date): (r: Date)
    ensures r.year == d.year && r.month == d.month
    ensures r.day == DaysInMonth(d.year, d.month)
  {
    YMD(d.year, d.month, DaysInMonth(d.year, d.month))
  }

  predicate SameMonth(a: Date, b: Date) {
    a.year == b.year && a.month == b.month
  }

  /** The dates of a month are exactly those from its first to its last day. */
  lemma MonthBounds(d: Date, x: Date)
    ensures SameMonth(x, d) <==> Leq(BeginningOfMonth(d), x) && Leq(x, EndOfMonth(d))
  {
  }

  /** Counting `k` days on from the first of a month stays inside the month while `k` is short of its length. */
  lemma {:induction false} DaysIntoMonth(d: Date, k: int)
    requires 0 <= k < DaysInMonth(d.year, d.month)
    ensures AddDays(BeginningOfMonth(d), k) == YMD(d.year, d.month, k + 1)
  {
    var first := BeginningOfMonth(d);
    var target: Date := YMD(d.year, d.month, k + 1);
    DayNumberInjective(AddDays(first, k), target);
  }

  /** `next_month`: the same day of the following month, clamped to that month's length. */
  function NextMonth(d: Date): (r: Date)
    ensures MonthIndex(r) == MonthIndex(d) + 1
    ensures r.day == if d.day <= DaysInMonth(r.year, r.month) then d.day else DaysInMonth(r.year, r.month)
  {
    var y := if d.month == 12 then d.year + 1 else d.year;
    var m := if d.month == 12 then 1 else d.month + 1;
    var last := DaysInMonth(y, m);
    YMD(y, m, if d.day <= last then d.day else last)
  }

  /** Months counted on a single scale, so that consecutive months differ by one. */
  function MonthIndex(d: Date): int {
    d.year * 12 + d.month - 1
  }

  lemma MonthIndexOrder(a: Date, b: Date)
    ensures MonthIndex(a) < MonthIndex(b) ==> Before(a, b)
    ensures Leq(a, b) ==> MonthIndex(a) <= MonthIndex(b)
    ensures MonthIndex(a) == MonthIndex(b) <==> SameMonth(a, b)
  {
  }

  /** Counted from the first of a month, a date is reached exactly when its month is not an earlier one. */
  lemma FirstOfMonthLeq(c: Date, d: Date)
    requires c.day == 1
    ensures Leq(c, d) <==> MonthIndex(c) <= MonthIndex(d)
  {
  }

  lemma LeqTransitive(a: Date, b: Date, c: Date)
    requires Leq(a, b) && Leq(b, c)
    ensures Leq(a, c)
  {
  }

  lemma WeekRounding(x: int)
    ensures (x - x % 7) % 7 == 0
    ensures (x + 6 - x % 7) % 7 == 6
  {
    var q := x / 7;
    assert x - x % 7 == 7 * q;
    assert x + 6 - x % 7 == 7 * q + 6;
  }

  /** `beginning_of_week(:sunday)`: the Sunday on or before `d`. */
  function BeginningOfWeek(d: Date): (r: Date)
    ensures Weekday(r) == 0
    ensures Leq(r, d) && DayNumber(d) - DayNumber(r) < 7
  {
    var r := AddDays(d, -Weekday(d));
    WeekRounding(DayNumber(d) + 1);
    LeqIsNotLater(r, d);
    r
  }

  /** `end_of_week(:sunday)`: the Saturday on or after `d`. */
  function EndOfWeek(d: Date): (r: Date)
    ensures Weekday(r) == 6
    ensures Leq(d, r) && DayNumber(r) - DayNumber(d) < 7
  {
    var r := AddDays(d, 6 - Weekday(d));
    WeekRounding(DayNumber(d) + 1);
    LeqIsNotLater(d, r);
    r
  }
}
