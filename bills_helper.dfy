/**
 * `BillsHelper`: bills grouped under each bill type, the weeks of a month's
 * calendar (Sunday to Saturday, covering the whole month), and how many days a
 * twice-monthly bill falls due on.
 */
module BillsHelper {
  import opened Wrappers
  import opened Calendar
  import opened Bills

  /** `Bill.bill_types.keys`, in declaration order. */
  const BillTypeKeys: seq<string> := ["income", "expense", "debt_repayment", "payment_plan"]

  lemma BillTypeKeysAreTheTypes()
    ensures forall t :: t in BillTypeKeys <==> t in BillTypes
    ensures forall i, j :: 0 <= i < j < |BillTypeKeys| ==> BillTypeKeys[i] != BillTypeKeys[j]
  {
  }

  /** `bills.select { |bill| bill.bill_type == type }`. */
  function OfType(bills: seq<Bill>, t: string): seq<Bill>
    decreases |bills|
  {
    if bills == [] then []
    else OfType(bills[..|bills| - 1], t) + (if bills[|bills| - 1].billType == t then [bills[|bills| - 1]] else [])
  }

  /** The bills selected for a type are exactly the bills of that type, each as often as it occurs. */
  lemma {:induction false} OfTypeExactly(bills: seq<Bill>, t: string)
    ensures forall b :: b in OfType(bills, t) ==> b.billType == t
    ensures forall b: Bill :: b.billType == t ==> multiset(OfType(bills, t))[b] == multiset(bills)[b]
    decreases |bills|
  {
    if bills != [] {
      var init := bills[..|bills| - 1];
      OfTypeExactly(init, t);
      assert bills == init + [bills[|bills| - 1]];
    }
  }

  /** The bills under the four type keys, in key order. */
  datatype Group = Group(billType: string, bills: seq<Bill>)

  /** `grouped_bills_by_type`: one entry per bill type, holding that type's bills in their given order. */
  function GroupedBillsByType(bills: seq<Bill>): (groups: seq<Group>)
    ensures |groups| == |BillTypeKeys|
    ensures forall i :: 0 <= i < |groups| ==> groups[i].billType == BillTypeKeys[i]
  {
    seq(|BillTypeKeys|, i requires 0 <= i < |BillTypeKeys| => Group(BillTypeKeys[i], OfType(bills, BillTypeKeys[i])))
  }

  /** How many bills have type `t`. */
  function CountOfType(bills: seq<Bill>, t: string): nat
    decreases |bills|
  {
    if bills == [] then 0
    else CountOfType(bills[..|bills| - 1], t) + (if bills[|bills| - 1].billType == t then 1 else 0)
  }

  lemma {:induction false} OfTypeSize(bills: seq<Bill>, t: string)
    ensures |OfType(bills, t)| == CountOfType(bills, t)
    decreases |bills|
  {
    if bills != [] {
      OfTypeSize(bills[..|bills| - 1], t);
    }
  }

  /** Bills whose type is one of the four are counted under exactly one of them. */
  lemma {:induction false} CountsAddUp(bills: seq<Bill>)
    requires forall i :: 0 <= i < |bills| ==> bills[i].billType in BillTypes
    ensures CountOfType(bills, "income") + CountOfType(bills, "expense")
            + CountOfType(bills, "debt_repayment") + CountOfType(bills, "payment_plan") == |bills|
    decreases |bills|
  {
    if bills != [] {
      CountsAddUp(bills[..|bills| - 1]);
    }
  }

  /**
   * Each bill appears under its own type and under no other, and when every
   * bill has one of the four types the groups together hold all of them.
   */
  lemma GroupsPartition(bills: seq<Bill>)
    ensures forall i, b :: 0 <= i < |GroupedBillsByType(bills)| && b in GroupedBillsByType(bills)[i].bills ==>
              b.billType == BillTypeKeys[i] && b in bills
    ensures forall i, b :: 0 <= i < |GroupedBillsByType(bills)| && b in bills && b.billType == BillTypeKeys[i] ==>
              b in GroupedBillsByType(bills)[i].bills
    ensures (forall i :: 0 <= i < |bills| ==> bills[i].billType in BillTypes) ==>
              |GroupedBillsByType(bills)[0].bills| + |GroupedBillsByType(bills)[1].bills|
              + |GroupedBillsByType(bills)[2].bills| + |GroupedBillsByType(bills)[3].bills| == |bills|
  {
    var g := GroupedBillsByType(bills);
    forall i | 0 <= i < |g|
      ensures forall b :: b in g[i].bills ==> b.billType == BillTypeKeys[i] && b in bills
      ensures forall b :: b in bills && b.billType == BillTypeKeys[i] ==> b in g[i].bills
      ensures |g[i].bills| == CountOfType(bills, BillTypeKeys[i])
    {
      OfTypeExactly(bills, BillTypeKeys[i]);
      OfTypeSize(bills, BillTypeKeys[i]);
    }
    if forall i :: 0 <= i < |bills| ==> bills[i].billType in BillTypes {
      CountsAddUp(bills);
    }
  }

  /** `count` consecutive days from `start`: `(start..end).to_a` with `count` days in it. */
  function Days(start: Date, count: nat): seq<Date> {
    seq(count, k requires 0 <= k < count => AddDays(start, k))
  }

  /** `each_slice(size)`: consecutive pieces of `size` elements, the last one possibly shorter. */
  function EachSlice<T>(xs: seq<T>, size: nat): seq<seq<T>>
    requires size > 0
    decreases |xs|
  {
    if xs == [] then []
    else if |xs| <= size then [xs]
    else [xs[..size]] + EachSlice(xs[size..], size)
  }

  function Flatten<T>(xss: seq<seq<T>>): seq<T>
    decreases |xss|
  {
    if xss == [] then [] else xss[0] + Flatten(xss[1..])
  }

  /** Slicing loses and reorders nothing. */
  lemma {:induction false} EachSliceFlatten<T>(xs: seq<T>, size: nat)
    requires size > 0
    ensures Flatten(EachSlice(xs, size)) == xs
    decreases |xs|
  {
    if xs != [] && |xs| > size {
      EachSliceFlatten(xs[size..], size);
      assert xs == xs[..size] + xs[size..];
    }
  }

  /** When the length is a multiple of seven, every slice of seven is full and slice `i` starts at `7 * i`. */
  lemma {:induction false} WeekSlicesFull<T>(xs: seq<T>)
    requires |xs| % 7 == 0
    ensures |EachSlice(xs, 7)| == |xs| / 7
    ensures forall i :: 0 <= i < |EachSlice(xs, 7)| ==> 7 * i + 7 <= |xs| && EachSlice(xs, 7)[i] == xs[7 * i .. 7 * i + 7]
    decreases |xs|
  {
    if xs != [] && |xs| > 7 {
      var rest := xs[7..];
      WeekSlicesFull(rest);
    }
  }

  /** The first day the calendar of a month shows: the Sunday on or before the first of the month. */
  function CalendarStart(reference: Date): (r: Date)
    ensures Weekday(r) == 0
    ensures Leq(r, BeginningOfMonth(reference)) && DayNumber(BeginningOfMonth(reference)) - DayNumber(r) < 7
  {
    BeginningOfWeek(BeginningOfMonth(reference))
  }

  /** The last day the calendar of a month shows: the Saturday on or after the last of the month. */
  function CalendarEnd(reference: Date): (r: Date)
    ensures Weekday(r) == 6
    ensures Leq(EndOfMonth(reference), r) && DayNumber(r) - DayNumber(EndOfMonth(reference)) < 7
  {
    EndOfWeek(EndOfMonth(reference))
  }

  /** Element `j` of slice `i` is element `7 * i + j`. */
  lemma WeekSliceAt<T>(xs: seq<T>, i: nat, j: nat)
    requires |xs| % 7 == 0 && i < |xs| / 7 && j < 7
    ensures |EachSlice(xs, 7)| == |xs| / 7 && |EachSlice(xs, 7)[i]| == 7
    ensures 7 * i + j < |xs| && EachSlice(xs, 7)[i][j] == xs[7 * i + j]
  {
    WeekSlicesFull(xs);
  }

  /** Counting from a Sunday, a Saturday on or after it closes a whole number of weeks. */
  lemma WholeWeeks(s: int, e: int)
    requires s <= e && (s + 1) % 7 == 0 && (e + 1) % 7 == 6
    ensures (e - s + 1) % 7 == 0
  {
    var q, p := (s + 1) / 7, (e + 1) / 7;
    assert s + 1 == 7 * q && e + 1 == 7 * p + 6;
    assert e - s + 1 == 7 * (p - q + 1);
  }

  /** From a Sunday to a Saturday on or after it is a whole number of weeks. */
  lemma SundayToSaturday(start: Date, end: Date)
    requires Weekday(start) == 0 && Weekday(end) == 6 && Leq(start, end)
    ensures DayNumber(start) <= DayNumber(end) && (DayNumber(end) - DayNumber(start) + 1) % 7 == 0
  {
    LeqIsNotLater(start, end);
    WholeWeeks(DayNumber(start), DayNumber(end));
  }

  /** The calendar of a month runs from a Sunday to a later Saturday. */
  lemma CalendarSpan(reference: Date)
    ensures DayNumber(CalendarStart(reference)) <= DayNumber(CalendarEnd(reference))
    ensures (DayNumber(CalendarEnd(reference)) - DayNumber(CalendarStart(reference)) + 1) % 7 == 0
  {
    var first := BeginningOfMonth(reference);
    var last := EndOfMonth(reference);
    var start := CalendarStart(reference);
    var end := CalendarEnd(reference);
    MonthBounds(reference, reference);
    LeqTransitive(first, reference, last);
    LeqTransitive(start, first, last);
    LeqTransitive(start, last, end);
    SundayToSaturday(start, end);
  }

  /** The number of days the calendar of a month shows: a whole number of weeks. */
  function CalendarLength(reference: Date): (n: nat)
    ensures n > 0 && n % 7 == 0
    ensures n == DayNumber(CalendarEnd(reference)) - DayNumber(CalendarStart(reference)) + 1
  {
    CalendarSpan(reference);
    DayNumber(CalendarEnd(reference)) - DayNumber(CalendarStart(reference)) + 1
  }

  /**
   * `calendar_weeks`: the days from the Sunday on or before the first of the
   * month to the Saturday on or after its last day, in slices of seven.
   */
  function CalendarWeeks(reference: Date): seq<seq<Date>> {
    EachSlice(Days(CalendarStart(reference), CalendarLength(reference)), 7)
  }

  /** Weeks cut from `n` consecutive days: day `j` of week `i` is `7 * i + j` days after the first. */
  lemma DayWeeks(start: Date, n: nat)
    requires n % 7 == 0
    ensures |EachSlice(Days(start, n), 7)| == n / 7
    ensures forall i :: 0 <= i < n / 7 ==> |EachSlice(Days(start, n), 7)[i]| == 7
    ensures forall i, j :: 0 <= i < n / 7 && 0 <= j < 7 ==>
              EachSlice(Days(start, n), 7)[i][j] == AddDays(start, 7 * i + j)
  {
    var days := Days(start, n);
    WeekSlicesFull(days);
    forall i, j | 0 <= i < n / 7 && 0 <= j < 7
      ensures EachSlice(days, 7)[i][j] == AddDays(start, 7 * i + j)
    {
      WeekSliceAt(days, i, j);
    }
  }

  /** Day `k` of a run of whole weeks is day `k % 7` of week `k / 7`. */
  lemma WeekIndex(k: int, n: int)
    requires 0 <= k < n && n % 7 == 0
    ensures 0 <= k / 7 < n / 7 && 0 <= k % 7 < 7 && 7 * (k / 7) + k % 7 == k
  {
  }

  /** Every day within `n` days of `start` appears in the weeks cut from them, at week `i`, day `j`. */
  lemma DayWeeksCover(start: Date, n: nat, d: Date) returns (i: nat, j: nat)
    requires n % 7 == 0 && DayNumber(start) <= DayNumber(d) < DayNumber(start) + n
    ensures i < |EachSlice(Days(start, n), 7)| && j < |EachSlice(Days(start, n), 7)[i]|
    ensures EachSlice(Days(start, n), 7)[i][j] == d
  {
    var k := DayNumber(d) - DayNumber(start);
    WeekIndex(k, n);
    i, j := k / 7, k % 7;
    WeekSliceAt(Days(start, n), i, j);
    DayNumberInjective(AddDays(start, k), d);
  }

  /** The last day of the last week cut from the days `start` to `end` is `end`. */
  lemma DayWeeksEnd(start: Date, end: Date, n: nat)
    requires n > 0 && n % 7 == 0 && n == DayNumber(end) - DayNumber(start) + 1
    ensures |EachSlice(Days(start, n), 7)| == n / 7 && |EachSlice(Days(start, n), 7)[n / 7 - 1]| == 7
    ensures EachSlice(Days(start, n), 7)[n / 7 - 1][6] == end
  {
    var k := n / 7 - 1;
    assert 7 * k + 6 == n - 1;
    WeekSliceAt(Days(start, n), k, 6);
    DayAt(start, n, 7 * k + 6);
    DayNumberInjective(AddDays(start, 7 * k + 6), end);
  }

  /**
   * The calendar is a run of whole weeks of consecutive days, from the Sunday
   * that starts it to the Saturday that ends it.
   */
  lemma CalendarWeeksShape(reference: Date)
    ensures |CalendarWeeks(reference)| == CalendarLength(reference) / 7 > 0
    ensures forall i :: 0 <= i < |CalendarWeeks(reference)| ==> |CalendarWeeks(reference)[i]| == 7
    ensures forall i, j :: 0 <= i < |CalendarWeeks(reference)| && 0 <= j < 7 ==>
              CalendarWeeks(reference)[i][j] == AddDays(CalendarStart(reference), 7 * i + j)
    ensures CalendarWeeks(reference)[|CalendarWeeks(reference)| - 1][6] == CalendarEnd(reference)
  {
    var n := CalendarLength(reference);
    var start := CalendarStart(reference);
    DayWeeks(start, n);
    DayWeeksEnd(start, CalendarEnd(reference), n);
  }

  /** Counting on from a Sunday, day `7 * i + j` falls on weekday `j`. */
  lemma WeekdayOffset(s: int, e: int, i: int, j: int)
    requires (s + 1) % 7 == 0 && 0 <= j < 7 && e == s + 7 * i + j
    ensures (e + 1) % 7 == j
  {
    var q := (s + 1) / 7;
    assert e + 1 == 7 * (q + i) + j;
  }

  /** Weeks cut from days that start on a Sunday run Sunday to Saturday. */
  lemma DayWeekdays(start: Date, n: nat, i: nat, j: nat)
    requires Weekday(start) == 0 && n % 7 == 0 && i < |EachSlice(Days(start, n), 7)| && j < 7
    ensures |EachSlice(Days(start, n), 7)[i]| == 7
    ensures Weekday(EachSlice(Days(start, n), 7)[i][j]) == j
  {
    WeekSlicesFull(Days(start, n));
    WeekSliceAt(Days(start, n), i, j);
    DayAt(start, n, 7 * i + j);
    WeekdayFromSunday(start, i, j);
  }

  lemma DayAt(start: Date, n: nat, k: nat)
    requires k < n
    ensures Days(start, n)[k] == AddDays(start, k)
  {
  }

  /** Day `7 * i + j` counted from a Sunday is weekday `j`. */
  lemma WeekdayFromSunday(start: Date, i: nat, j: nat)
    requires Weekday(start) == 0 && j < 7
    ensures Weekday(AddDays(start, 7 * i + j)) == j
  {
    var k := 7 * i + j;
    WeekdayNumber(start);
    WeekdayNumber(AddDays(start, k));
    WeekdayOffset(DayNumber(start), DayNumber(AddDays(start, k)), i, j);
  }

  lemma WeekdayNumber(d: Date)
    ensures Weekday(d) == (DayNumber(d) + 1) % 7
  {
  }

  /** Every calendar week runs Sunday to Saturday: day `j` of a week is weekday `j`. */
  lemma CalendarWeekdays(reference: Date, i: nat, j: nat)
    requires i < |CalendarWeeks(reference)| && j < 7
    ensures j < |CalendarWeeks(reference)[i]| && Weekday(CalendarWeeks(reference)[i][j]) == j
  {
    DayWeekdays(CalendarStart(reference), CalendarLength(reference), i, j);
  }

  /** Every day of the month appears in the calendar. */
  lemma CalendarWeeksCoverMonth(reference: Date, d: Date)
    requires SameMonth(d, reference)
    ensures exists i, j :: 0 <= i < |CalendarWeeks(reference)| && 0 <= j < |CalendarWeeks(reference)[i]|
                           && CalendarWeeks(reference)[i][j] == d
  {
    var start := CalendarStart(reference);
    var n := CalendarLength(reference);
    MonthBounds(reference, d);
    LeqIsNotLater(BeginningOfMonth(reference), d);
    LeqIsNotLater(d, EndOfMonth(reference));
    LeqIsNotLater(start, BeginningOfMonth(reference));
    LeqIsNotLater(EndOfMonth(reference), CalendarEnd(reference));
    var i, j := DayWeeksCover(start, n, d);
    assert CalendarWeeks(reference)[i][j] == d;
  }

  /** The number of days a twice-monthly bill falls due on: how many of its two days are set. */
  function TwoDayCount(b: Bill): (n: nat)
    ensures n <= 2
    ensures n == 2 <==> b.dayOfMonth.Some? && b.secondDayOfMonth.Some?
    ensures n == 0 <==> b.dayOfMonth.None? && b.secondDayOfMonth.None?
  {
    var days := [b.dayOfMonth, b.secondDayOfMonth];
    assert days[1..] == [b.secondDayOfMonth] && days[1..][1..] == [];
    assert |Compact(days[1..])| == if b.secondDayOfMonth.Some? then 1 else 0;
    |Compact(days)|
  }
}
