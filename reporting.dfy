/**
 * `Reporting::SpendingByCategory`: a user's spending (reviewed debits in
 * their active accounts) summed per category name over a date range and over
 * the equally long range just before it, laid out as aligned arrays under the
 * sorted union of both periods' category names, with the two totals, their
 * difference and the percentage change.
 *
 * Transactions are a sequence of rows instead of SQL; amounts are integer
 * cents, so `round(2)` leaves them as they are.
 */
module Reporting {
  import opened Wrappers
  import opened Calendar
  import opened Text
  import opened Collections
  import opened TransactionRules
  import Ledger

  type CategoryId = Ledger.CategoryId

  /** The columns of a transaction row the report reads. */
  datatype Row = Row(account: AccountId, amount: int, date: Date, pending: bool, category: Option<CategoryId>)

  /** A report's parameters once defaults are applied and blank ids dropped. */
  datatype Report = Report(user: UserId, start: Date, end: Date, categoryIds: seq<int>, accountIds: seq<int>)

  /**
   * `initialize`: the start defaults to the first of the current month, the
   * end to today, and blank entries (here `None`) are dropped from both id lists.
   */
  function NewReport(user: UserId, start: Option<Date>, end: Option<Date>,
                     categoryIds: seq<Option<int>>, accountIds: seq<Option<int>>, today: Date): (r: Report)
    ensures start.Some? ==> r.start == start.value
    ensures start.None? ==> r.start.day == 1 && SameMonth(r.start, today)
    ensures end.Some? ==> r.end == end.value
    ensures end.None? ==> r.end == today
    ensures forall c :: c in r.categoryIds <==> Some(c) in categoryIds
    ensures forall a :: a in r.accountIds <==> Some(a) in accountIds
  {
    Report(user, start.GetOr(BeginningOfMonth(today)), end.GetOr(today), Compact(categoryIds), Compact(accountIds))
  }

  /**
   * `base_transactions`: reviewed debits in one of the user's active accounts,
   * restricted to the listed accounts and categories when those lists are not
   * empty (a row without a category never matches a category list).
   */
  predicate Counted(r: Report, accounts: map<AccountId, Ledger.Account>, t: Row) {
    && t.account in accounts
    && accounts[t.account].owner == r.user
    && accounts[t.account].active
    && !t.pending
    && t.amount < 0
    && (r.accountIds != [] ==> t.account in r.accountIds)
    && (r.categoryIds != [] ==> t.category.Some? && t.category.value in r.categoryIds)
  }

  /** `trx_date: from..to`: both ends included; empty when `to` is before `from`. */
  predicate Within(d: Date, from: Date, to: Date) {
    Leq(from, d) && Leq(d, to)
  }

  /** The counted rows dated within `from..to`. */
  function PeriodRows(r: Report, accounts: map<AccountId, Ledger.Account>, rows: seq<Row>, from: Date, to: Date): (out: seq<Row>)
    ensures forall t :: t in out <==> t in rows && Counted(r, accounts, t) && Within(t.date, from, to)
    ensures forall t :: t in out ==> t.amount < 0
  {
    Select(rows, (t: Row) => Counted(r, accounts, t) && Within(t.date, from, to))
  }

  /** A period's first and last day. */
  datatype Window = Window(from: Date, to: Date)

  /**
   * `previous_period_transactions`: the window that ends the day before the
   * start and is as many days long as the current one.
   */
  function PreviousWindow(start: Date, end: Date): (w: Window)
    ensures DayNumber(w.to) == DayNumber(start) - 1
    ensures DayNumber(w.to) - DayNumber(w.from) == DayNumber(end) - DayNumber(start)
  {
    var length := DayNumber(end) - DayNumber(start);
    var prevEnd := AddDays(start, -1);
    Window(AddDays(prevEnd, -length), prevEnd)
  }

  /** No day belongs to both the current and the previous window. */
  lemma PreviousWindowDisjoint(start: Date, end: Date, d: Date)
    ensures !(Within(d, start, end) && Within(d, PreviousWindow(start, end).from, PreviousWindow(start, end).to))
  {
    var w := PreviousWindow(start, end);
    LeqIsNotLater(start, d);
    LeqIsNotLater(d, w.to);
  }

  /** Both windows hold the same days, shifted: day `k` of one is day `k` of the other. */
  lemma PreviousWindowSameLength(start: Date, end: Date, k: int)
    ensures Within(AddDays(start, k), start, end) <==>
            Within(AddDays(PreviousWindow(start, end).from, k), PreviousWindow(start, end).from, PreviousWindow(start, end).to)
  {
    var w := PreviousWindow(start, end);
    LeqIsNotLater(start, AddDays(start, k));
    LeqIsNotLater(AddDays(start, k), end);
    LeqIsNotLater(w.from, AddDays(w.from, k));
    LeqIsNotLater(AddDays(w.from, k), w.to);
  }

  const Uncategorized: string := "Uncategorized"

  /** `COALESCE(categories.name, 'Uncategorized')`: the row's category name, if it has one. */
  function Label(t: Row, names: map<CategoryId, string>): string {
    if t.category.Some? && t.category.value in names then names[t.category.value] else Uncategorized
  }

  function Labels(rows: seq<Row>, names: map<CategoryId, string>): (ls: seq<string>)
    ensures |ls| == |rows|
    ensures forall i :: 0 <= i < |rows| ==> ls[i] == Label(rows[i], names)
  {
    seq(|rows|, i requires 0 <= i < |rows| => Label(rows[i], names))
  }

  /** The sum of the absolute amounts of the rows labelled `k`: the reference for one group's sum. */
  function LabelTotal(rows: seq<Row>, names: map<CategoryId, string>, k: string): int
    decreases |rows|
  {
    if rows == [] then 0
    else LabelTotal(rows[..|rows| - 1], names, k)
         + (if Label(rows[|rows| - 1], names) == k then Abs(rows[|rows| - 1].amount) else 0)
  }

  /** The sum of the absolute amounts of all rows. */
  function Total(rows: seq<Row>): int
    decreases |rows|
  {
    if rows == [] then 0 else Total(rows[..|rows| - 1]) + Abs(rows[|rows| - 1].amount)
  }

  /** `spending_by_category`: one running sum per label, built row by row as the SQL `GROUP BY` does. */
  function Spending(rows: seq<Row>, names: map<CategoryId, string>): map<string, int>
    decreases |rows|
  {
    if rows == [] then map[]
    else
      var m := Spending(rows[..|rows| - 1], names);
      var k := Label(rows[|rows| - 1], names);
      m[k := (if k in m then m[k] else 0) + Abs(rows[|rows| - 1].amount)]
  }

  /**
   * The groups are exactly the labels that occur, each holding the sum of its
   * rows' absolute amounts.
   */
  lemma {:induction false} SpendingGroups(rows: seq<Row>, names: map<CategoryId, string>)
    ensures forall k :: k in Spending(rows, names) <==> k in Labels(rows, names)
    ensures forall k :: k in Spending(rows, names) ==> Spending(rows, names)[k] == LabelTotal(rows, names, k)
    decreases |rows|
  {
    if rows != [] {
      var init := rows[..|rows| - 1];
      SpendingGroups(init, names);
      forall k ensures k in Labels(rows, names) <==> k in Labels(init, names) || k == Label(rows[|rows| - 1], names) {
        assert Labels(rows, names) == Labels(init, names) + [Label(rows[|rows| - 1], names)];
      }
      forall k | k !in Labels(init, names) ensures LabelTotal(init, names, k) == 0 {
        LabelTotalAbsent(init, names, k);
      }
    }
  }

  /** A label that occurs in no row has a zero total. */
  lemma {:induction false} LabelTotalAbsent(rows: seq<Row>, names: map<CategoryId, string>, k: string)
    requires k !in Labels(rows, names)
    ensures LabelTotal(rows, names, k) == 0
    decreases |rows|
  {
    if rows != [] {
      var init := rows[..|rows| - 1];
      assert Labels(rows, names) == Labels(init, names) + [Label(rows[|rows| - 1], names)];
      LabelTotalAbsent(init, names, k);
    }
  }

  /** A row without a category is summed under "Uncategorized". */
  lemma UncategorizedGrouped(rows: seq<Row>, names: map<CategoryId, string>, i: nat)
    requires i < |rows| && rows[i].category.None?
    ensures Uncategorized in Spending(rows, names)
  {
    SpendingGroups(rows, names);
    assert Labels(rows, names)[i] == Uncategorized;
  }

  predicate StrictlySorted(s: seq<string>) {
    forall i, j :: 0 <= i < j < |s| ==> StrLess(s[i], s[j])
  }

  /** Adds `x` to a strictly sorted list at its place, unless it is there already. */
  function Insert(x: string, s: seq<string>): (r: seq<string>)
    requires StrictlySorted(s)
    ensures StrictlySorted(r)
    ensures forall y :: y in r <==> y == x || y in s
    decreases |s|
  {
    if s == [] then [x]
    else if x == s[0] then s
    else if StrLess(x, s[0]) then
      assert forall j :: 0 < j < |s| ==> StrLess(x, s[j]) by {
        forall j | 0 < j < |s| ensures StrLess(x, s[j]) { StrLessTransitive(x, s[0], s[j]); }
      }
      [x] + s
    else
      StrLessTotal(x, s[0]);
      var rest := Insert(x, s[1..]);
      assert forall y :: y in rest ==> StrLess(s[0], y);
      [s[0]] + rest
  }

  /** `uniq.sort`: the distinct strings of `xs` in ascending order. */
  function SortedUnion(xs: seq<string>): (r: seq<string>)
    ensures StrictlySorted(r)
    ensures forall y :: y in r <==> y in xs
    decreases |xs|
  {
    if xs == [] then []
    else
      var r := Insert(xs[|xs| - 1], SortedUnion(xs[..|xs| - 1]));
      assert forall y :: y in xs <==> y in xs[..|xs| - 1] || y == xs[|xs| - 1] by {
        assert xs == xs[..|xs| - 1] + [xs[|xs| - 1]];
      }
      r
  }

  /** The head of a strictly sorted list is at or below every element. */
  lemma HeadLeast(s: seq<string>, i: nat)
    requires StrictlySorted(s) && i < |s|
    ensures StrLeq(s[0], s[i])
  {
  }

  lemma StrLeqAntisymmetric(x: string, y: string)
    requires StrLeq(x, y) && StrLeq(y, x)
    ensures x == y
  {
    if x != y {
      StrLessAsymmetric(x, y);
    }
  }

  /** An element of a strictly sorted list other than its head is in its tail. */
  lemma InTail(s: seq<string>, y: string)
    requires StrictlySorted(s) && y in s && y != s[0]
    ensures y in s[1..]
  {
    var i :| 0 <= i < |s| && s[i] == y;
    assert s[1..][i - 1] == y;
  }

  lemma SameElementsEmpty(a: seq<string>, b: seq<string>)
    requires forall y :: y in a <==> y in b
    ensures a == [] <==> b == []
  {
    if a != [] {
      assert a[0] in b;
    }
    if b != [] {
      assert b[0] in a;
    }
  }

  /** Two strictly sorted lists with the same elements are the same list: the sorted order is unique. */
  lemma {:induction false} SortedIsUnique(a: seq<string>, b: seq<string>)
    requires StrictlySorted(a) && StrictlySorted(b)
    requires forall y :: y in a <==> y in b
    ensures a == b
    decreases |a|
  {
    SameElementsEmpty(a, b);
    if a != [] {
      assert a[0] in a && b[0] in b;
      var i :| 0 <= i < |b| && b[i] == a[0];
      var j :| 0 <= j < |a| && a[j] == b[0];
      HeadLeast(b, i);
      HeadLeast(a, j);
      StrLeqAntisymmetric(a[0], b[0]);
      forall y ensures y in a[1..] <==> y in b[1..] {
        StrLessIrreflexive(a[0]);
        if y in a[1..] {
          assert y in a && y != a[0];
          InTail(b, y);
        }
        if y in b[1..] {
          assert y in b && y != b[0];
          InTail(a, y);
        }
      }
      SortedIsUnique(a[1..], b[1..]);
      assert a == [a[0]] + a[1..] && b == [b[0]] + b[1..];
    }
  }

  /** `category_names`: the union of both periods' labels, sorted. */
  function CategoryNames(current: seq<Row>, previous: seq<Row>, names: map<CategoryId, string>): (cs: seq<string>)
    ensures StrictlySorted(cs)
    ensures forall k :: k in cs <==> k in Spending(current, names) || k in Spending(previous, names)
  {
    SpendingGroups(current, names);
    SpendingGroups(previous, names);
    SortedUnion(Labels(current, names) + Labels(previous, names))
  }

  /** `category_names.map { |cat| spending[cat] || 0 }`. */
  function Aligned(categories: seq<string>, spending: map<string, int>): (data: seq<int>)
    ensures |data| == |categories|
  {
    seq(|categories|, i requires 0 <= i < |categories| => if categories[i] in spending then spending[categories[i]] else 0)
  }

  /** Each entry of an aligned array is its category's total in that period, zero when the category has no rows there. */
  lemma AlignedTotals(categories: seq<string>, rows: seq<Row>, names: map<CategoryId, string>)
    ensures forall i :: 0 <= i < |categories| ==> Aligned(categories, Spending(rows, names))[i] == LabelTotal(rows, names, categories[i])
  {
    SpendingGroups(rows, names);
    forall i | 0 <= i < |categories| && categories[i] !in Spending(rows, names)
      ensures LabelTotal(rows, names, categories[i]) == 0
    {
      LabelTotalAbsent(rows, names, categories[i]);
    }
  }

  /** The sum of the label totals over a list of labels. */
  function SumLabels(categories: seq<string>, rows: seq<Row>, names: map<CategoryId, string>): int
    decreases |categories|
  {
    if categories == [] then 0 else LabelTotal(rows, names, categories[0]) + SumLabels(categories[1..], rows, names)
  }

  /** Adding a row adds its absolute amount to the sum over a duplicate-free list that holds its label. */
  lemma {:induction false} SumLabelsPush(categories: seq<string>, rows: seq<Row>, t: Row, names: map<CategoryId, string>)
    requires StrictlySorted(categories)
    ensures SumLabels(categories, rows + [t], names)
            == SumLabels(categories, rows, names) + (if Label(t, names) in categories then Abs(t.amount) else 0)
    decreases |categories|
  {
    if categories != [] {
      assert (rows + [t])[..|rows + [t]| - 1] == rows;
      SumLabelsPush(categories[1..], rows, t, names);
      if Label(t, names) == categories[0] {
        forall j | 1 <= j < |categories| ensures categories[j] != categories[0] {
          StrLessIrreflexive(categories[0]);
        }
      }
    }
  }

  /** Summed over a duplicate-free list holding every label, the label totals add up to the total. */
  lemma {:induction false} SumLabelsTotal(categories: seq<string>, rows: seq<Row>, names: map<CategoryId, string>)
    requires StrictlySorted(categories)
    requires forall k :: k in Labels(rows, names) ==> k in categories
    ensures SumLabels(categories, rows, names) == Total(rows)
    decreases |rows|
  {
    if rows == [] {
      SumLabelsEmpty(categories, names);
    } else {
      var init := rows[..|rows| - 1];
      var t := rows[|rows| - 1];
      SplitLast(rows);
      assert Labels(rows, names) == Labels(init, names) + [Label(t, names)];
      SumLabelsTotal(categories, init, names);
      SumLabelsPush(categories, init, t, names);
    }
  }

  lemma {:induction false} SumLabelsEmpty(categories: seq<string>, names: map<CategoryId, string>)
    ensures SumLabels(categories, [], names) == 0
    decreases |categories|
  {
    if categories != [] {
      SumLabelsEmpty(categories[1..], names);
    }
  }

  lemma {:induction false} SumAligned(categories: seq<string>, rows: seq<Row>, names: map<CategoryId, string>)
    ensures Sum(Aligned(categories, Spending(rows, names))) == SumLabels(categories, rows, names)
    decreases |categories|
  {
    AlignedTotals(categories, rows, names);
    if categories != [] {
      var data := Aligned(categories, Spending(rows, names));
      assert data[1..] == Aligned(categories[1..], Spending(rows, names));
      SumAligned(categories[1..], rows, names);
    }
  }

  /** Totals are never negative, and positive exactly when some row has a non-zero amount. */
  lemma {:induction false} TotalSign(rows: seq<Row>)
    ensures Total(rows) >= 0
    ensures (forall t :: t in rows ==> t.amount < 0) ==> (Total(rows) > 0 <==> rows != [])
    decreases |rows|
  {
    if rows != [] {
      var init := rows[..|rows| - 1];
      TotalSign(init);
      assert forall t :: t in init ==> t in rows;
    }
  }

  /**
   * `percentage_change`: the difference as a percentage of the previous
   * total, in tenths of a percent rounded to the nearest with halves away from
   * zero; zero unless the previous total is positive.
   */
  function PercentChange(difference: int, previous: int): (p: int)
    ensures previous <= 0 ==> p == 0
    ensures previous > 0 ==> -previous < 2 * (Abs(p) * previous - 1000 * Abs(difference)) <= previous
    ensures p * difference >= 0
  {
    if previous <= 0 then 0
    else
      var n := 1000 * Abs(difference);
      var q := (2 * n + previous) / (2 * previous);
      RoundHalf(n, previous, q);
      if difference < 0 then -q else q
  }

  /** `q` is `n / d` rounded to the nearest integer, halves up. */
  lemma RoundHalf(n: nat, d: int, q: int)
    requires d > 0 && q == (2 * n + d) / (2 * d)
    ensures q >= 0 && -d < 2 * (q * d - n) <= d
  {
    var r := (2 * n + d) % (2 * d);
    assert 2 * n + d == 2 * d * q + r && 0 <= r < 2 * d;
    assert 2 * (q * d - n) == d - r;
  }

  datatype Totals = Totals(current: int, previous: int, difference: int, percentageChange: int)

  /** `format_period_label`: a month-and-year label for a period inside one month, otherwise both days. */
  datatype PeriodLabel = MonthOf(month: Date) | Span(from: Date, to: Date)

  function FormatPeriodLabel(from: Date, to: Date): (l: PeriodLabel)
    ensures l.MonthOf? <==> SameMonth(from, to)
  {
    if from.month == to.month && from.year == to.year then MonthOf(from) else Span(from, to)
  }

  /** The default report, from the first of this month to today, is labelled with its month. */
  lemma DefaultPeriodLabel(user: UserId, today: Date)
    ensures FormatPeriodLabel(NewReport(user, None, None, [], [], today).start,
                              NewReport(user, None, None, [], [], today).end).MonthOf?
  {
  }

  datatype PeriodData = PeriodData(periodLabel: PeriodLabel, data: seq<int>)

  datatype Output = Output(categories: seq<string>, current: PeriodData, previous: PeriodData, totals: Totals)

  function CurrentRows(r: Report, accounts: map<AccountId, Ledger.Account>, rows: seq<Row>): seq<Row> {
    PeriodRows(r, accounts, rows, r.start, r.end)
  }

  function PreviousRows(r: Report, accounts: map<AccountId, Ledger.Account>, rows: seq<Row>): seq<Row> {
    PeriodRows(r, accounts, rows, PreviousWindow(r.start, r.end).from, PreviousWindow(r.start, r.end).to)
  }

  /** `call`: category names, both periods' aligned data and the totals. */
  function Call(r: Report, accounts: map<AccountId, Ledger.Account>, names: map<CategoryId, string>, rows: seq<Row>): (out: Output)
    ensures StrictlySorted(out.categories)
    ensures |out.current.data| == |out.categories| && |out.previous.data| == |out.categories|
    ensures out.totals.difference == out.totals.current - out.totals.previous
    ensures out.totals.previous <= 0 ==> out.totals.percentageChange == 0
  {
    var current := CurrentRows(r, accounts, rows);
    var previous := PreviousRows(r, accounts, rows);
    var w := PreviousWindow(r.start, r.end);
    var categories := CategoryNames(current, previous, names);
    var currentTotal := Total(current);
    var previousTotal := Total(previous);
    var difference := currentTotal - previousTotal;
    Output(categories,
           PeriodData(FormatPeriodLabel(r.start, r.end), Aligned(categories, Spending(current, names))),
           PeriodData(FormatPeriodLabel(w.from, w.to), Aligned(categories, Spending(previous, names))),
           Totals(currentTotal, previousTotal, difference, PercentChange(difference, previousTotal)))
  }

  /**
   * The report's meaning: the categories are exactly the labels of either
   * period's counted rows; each data entry is that category's sum in its
   * period (zero when absent); the totals are the sums of the data arrays, and
   * the percentage is zero exactly when no previous row was counted.
   */
  lemma CallMeaning(r: Report, accounts: map<AccountId, Ledger.Account>, names: map<CategoryId, string>, rows: seq<Row>)
    ensures forall k :: k in Call(r, accounts, names, rows).categories <==>
              k in Labels(CurrentRows(r, accounts, rows), names) || k in Labels(PreviousRows(r, accounts, rows), names)
    ensures forall i :: 0 <= i < |Call(r, accounts, names, rows).categories| ==>
              Call(r, accounts, names, rows).current.data[i]
                == LabelTotal(CurrentRows(r, accounts, rows), names, Call(r, accounts, names, rows).categories[i])
              && Call(r, accounts, names, rows).previous.data[i]
                == LabelTotal(PreviousRows(r, accounts, rows), names, Call(r, accounts, names, rows).categories[i])
    ensures Call(r, accounts, names, rows).totals.current == Sum(Call(r, accounts, names, rows).current.data)
    ensures Call(r, accounts, names, rows).totals.previous == Sum(Call(r, accounts, names, rows).previous.data)
    ensures Call(r, accounts, names, rows).totals.previous > 0 <==> PreviousRows(r, accounts, rows) != []
  {
    var current := CurrentRows(r, accounts, rows);
    var previous := PreviousRows(r, accounts, rows);
    var out := Call(r, accounts, names, rows);
    SpendingGroups(current, names);
    SpendingGroups(previous, names);
    AlignedTotals(out.categories, current, names);
    AlignedTotals(out.categories, previous, names);
    SumAligned(out.categories, current, names);
    SumAligned(out.categories, previous, names);
    SumLabelsTotal(out.categories, current, names);
    SumLabelsTotal(out.categories, previous, names);
    TotalSign(previous);
  }
}
