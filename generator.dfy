/**
 * `BillTransactions::Generator`: the pending transactions a user's bills call
 * for in a date range. Each bill's occurrences are collected month by month and
 * kept when they fall in the range; the preview lists them by date, description
 * and account name; generation drops every item whose key already exists, files
 * the rest as pending transactions of one new batch and records the batch's
 * count and total.
 */
module Generator {
  import opened Wrappers
  import opened Text
  import opened Calendar
  import opened TransactionRules
  import opened Ledger
  import opened Batches

  /** A bill as the generator reads it: its account (with the account's name), type, amount and description. */
  datatype GenBill = GenBill(id: nat, account: AccountId, accountName: string, billType: string, amount: int,
                             description: string)

  /**
   * `Bill#occurrences_for_month`, which is not part of this model: the dates on
   * which a bill falls due in the month of the given date.
   */
  type Occurrences = (GenBill, Date) -> seq<Date>

  /** The assumption made of `occurrences_for_month`: every date it gives lies in the month asked about. */
  ghost predicate StaysInMonth(occ: Occurrences) {
    forall b: GenBill, m: Date, i :: 0 <= i < |occ(b, m)| ==> SameMonth(occ(b, m)[i], m)
  }

  /** `PreviewItem`, with the account reduced to its id and name. */
  datatype PreviewItem = PreviewItem(account: AccountId, accountName: string, date: Date, amount: int, description: string)

  /** A date parameter as handed over: blank, present but not a date, or a date. */
  datatype DateParam = NoParam | Unreadable | DateGiven(date: Date)

  datatype DateRange = DateRange(start: Date, end: Date)

  predicate InRange(d: Date, r: DateRange) {
    Leq(r.start, d) && Leq(d, r.end)
  }

  /** `parse_date`: a date, or nil when the value is missing or cannot be read as a date. */
  function ParseDate(p: DateParam): Option<Date> {
    if p.DateGiven? then Some(p.date) else None
  }

  /**
   * `normalize_range`: with a start or end date present, the start defaults to
   * the first of the current month, the end to the last day of the start's month,
   * and an end before the start is moved up to the start; otherwise the range
   * is the whole month of `period_month` (read as year and month; the current
   * month when it is missing or unreadable).
   */
  function NormalizeRange(periodMonth: Option<Date>, startParam: DateParam, endParam: DateParam, today: Date): (r: DateRange)
    ensures Leq(r.start, r.end)
    ensures !startParam.NoParam? || !endParam.NoParam? ==>
              r.start == (if startParam.DateGiven? then startParam.date else BeginningOfMonth(today))
              && (!endParam.DateGiven? ==> r.end == EndOfMonth(r.start))
              && (endParam.DateGiven? && Leq(r.start, endParam.date) ==> r.end == endParam.date)
              && (endParam.DateGiven? && Before(endParam.date, r.start) ==> r.end == r.start)
    ensures startParam.NoParam? && endParam.NoParam? ==>
              WholeMonth(r) && SameMonth(r.start, periodMonth.GetOr(today))
  {
    if !startParam.NoParam? || !endParam.NoParam? then
      var start := ParseDate(startParam).GetOr(BeginningOfMonth(today));
      var end := ParseDate(endParam).GetOr(EndOfMonth(start));
      BeforeTotal(start, end);
      DateRange(start, if Before(end, start) then start else end)
    else
      var month := BeginningOfMonth(periodMonth.GetOr(today));
      DateRange(month, EndOfMonth(month))
  }

  /** The range is one calendar month, from its first to its last day. */
  predicate WholeMonth(r: DateRange) {
    r.start == BeginningOfMonth(r.start) && r.end == EndOfMonth(r.start)
  }

  /**
   * `single_month_range?` as written: the first of the start's month compared
   * with the last of the end's month. The two are never the same day.
   */
  predicate SingleMonthRangeAsWritten(r: DateRange) {
    BeginningOfMonth(r.start) == EndOfMonth(r.end)
  }

  /** The range of March 2025 is a single month, yet the test as written rejects it. */
  lemma SingleMonthRangeAsWrittenMissesMarch()
    ensures var march := DateRange(YMD(2025, 3, 1), YMD(2025, 3, 31));
            WholeMonth(march) && !SingleMonthRangeAsWritten(march)
  {
  }

  /** As written, the test holds for no range at all, so every batch records a date range. */
  lemma {:induction false} SingleMonthRangeAsWrittenNeverHolds(r: DateRange)
    ensures !SingleMonthRangeAsWritten(r)
  {
    assert BeginningOfMonth(r.start).day == 1;
    assert EndOfMonth(r.end).day >= 28;
  }

  /** A range passes the corrected test exactly when the dates it holds are the dates of the start's month. */
  lemma WholeMonthExactly(r: DateRange)
    ensures WholeMonth(r) <==> forall x: Date :: InRange(x, r) <==> SameMonth(x, r.start)
  {
    if WholeMonth(r) {
      forall x: Date
        ensures InRange(x, r) <==> SameMonth(x, r.start)
      {
        MonthBounds(r.start, x);
      }
    } else if forall x: Date :: InRange(x, r) <==> SameMonth(x, r.start) {
      var first := BeginningOfMonth(r.start);
      var last := EndOfMonth(r.start);
      assert InRange(first, r) && InRange(last, r) && InRange(r.end, r);
      MonthBounds(r.start, r.end);
      assert false;
    }
  }

  /** The batch attributes: the period month for a whole-month range, otherwise the two range dates. */
  function BatchAttrs(user: UserId, r: DateRange): (b: Batch)
    ensures b.owner == user && b.reference.None? && b.transactionsCount == 0 && b.totalAmount == 0
    ensures WholeMonth(r) ==> b.periodMonth == Some(r.start) && b.rangeStart.None? && b.rangeEnd.None?
    ensures !WholeMonth(r) ==> b.periodMonth.None? && b.rangeStart == Some(r.start) && b.rangeEnd == Some(r.end)
  {
    if WholeMonth(r) then Batch(user, None, Some(BeginningOfMonth(r.start)), None, None, 0, 0)
    else Batch(user, None, None, Some(r.start), Some(r.end), 0, 0)
  }

  /** The batch attributes as written: the month test never holds, so the range is always recorded. */
  function BatchAttrsAsWritten(user: UserId, r: DateRange): (b: Batch)
    ensures b.periodMonth.None? && b.rangeStart == Some(r.start) && b.rangeEnd == Some(r.end)
  {
    SingleMonthRangeAsWrittenNeverHolds(r);
    if SingleMonthRangeAsWritten(r) then Batch(user, None, Some(BeginningOfMonth(r.start)), None, None, 0, 0)
    else Batch(user, None, None, Some(r.start), Some(r.end), 0, 0)
  }

  /** The references the stored batches hold. */
  function References(batches: map<BatchId, Batch>): set<string> {
    set id | id in batches && batches[id].reference.Some? :: batches[id].reference.value
  }

  /**
   * The batch built from a normalised range can only fail validation on its
   * reference: it is valid exactly when the new identifier is not blank and
   * not already taken.
   */
  lemma GeneratedBatchValid(user: UserId, r: DateRange, uuid: string, taken: set<string>)
    requires Leq(r.start, r.end)
    ensures BatchErrors(AssignReference(BatchAttrs(user, r), uuid), taken) == {} <==> !Blank(uuid) && uuid !in taken
  {
  }

  /** `signed_amount`: an income bill's amount as it is, any other bill's negated. */
  function SignedAmount(b: GenBill): (r: int)
    ensures Abs(r) == Abs(b.amount)
    ensures b.amount > 0 ==> (r > 0 <==> b.billType == "income") && (r < 0 <==> b.billType != "income")
  {
    if b.billType == "income" then b.amount else -b.amount
  }

  /** `PreviewItem#trx_type`: "debit" for a negative amount, "credit" otherwise. */
  function PreviewTrxType(it: PreviewItem): string {
    if it.amount < 0 then "debit" else "credit"
  }

  /**
   * The item's type agrees with its amount: converting the amount with that type,
   * as the save callbacks do, leaves it unchanged, and it is "debit" exactly for
   * the negative amounts.
   */
  lemma PreviewTrxTypeKeepsAmount(it: PreviewItem)
    ensures PreviewTrxType(it) == "debit" <==> it.amount < 0
    ensures ConvertAmount(Number(it.amount), PreviewTrxType(it), true, NoAmount, false) == Number(it.amount)
  {
    assert !Blank(PreviewTrxType(it)) by { assert !IsSpace(PreviewTrxType(it)[0]); }
  }

  /** The preview item a bill gives for one of its dates. */
  function ItemFor(b: GenBill, d: Date): PreviewItem {
    PreviewItem(b.account, b.accountName, d, SignedAmount(b), b.description)
  }

  /** The items for the dates of one month, in their order, keeping those inside the range. */
  function MonthItems(b: GenBill, dates: seq<Date>, r: DateRange): seq<PreviewItem>
    decreases |dates|
  {
    if dates == [] then []
    else
      var d := dates[|dates| - 1];
      MonthItems(b, dates[..|dates| - 1], r) + (if InRange(d, r) then [ItemFor(b, d)] else [])
  }

  lemma {:induction false} MonthItemsExactly(b: GenBill, dates: seq<Date>, r: DateRange)
    ensures forall it :: it in MonthItems(b, dates, r) ==> it == ItemFor(b, it.date) && it.date in dates && InRange(it.date, r)
    ensures forall d :: d in dates && InRange(d, r) ==> ItemFor(b, d) in MonthItems(b, dates, r)
    decreases |dates|
  {
    if dates != [] {
      var init := dates[..|dates| - 1];
      MonthItemsExactly(b, init, r);
      assert dates == init + [dates[|dates| - 1]];
    }
  }

  /** `occurrences_for_bill` from month `cursor` on: month by month up to the range's end. */
  function BillItems(b: GenBill, cursor: Date, r: DateRange, occ: Occurrences): seq<PreviewItem>
    decreases MonthIndex(r.end) - MonthIndex(cursor) + 1
  {
    if !Leq(cursor, r.end) then []
    else
      MonthIndexOrder(cursor, r.end);
      MonthItems(b, occ(b, cursor), r) + BillItems(b, NextMonth(cursor), r, occ)
  }

  /** Every item lies in the range and is the bill's item for its date. */
  lemma {:induction false} BillItemsInRange(b: GenBill, cursor: Date, r: DateRange, occ: Occurrences)
    ensures forall it :: it in BillItems(b, cursor, r, occ) ==> InRange(it.date, r) && it == ItemFor(b, it.date)
    decreases MonthIndex(r.end) - MonthIndex(cursor) + 1
  {
    if Leq(cursor, r.end) {
      MonthIndexOrder(cursor, r.end);
      MonthItemsExactly(b, occ(b, cursor), r);
      BillItemsInRange(b, NextMonth(cursor), r, occ);
    }
  }

  /**
   * When the occurrences of a month lie in that month, a bill's item for date
   * `d` is listed exactly when `d` is in the range, not before the month of
   * `cursor`, and one of the bill's occurrences in its month.
   */
  lemma {:induction false} BillItemsExactly(b: GenBill, cursor: Date, r: DateRange, occ: Occurrences, d: Date)
    requires StaysInMonth(occ) && cursor.day == 1
    ensures ItemFor(b, d) in BillItems(b, cursor, r, occ)
            <==> InRange(d, r) && Leq(cursor, d) && d in occ(b, BeginningOfMonth(d))
    decreases MonthIndex(r.end) - MonthIndex(cursor) + 1
  {
    FirstOfMonthLeq(cursor, d);
    if !Leq(cursor, r.end) {
      if InRange(d, r) && Leq(cursor, d) {
        LeqTransitive(cursor, d, r.end);
      }
    } else {
      MonthIndexOrder(cursor, r.end);
      var dates := occ(b, cursor);
      var next := NextMonth(cursor);
      MonthItemsExactly(b, dates, r);
      BillItemsExactly(b, next, r, occ, d);
      FirstOfMonthLeq(next, d);
      if d in dates {
        var i :| 0 <= i < |dates| && dates[i] == d;
        assert SameMonth(dates[i], cursor);
        assert BeginningOfMonth(d) == cursor;
      }
      if Leq(cursor, d) && MonthIndex(d) == MonthIndex(cursor) {
        MonthIndexOrder(d, cursor);
        assert BeginningOfMonth(d) == cursor;
      }
    }
  }

  /**
   * `occurrences_for_bill`: from the first of the start's month, each month's
   * occurrences inside the range are appended, until the month cursor passes
   * the end date.
   */
  method OccurrencesForBill(b: GenBill, r: DateRange, occ: Occurrences) returns (items: seq<PreviewItem>)
    ensures items == BillItems(b, BeginningOfMonth(r.start), r, occ)
  {
    items := [];
    var cursor := BeginningOfMonth(r.start);
    while Leq(cursor, r.end)
      invariant items + BillItems(b, cursor, r, occ) == BillItems(b, BeginningOfMonth(r.start), r, occ)
      decreases MonthIndex(r.end) - MonthIndex(cursor) + 1
    {
      MonthIndexOrder(cursor, r.end);
      var found := MonthOccurrences(b, occ(b, cursor), r);
      items := items + found;
      cursor := NextMonth(cursor);
    }
  }

  /** The inner loop of `occurrences_for_bill`: a date before the start or after the end is skipped. */
  method MonthOccurrences(b: GenBill, dates: seq<Date>, r: DateRange) returns (found: seq<PreviewItem>)
    ensures found == MonthItems(b, dates, r)
  {
    found := [];
    for i := 0 to |dates|
      invariant found == MonthItems(b, dates[..i], r)
    {
      assert dates[..i + 1][..i] == dates[..i];
      BeforeTotal(dates[i], r.start);
      BeforeTotal(dates[i], r.end);
      if !(Before(dates[i], r.start) || Before(r.end, dates[i])) {
        found := found + [ItemFor(b, dates[i])];
      }
    }
    assert dates[..|dates|] == dates;
  }

  /** The items of all the bills, bill after bill. */
  function AllItems(bills: seq<GenBill>, r: DateRange, occ: Occurrences): seq<PreviewItem>
    decreases |bills|
  {
    if bills == [] then []
    else AllItems(bills[..|bills| - 1], r, occ) + BillItems(bills[|bills| - 1], BeginningOfMonth(r.start), r, occ)
  }

  /**
   * Every item is one of the bills' items for a date in the range, and when the
   * occurrences stay in their month, every occurrence of a bill in the range
   * gives an item.
   */
  lemma {:induction false} AllItemsExactly(bills: seq<GenBill>, r: DateRange, occ: Occurrences)
    ensures forall it :: it in AllItems(bills, r, occ) ==>
              InRange(it.date, r) && exists j :: 0 <= j < |bills| && it == ItemFor(bills[j], it.date)
    ensures StaysInMonth(occ) ==>
              forall j, d :: 0 <= j < |bills| && InRange(d, r) && d in occ(bills[j], BeginningOfMonth(d))
                ==> ItemFor(bills[j], d) in AllItems(bills, r, occ)
    decreases |bills|
  {
    if bills != [] {
      var init := bills[..|bills| - 1];
      var last := bills[|bills| - 1];
      AllItemsExactly(init, r, occ);
      BillItemsInRange(last, BeginningOfMonth(r.start), r, occ);
      forall it | it in AllItems(bills, r, occ)
        ensures exists j :: 0 <= j < |bills| && it == ItemFor(bills[j], it.date)
      {
        if it in AllItems(init, r, occ) {
          var j :| 0 <= j < |init| && it == ItemFor(init[j], it.date);
          assert bills[j] == init[j];
        } else {
          assert it == ItemFor(bills[|bills| - 1], it.date);
        }
      }
      if StaysInMonth(occ) {
        forall j, d | 0 <= j < |bills| && InRange(d, r) && d in occ(bills[j], BeginningOfMonth(d))
          ensures ItemFor(bills[j], d) in AllItems(bills, r, occ)
        {
          if j < |init| {
            assert init[j] == bills[j];
          } else {
            BillItemsExactly(last, BeginningOfMonth(r.start), r, occ, d);
            FirstOfMonthLeq(BeginningOfMonth(r.start), d);
            MonthIndexOrder(r.start, d);
          }
        }
      }
    }
  }

  /** The preview order: by date, then description, then account name. */
  predicate ItemLeq(a: PreviewItem, b: PreviewItem) {
    Before(a.date, b.date)
    || (a.date == b.date && (StrLess(a.description, b.description)
                             || (a.description == b.description && StrLeq(a.accountName, b.accountName))))
  }

  lemma ItemLeqTotal(a: PreviewItem, b: PreviewItem)
    ensures ItemLeq(a, b) || ItemLeq(b, a)
  {
    BeforeTotal(a.date, b.date);
    StrLessTotal(a.description, b.description);
    StrLessTotal(a.accountName, b.accountName);
  }

  predicate Sorted(s: seq<PreviewItem>) {
    forall i :: 0 < i < |s| ==> ItemLeq(s[i - 1], s[i])
  }

  /** One item put in its place in a sorted list. */
  function Insert(x: PreviewItem, s: seq<PreviewItem>): (r: seq<PreviewItem>)
    requires Sorted(s)
    ensures Sorted(r) && multiset(r) == multiset(s) + multiset{x}
    ensures r[0] == x || (s != [] && r[0] == s[0])
  {
    if s == [] then [x]
    else if ItemLeq(x, s[0]) then [x] + s
    else
      ItemLeqTotal(x, s[0]);
      var rest := Insert(x, s[1..]);
      assert s == [s[0]] + s[1..];
      [s[0]] + rest
  }

  /** `sort_by { [trx_date, description, account name] }`: the items in preview order. */
  function SortItems(s: seq<PreviewItem>): (r: seq<PreviewItem>)
    ensures Sorted(r) && multiset(r) == multiset(s)
    decreases |s|
  {
    if s == [] then []
    else
      var init, x := s[..|s| - 1], s[|s| - 1];
      assert multiset(s) == multiset(init) + multiset{x} by {
        assert s == init + [x];
      }
      Insert(x, SortItems(init))
  }

  /**
   * `preview`: the range is normalised, each bill's occurrences are collected,
   * and the items are put in preview order. The items are sorted, they are all
   * in the range, and they are exactly the bills' items.
   */
  method Preview(bills: seq<GenBill>, periodMonth: Option<Date>, startParam: DateParam, endParam: DateParam,
                 today: Date, occ: Occurrences) returns (items: seq<PreviewItem>)
    ensures var r := NormalizeRange(periodMonth, startParam, endParam, today);
            items == SortItems(AllItems(bills, r, occ))
            && Sorted(items) && multiset(items) == multiset(AllItems(bills, r, occ))
            && forall i :: 0 <= i < |items| ==> InRange(items[i].date, r)
  {
    var r := NormalizeRange(periodMonth, startParam, endParam, today);
    var all: seq<PreviewItem> := [];
    for j := 0 to |bills|
      invariant all == AllItems(bills[..j], r, occ)
    {
      assert bills[..j + 1][..j] == bills[..j];
      var some := OccurrencesForBill(bills[j], r, occ);
      all := all + some;
    }
    assert bills[..|bills|] == bills;
    items := SortItems(all);
    AllItemsExactly(bills, r, occ);
    forall i | 0 <= i < |items|
      ensures InRange(items[i].date, r)
    {
      assert items[i] in multiset(all);
    }
  }

  /** `transaction_key`: account, date, stripped description and amount. */
  datatype Key = Key(account: AccountId, date: Date, description: string, cents: int)

  function KeyOf(it: PreviewItem): Key {
    Key(it.account, it.date, Strip(it.description), it.amount)
  }

  /**
   * `existing_keys`: the keys of the user's transactions dated in the range;
   * a record without a number amount gives none.
   */
  function ExistingKeys(accounts: map<AccountId, Account>, trxs: map<TrxId, Trx>, user: UserId, r: DateRange): set<Key> {
    set id | id in trxs && trxs[id].account in accounts && accounts[trxs[id].account].owner == user
                && InRange(trxs[id].date, r) && trxs[id].amount.Number?
      :: Key(trxs[id].account, trxs[id].date, Strip(trxs[id].description), trxs[id].amount.cents)
  }

  /**
   * The de-duplication `generate!` performs, for any key function: the items
   * whose key is neither in `seen` nor the key of an earlier item, in order.
   */
  function FirstOfEach<T, K>(xs: seq<T>, key: T -> K, seen: set<K>): seq<T>
    decreases |xs|
  {
    if xs == [] then []
    else if key(xs[0]) in seen then FirstOfEach(xs[1..], key, seen)
    else [xs[0]] + FirstOfEach(xs[1..], key, seen + {key(xs[0])})
  }

  /** No kept item has a key that was seen before, and every kept item is one of the items. */
  lemma {:induction false} FirstOfEachAreNew<T, K>(xs: seq<T>, key: T -> K, seen: set<K>)
    ensures forall i :: 0 <= i < |FirstOfEach(xs, key, seen)| ==> key(FirstOfEach(xs, key, seen)[i]) !in seen && FirstOfEach(xs, key, seen)[i] in xs
    decreases |xs|
  {
    if xs != [] {
      var k := key(xs[0]);
      var seen' := if k in seen then seen else seen + {k};
      var rest := FirstOfEach(xs[1..], key, seen');
      FirstOfEachAreNew(xs[1..], key, seen');
      var r := FirstOfEach(xs, key, seen);
      assert r == if k in seen then rest else [xs[0]] + rest;
      forall i | 0 <= i < |r|
        ensures key(r[i]) !in seen && r[i] in xs
      {
        var j := if k in seen then i else i - 1;
        if j >= 0 {
          assert r[i] == rest[j];
          assert rest[j] in xs[1..];
        }
      }
    }
  }

  /** No two kept items share a key. */
  lemma {:induction false} FirstOfEachDistinct<T, K>(xs: seq<T>, key: T -> K, seen: set<K>)
    ensures forall i, j :: 0 <= i < j < |FirstOfEach(xs, key, seen)| ==> key(FirstOfEach(xs, key, seen)[i]) != key(FirstOfEach(xs, key, seen)[j])
    decreases |xs|
  {
    if xs != [] {
      var k := key(xs[0]);
      if k in seen {
        FirstOfEachDistinct(xs[1..], key, seen);
      } else {
        var rest := FirstOfEach(xs[1..], key, seen + {k});
        FirstOfEachDistinct(xs[1..], key, seen + {k});
        FirstOfEachAreNew(xs[1..], key, seen + {k});
        var r := FirstOfEach(xs, key, seen);
        assert r == [xs[0]] + rest;
        forall i, j | 0 <= i < j < |r|
          ensures key(r[i]) != key(r[j])
        {
          assert r[j] == rest[j - 1];
          if i > 0 {
            assert r[i] == rest[i - 1];
          }
        }
      }
    }
  }

  /** Every item's key is either one seen before or the key of a kept item. */
  lemma {:induction false} FirstOfEachCovers<T, K>(xs: seq<T>, key: T -> K, seen: set<K>)
    ensures forall x :: x in xs ==> key(x) in seen || exists i :: 0 <= i < |FirstOfEach(xs, key, seen)| && key(FirstOfEach(xs, key, seen)[i]) == key(x)
    decreases |xs|
  {
    if xs != [] {
      var k := key(xs[0]);
      assert xs == [xs[0]] + xs[1..];
      if k in seen {
        FirstOfEachCovers(xs[1..], key, seen);
        assert FirstOfEach(xs, key, seen) == FirstOfEach(xs[1..], key, seen);
      } else {
        var rest := FirstOfEach(xs[1..], key, seen + {k});
        FirstOfEachCovers(xs[1..], key, seen + {k});
        var r := FirstOfEach(xs, key, seen);
        assert r == [xs[0]] + rest;
        forall x | x in xs
          ensures key(x) in seen || exists i :: 0 <= i < |r| && key(r[i]) == key(x)
        {
          if key(x) == k {
            assert key(r[0]) == key(x);
          } else if key(x) !in seen {
            assert x in xs[1..];
            var i :| 0 <= i < |rest| && key(rest[i]) == key(x);
            assert key(r[i + 1]) == key(x);
          }
        }
      }
    }
  }

  /**
   * The de-duplication loop of `generate!`: an item whose key is in the set is
   * skipped; otherwise its key joins the set and the item is kept.
   */
  method Dedup<T, K>(items: seq<T>, key: T -> K, existing: set<K>) returns (toCreate: seq<T>)
    ensures toCreate == FirstOfEach(items, key, existing)
  {
    var seen := existing;
    toCreate := [];
    var i := 0;
    while i < |items|
      invariant 0 <= i <= |items|
      invariant toCreate + FirstOfEach(items[i..], key, seen) == FirstOfEach(items, key, existing)
    {
      assert items[i..] == [items[i]] + items[i + 1..];
      var k := key(items[i]);
      if k !in seen {
        seen := seen + {k};
        toCreate := toCreate + [items[i]];
      }
      i := i + 1;
    }
  }

  /** The attributes `Transaction.create!` is given for an item: pending, in the batch, with its reference. */
  function ItemDraft(it: PreviewItem, batch: BatchId, reference: string): Draft {
    Draft(it.account, Number(it.amount), it.date, it.description, "", true, false, false, false,
          Some(batch), Some(reference), None)
  }

  /** The record stored for an item. */
  function ItemRecord(it: PreviewItem, batch: BatchId, reference: string): Trx
  {
    FromDraft(ItemDraft(it, batch, reference))
  }

  /**
   * A generated record is pending, so of all the validations only the account's
   * existence can fail; when it passes, the record keeps the item's amount.
   */
  lemma PrepareItem(it: PreviewItem, batch: BatchId, reference: string, accountExists: bool, batchReference: Option<string>)
    ensures var p := Prepare(FromDraft(ItemDraft(it, batch, reference)), PreviewTrxType(it), true, NoAmount, false,
                             false, accountExists, false, batchReference);
            (p.Ready? <==> accountExists) && (p.Ready? ==> p.record == ItemRecord(it, batch, reference))
  {
    PreviewTrxTypeKeepsAmount(it);
    var ty := PreviewTrxType(it);
    var c := Checked(ty, it.description, Number(it.amount), "", true, false, false, true, accountExists, false, false);
    assert Errors(c).Some?;
    assert Errors(c).value == if accountExists then {} else {AccountMissing};
  }

  /** `Transaction.create!` of one item; nothing changes when it fails. */
  method SaveItem(books: Books, it: PreviewItem, batch: BatchId, reference: string) returns (saved: bool)
    requires books.Valid()
    modifies books
    ensures books.Valid() && books.opening == old(books.opening)
    ensures saved <==> it.account in old(books.accounts)
    ensures !saved ==> unchanged(books)
    ensures saved ==>
              books.nextId == old(books.nextId) + 1
              && books.trxs == old(books.trxs)[old(books.nextId) := ItemRecord(it, batch, reference)]
              && books.accounts == ApplyMoves(old(books.accounts), [Move(it.account, it.amount)])
              && books.stashes == old(books.stashes) && books.stashEntries == old(books.stashEntries)
              && books.batches == old(books.batches)
  {
    var d := ItemDraft(it, batch, reference);
    PrepareItem(it, batch, reference, it.account in books.accounts, books.BatchReference(d.batch));
    var outcome := books.Create(d, PreviewTrxType(it), false, false);
    saved := outcome.Saved?;
  }

  /** The ids from `n` up to, not including, `n + count`. */
  function IdRange(n: TrxId, count: nat): (ids: set<TrxId>)
    ensures forall k :: k in ids <==> n <= k < n + count
  {
    if count == 0 then {} else IdRange(n, count - 1) + {n + count - 1}
  }

  /** The records once the first `count` items are stored under consecutive ids from `n`. */
  function Created(trxs: map<TrxId, Trx>, n: TrxId, items: seq<PreviewItem>, count: nat, batch: BatchId, reference: string): map<TrxId, Trx>
    requires count <= |items|
  {
    if count == 0 then trxs
    else Created(trxs, n, items, count - 1, batch, reference)[n + count - 1 := ItemRecord(items[count - 1], batch, reference)]
  }

  /**
   * Storing the first `count` items from id `n` adds exactly the ids `n` to
   * `n + count - 1`, the i-th holding the i-th item's record, and keeps every
   * earlier record.
   */
  lemma {:induction false} CreatedShape(trxs: map<TrxId, Trx>, n: TrxId, items: seq<PreviewItem>, count: nat, batch: BatchId, reference: string)
    requires count <= |items|
    ensures Created(trxs, n, items, count, batch, reference).Keys == trxs.Keys + IdRange(n, count)
    ensures forall i :: 0 <= i < count ==> Created(trxs, n, items, count, batch, reference)[n + i] == ItemRecord(items[i], batch, reference)
    ensures forall k :: k in trxs && k < n ==> Created(trxs, n, items, count, batch, reference)[k] == trxs[k]
  {
    if count > 0 {
      CreatedShape(trxs, n, items, count - 1, batch, reference);
    }
  }

  /** Storing one more item adds its record under the next id. */
  lemma CreatedStep(trxs: map<TrxId, Trx>, n: TrxId, items: seq<PreviewItem>, i: nat, j: nat, batch: BatchId, reference: string)
    requires i < |items| && j == i + 1
    ensures Created(trxs, n, items, j, batch, reference)
            == Created(trxs, n, items, i, batch, reference)[n + i := ItemRecord(items[i], batch, reference)]
  {
  }

  /** The balance moves of the first `count` items, in order. */
  function ItemMoves(items: seq<PreviewItem>, count: nat): (m: seq<Move>)
    requires count <= |items|
    ensures |m| == count
  {
    if count == 0 then []
    else ItemMoves(items, count - 1) + [Move(items[count - 1].account, items[count - 1].amount)]
  }

  /** `created.sum(&:amount)`. */
  function Total(items: seq<PreviewItem>): int
    decreases |items|
  {
    if items == [] then 0 else Total(items[..|items| - 1]) + items[|items| - 1].amount
  }

  /** Applying the moves of some items one after the other is applying them all at once. */
  lemma ItemMovesStep(accounts: map<AccountId, Account>, items: seq<PreviewItem>, i: nat)
    requires i < |items|
    ensures ApplyMoves(ApplyMoves(accounts, ItemMoves(items, i)), [Move(items[i].account, items[i].amount)])
            == ApplyMoves(accounts, ItemMoves(items, i + 1))
  {
    var ms := ItemMoves(items, i);
    assert (ms + [Move(items[i].account, items[i].amount)])[..|ms|] == ms;
  }

  /** Every one of the first `count` items names an account of `accounts`. */
  predicate AllKnown(items: seq<PreviewItem>, count: nat, accounts: map<AccountId, Account>)
    requires count <= |items|
  {
    count == 0 || (AllKnown(items, count - 1, accounts) && items[count - 1].account in accounts)
  }

  /** One more item is known when the ones before are and its own account exists. */
  lemma AllKnownStep(items: seq<PreviewItem>, i: nat, accounts: map<AccountId, Account>)
    requires i < |items|
    ensures AllKnown(items, i + 1, accounts) <==> AllKnown(items, i, accounts) && items[i].account in accounts
  {
  }

  /** `AllKnown` says of each of the first `count` items that its account exists. */
  lemma {:induction false} AllKnownMeans(items: seq<PreviewItem>, count: nat, accounts: map<AccountId, Account>)
    requires count <= |items|
    ensures AllKnown(items, count, accounts) <==> forall j :: 0 <= j < count ==> items[j].account in accounts
  {
    if count > 0 {
      AllKnownMeans(items, count - 1, accounts);
    }
  }

  /** Stores the `i`-th item after the first `i`, extending the records and moves by one. */
  method SaveNext(books: Books, items: seq<PreviewItem>, i: nat, batch: BatchId, reference: string,
                  accounts0: map<AccountId, Account>, trxs0: map<TrxId, Trx>, n: TrxId) returns (saved: bool)
    requires books.Valid() && i < |items| && books.nextId == n + i
    requires books.trxs == Created(trxs0, n, items, i, batch, reference)
    requires books.accounts == ApplyMoves(accounts0, ItemMoves(items, i))
    modifies books
    ensures books.Valid() && books.opening == old(books.opening)
    ensures saved <==> items[i].account in accounts0
    ensures saved ==> books.nextId == n + i + 1
    ensures saved ==> books.trxs == Created(trxs0, n, items, i + 1, batch, reference)
    ensures saved ==> books.accounts == ApplyMoves(accounts0, ItemMoves(items, i + 1))
    ensures books.stashes == old(books.stashes) && books.stashEntries == old(books.stashEntries)
    ensures books.batches == old(books.batches)
  {
    assert books.accounts.Keys == accounts0.Keys;
    saved := SaveItem(books, items[i], batch, reference);
    if saved {
      CreatedStep(trxs0, n, items, i, i + 1, batch, reference);
      ItemMovesStep(accounts0, items, i);
    }
  }

  /**
   * The `Transaction.create!` calls inside the database transaction: the items
   * are stored one after the other, and the first failure stops the loop.
   */
  method StoreEach(books: Books, items: seq<PreviewItem>, batch: BatchId, reference: string) returns (ok: bool)
    requires books.Valid()
    modifies books
    ensures books.Valid() && books.opening == old(books.opening)
    ensures ok <==> AllKnown(items, |items|, old(books.accounts))
    ensures ok ==> books.nextId == old(books.nextId) + |items|
                   && books.trxs == Created(old(books.trxs), old(books.nextId), items, |items|, batch, reference)
                   && books.accounts == ApplyMoves(old(books.accounts), ItemMoves(items, |items|))
    ensures books.stashes == old(books.stashes) && books.stashEntries == old(books.stashEntries)
    ensures books.batches == old(books.batches)
  {
    var n := books.nextId;
    var accounts0, trxs0 := books.accounts, books.trxs;
    var i := 0;
    while i < |items|
      invariant 0 <= i <= |items|
      invariant books.Valid() && books.opening == old(books.opening)
      invariant AllKnown(items, i, accounts0)
      invariant books.nextId == n + i
      invariant books.trxs == Created(trxs0, n, items, i, batch, reference)
      invariant books.accounts == ApplyMoves(accounts0, ItemMoves(items, i))
      invariant books.stashes == old(books.stashes) && books.stashEntries == old(books.stashEntries)
      invariant books.batches == old(books.batches)
    {
      var saved := SaveNext(books, items, i, batch, reference, accounts0, trxs0, n);
      if !saved {
        AllKnownMeans(items, |items|, accounts0);
        return false;
      }
      AllKnownStep(items, i, accounts0);
      i := i + 1;
    }
    ok := true;
  }

  /**
   * The database transaction of `generate!`: the items are created one after
   * the other, then the batch's count and total are set; when a `create!`
   * raises, the records stored before it are rolled back and the batch keeps
   * its old row.
   */
  method CreateAll(books: Books, items: seq<PreviewItem>, batchId: BatchId, batch: Batch) returns (ok: bool)
    requires books.Valid() && batch.reference.Some?
    modifies books
    ensures books.Valid() && books.opening == old(books.opening)
    ensures ok <==> AllKnown(items, |items|, old(books.accounts))
    ensures ok ==> books.nextId == old(books.nextId) + |items|
                   && books.trxs == Created(old(books.trxs), old(books.nextId), items, |items|, batchId, batch.reference.value)
                   && books.accounts == ApplyMoves(old(books.accounts), ItemMoves(items, |items|))
                   && books.batches == old(books.batches)[batchId := batch.(transactionsCount := |items|, totalAmount := Total(items))]
    ensures !ok ==> books.accounts == old(books.accounts) && books.trxs == old(books.trxs)
                    && books.nextId == old(books.nextId) && books.batches == old(books.batches)
    ensures books.stashes == old(books.stashes) && books.stashEntries == old(books.stashEntries)
  {
    var n := books.nextId;
    var accounts0, trxs0 := books.accounts, books.trxs;
    ok := StoreEach(books, items, batchId, batch.reference.value);
    if ok {
      books.PutBatch(batchId, batch.(transactionsCount := |items|, totalAmount := Total(items)));
    } else {
      books.RollBack(accounts0, trxs0, n);
    }
  }

  /** How `generate!` ends. */
  datatype GenerateOutcome =
    | NothingGenerated                        // no items, or none left after de-duplication: no batch
    | BatchRejected(errors: set<BatchError>)  // `BillTransactionBatch.create!` raises
    | CreateFailed(batch: BatchId)            // a `Transaction.create!` raises: the batch stays, empty
    | Generated(batch: BatchId, created: seq<TrxId>)

  /** The ids `n`, `n + 1`, … given to `count` new records. */
  function NewIds(n: TrxId, count: nat): (ids: seq<TrxId>)
    ensures |ids| == count && forall i :: 0 <= i < count ==> ids[i] == n + i
  {
    seq(count, i => n + i)
  }

  /**
   * `generate!`: the items of the preview whose keys do not already exist, in
   * preview order, are stored as pending records of one new batch, and the
   * batch's count and total are set. With nothing to store, no batch is made.
   * The batch is made before the database transaction, so a failing record
   * rolls back the records but leaves the batch (empty) behind.
   * `batchId` is the id the database gives the new batch.
   */
  method Generate(books: Books, user: UserId, bills: seq<GenBill>, periodMonth: Option<Date>,
                  startParam: DateParam, endParam: DateParam, today: Date, occ: Occurrences,
                  uuid: string, batchId: BatchId) returns (outcome: GenerateOutcome)
    requires books.Valid() && batchId !in books.batches
    modifies books
    ensures books.Valid()
    ensures var r := NormalizeRange(periodMonth, startParam, endParam, today);
            var kept := FirstOfEach(SortItems(AllItems(bills, r, occ)), KeyOf, ExistingKeys(old(books.accounts), old(books.trxs), user, r));
            var batch := AssignReference(BatchAttrs(user, r), uuid);
            var errors := BatchErrors(batch, References(old(books.batches)));
            var stored := AllKnown(kept, |kept|, old(books.accounts));
            (outcome == NothingGenerated <==> kept == [])
            && (outcome.BatchRejected? <==> kept != [] && errors != {})
            && (outcome.BatchRejected? ==> outcome.errors == errors)
            && (outcome == CreateFailed(batchId) <==> kept != [] && errors == {} && !stored)
            && (outcome.Generated? <==> kept != [] && errors == {} && stored)
            && (outcome.Generated? ==>
                  outcome == Generated(batchId, NewIds(old(books.nextId), |kept|))
                  && books.nextId == old(books.nextId) + |kept|
                  && books.trxs == Created(old(books.trxs), old(books.nextId), kept, |kept|, batchId, uuid)
                  && books.accounts == ApplyMoves(old(books.accounts), ItemMoves(kept, |kept|))
                  && books.batches == old(books.batches)[batchId := batch.(transactionsCount := |kept|, totalAmount := Total(kept))])
            && (outcome.CreateFailed? ==>
                  books.trxs == old(books.trxs) && books.accounts == old(books.accounts)
                  && books.nextId == old(books.nextId) && books.batches == old(books.batches)[batchId := batch])
            && (!outcome.Generated? && !outcome.CreateFailed? ==>
                  books.trxs == old(books.trxs) && books.accounts == old(books.accounts)
                  && books.nextId == old(books.nextId) && books.batches == old(books.batches))
    ensures books.stashes == old(books.stashes) && books.stashEntries == old(books.stashEntries)
  {
    var n := books.nextId;
    var r := NormalizeRange(periodMonth, startParam, endParam, today);
    var items := Preview(bills, periodMonth, startParam, endParam, today, occ);
    if items == [] {
      return NothingGenerated;
    }
    var existing := ExistingKeys(books.accounts, books.trxs, user, r);
    var toCreate := Dedup(items, KeyOf, existing);
    if toCreate == [] {
      return NothingGenerated;
    }
    var batch := AssignReference(BatchAttrs(user, r), uuid);
    var errors := BatchErrors(batch, References(books.batches));
    if errors != {} {
      return BatchRejected(errors);
    }
    outcome := StoreBatch(books, batchId, batch, toCreate);
  }

  /**
   * The part of `generate!` after the batch passed validation: the batch is
   * stored, then its records are created in one database transaction, then its
   * count and total are set. A failing record leaves the batch, empty.
   */
  method StoreBatch(books: Books, batchId: BatchId, batch: Batch, toCreate: seq<PreviewItem>) returns (outcome: GenerateOutcome)
    requires books.Valid() && batchId !in books.batches && batch.reference.Some?
    modifies books
    ensures books.Valid()
    ensures outcome.Generated? || outcome == CreateFailed(batchId)
    ensures outcome.Generated? <==> AllKnown(toCreate, |toCreate|, old(books.accounts))
    ensures outcome.Generated? ==> outcome == Generated(batchId, NewIds(old(books.nextId), |toCreate|))
    ensures outcome.Generated? ==> books.nextId == old(books.nextId) + |toCreate|
    ensures outcome.Generated? ==>
              books.trxs == Created(old(books.trxs), old(books.nextId), toCreate, |toCreate|, batchId, batch.reference.value)
    ensures outcome.Generated? ==> books.accounts == ApplyMoves(old(books.accounts), ItemMoves(toCreate, |toCreate|))
    ensures outcome.Generated? ==>
              books.batches == old(books.batches)[batchId := batch.(transactionsCount := |toCreate|, totalAmount := Total(toCreate))]
    ensures outcome.CreateFailed? ==>
              books.trxs == old(books.trxs) && books.accounts == old(books.accounts)
              && books.nextId == old(books.nextId) && books.batches == old(books.batches)[batchId := batch]
    ensures books.stashes == old(books.stashes) && books.stashEntries == old(books.stashEntries)
  {
    var n := books.nextId;
    ghost var batches0: map<BatchId, Batch> := books.batches;
    var final := batch.(transactionsCount := |toCreate|, totalAmount := Total(toCreate));
    assert batches0[batchId := batch][batchId := final] == batches0[batchId := final];
    books.PutBatch(batchId, batch);
    var ok := CreateAll(books, toCreate, batchId, batch);
    outcome := if ok then Generated(batchId, NewIds(n, |toCreate|)) else CreateFailed(batchId);
  }

  /**
   * What a successful `generate!` stores: for every kept item a pending record
   * of the batch carrying the batch's reference and the item's account, date,
   * description and amount; no two of them share a key, and none has the key
   * of a transaction that existed in the range.
   */
  lemma GeneratedRecords(trxs: map<TrxId, Trx>, n: TrxId, items: seq<PreviewItem>, existing: set<Key>,
                         batch: BatchId, reference: string)
    requires forall k :: k in trxs ==> k < n
    ensures forall i :: 0 <= i < |FirstOfEach(items, KeyOf, existing)| ==>
              KeyOf(FirstOfEach(items, KeyOf, existing)[i]) !in existing
    ensures forall i, j :: 0 <= i < j < |FirstOfEach(items, KeyOf, existing)| ==>
              KeyOf(FirstOfEach(items, KeyOf, existing)[i]) != KeyOf(FirstOfEach(items, KeyOf, existing)[j])
    ensures forall i :: 0 <= i < |FirstOfEach(items, KeyOf, existing)| ==>
              n + i in Created(trxs, n, FirstOfEach(items, KeyOf, existing), |FirstOfEach(items, KeyOf, existing)|, batch, reference)
              && Created(trxs, n, FirstOfEach(items, KeyOf, existing), |FirstOfEach(items, KeyOf, existing)|, batch, reference)[n + i]
                 == ItemRecord(FirstOfEach(items, KeyOf, existing)[i], batch, reference)
    ensures forall k :: k in trxs ==> k in Created(trxs, n, FirstOfEach(items, KeyOf, existing), |FirstOfEach(items, KeyOf, existing)|, batch, reference)
                                      && Created(trxs, n, FirstOfEach(items, KeyOf, existing), |FirstOfEach(items, KeyOf, existing)|, batch, reference)[k] == trxs[k]
  {
    var kept := FirstOfEach(items, KeyOf, existing);
    FirstOfEachAreNew(items, KeyOf, existing);
    FirstOfEachDistinct(items, KeyOf, existing);
    CreatedShape(trxs, n, kept, |kept|, batch, reference);
  }
}
