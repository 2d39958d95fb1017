/**
 * `Transactions::BatchesController`: the date range a request asks for, the
 * month a bill is next due, the reply to a generation request, and undoing a
 * generated batch, which is refused once any of its transactions was reviewed.
 */
module BatchesController {
  import opened Wrappers
  import opened Calendar
  import opened TransactionRules
  import opened Ledger
  import opened Batches
  import opened Generator

  /** The `month` parameter: blank, present but not of the form year-month, or a month. */
  datatype MonthParam = NoMonth | BadMonth | MonthGiven(month: Date)

  /** `parse_month`: the month read from the parameter; today when it cannot be read. */
  function ParseMonth(p: MonthParam, today: Date): Date {
    if p.MonthGiven? then BeginningOfMonth(p.month) else today
  }

  /**
   * `parsed_range`: a present month gives that whole month; otherwise the start
   * defaults to the first of the current month, the end to the last day of the
   * start's month, and an end before the start is moved up to the start.
   */
  function ParsedRange(month: MonthParam, startParam: DateParam, endParam: DateParam, today: Date): (r: DateRange)
    ensures Leq(r.start, r.end)
    ensures !month.NoMonth? ==> WholeMonth(r) && SameMonth(r.start, if month.MonthGiven? then month.month else today)
  {
    if !month.NoMonth? then
      var m := BeginningOfMonth(ParseMonth(month, today));
      DateRange(m, EndOfMonth(m))
    else
      var start := ParseDate(startParam).GetOr(BeginningOfMonth(today));
      var end := ParseDate(endParam).GetOr(EndOfMonth(start));
      BeforeTotal(start, end);
      DateRange(start, if Before(end, start) then start else end)
  }

  /**
   * Without a month the controller and the generator read the dates alike;
   * with one, the controller's range is the generator's range of that month.
   */
  lemma ParsedRangeAgreesWithGenerator(month: MonthParam, startParam: DateParam, endParam: DateParam, today: Date)
    ensures month.NoMonth? ==> ParsedRange(month, startParam, endParam, today) == NormalizeRange(None, startParam, endParam, today)
    ensures !month.NoMonth? ==>
              ParsedRange(month, startParam, endParam, today) == NormalizeRange(Some(ParseMonth(month, today)), NoParam, NoParam, today)
  {
  }

  /**
   * `create` hands the parsed range to `generate!` as two dates; the generator's
   * own normalisation then leaves an ordered range as it is.
   */
  lemma {:induction false} OrderedRangePassesThrough(r: DateRange, today: Date)
    requires Leq(r.start, r.end)
    ensures NormalizeRange(None, DateGiven(r.start), DateGiven(r.end), today) == r
  {
    BeforeTotal(r.start, r.end);
  }

  /** The first of the month `k` months after the month of `today`. */
  function MonthStart(today: Date, k: nat): (m: Date)
    ensures m.day == 1 && MonthIndex(m) == MonthIndex(today) + k
  {
    if k == 0 then BeginningOfMonth(today) else NextMonth(MonthStart(today, k - 1))
  }

  /** The bill falls due in none of the first `k` months scanned. */
  predicate DueInNone(b: GenBill, today: Date, occ: Occurrences, k: nat) {
    forall j :: 0 <= j < k ==> occ(b, MonthStart(today, j)) == []
  }

  /**
   * `next_occurrence_for`: the current month and the eleven after it are asked
   * in turn; the first date of the first month with any occurrence is the
   * answer, and today when all twelve are empty.
   */
  method NextOccurrenceFor(b: GenBill, today: Date, occ: Occurrences) returns (d: Date)
    ensures DueInNone(b, today, occ, 12) ==> d == today
    ensures !DueInNone(b, today, occ, 12) ==>
              exists k :: 0 <= k < 12 && DueInNone(b, today, occ, k) && occ(b, MonthStart(today, k)) != []
                          && d == occ(b, MonthStart(today, k))[0]
    ensures StaysInMonth(occ) ==> MonthIndex(today) <= MonthIndex(d) < MonthIndex(today) + 12
  {
    var reference := BeginningOfMonth(today);
    var k := 0;
    while k < 12
      invariant 0 <= k <= 12
      invariant reference == MonthStart(today, k)
      invariant DueInNone(b, today, occ, k)
    {
      var occurrences := occ(b, reference);
      if occurrences != [] {
        return occurrences[0];
      }
      reference := NextMonth(reference);
      k := k + 1;
    }
    d := today;
  }

  /**
   * `default_range`: the whole month in which the bill is next due, or the
   * current month when no bill is given.
   */
  method DefaultRange(bill: Option<GenBill>, today: Date, occ: Occurrences) returns (r: DateRange)
    ensures WholeMonth(r)
    ensures bill.None? ==> SameMonth(r.start, today)
    ensures bill.Some? && DueInNone(bill.value, today, occ, 12) ==> SameMonth(r.start, today)
    ensures bill.Some? ==>
              forall k :: 0 <= k < 12 && DueInNone(bill.value, today, occ, k) && occ(bill.value, MonthStart(today, k)) != [] ==>
                SameMonth(r.start, occ(bill.value, MonthStart(today, k))[0])
  {
    var date := today;
    if bill.Some? {
      date := NextOccurrenceFor(bill.value, today, occ);
    }
    var start := BeginningOfMonth(date);
    r := DateRange(start, EndOfMonth(start));
  }

  /** The flash `create` leaves. */
  datatype CreateReply =
    | Notice(count: nat, undoBatch: BatchId)  // "<count> pending transactions generated.", with an undo link
    | Alert                                   // "No pending transactions were generated …"
    | Failed                                  // `generate!` raised: no flash, nothing redirected

  /**
   * `create`: the parsed range goes to `generate!`; success is reported, with
   * the batch to undo, only when a batch was made and holds at least one new
   * record.
   */
  method Create(books: Books, user: UserId, bills: seq<GenBill>, month: MonthParam, startParam: DateParam,
                endParam: DateParam, today: Date, occ: Occurrences, uuid: string, batchId: BatchId)
    returns (reply: CreateReply)
    requires books.Valid() && batchId !in books.batches
    modifies books
    ensures books.Valid()
    ensures reply.Notice? ==>
              reply.count > 0 && reply.undoBatch == batchId && batchId in books.batches
              && books.batches[batchId].transactionsCount == reply.count
              && books.nextId == old(books.nextId) + reply.count
    ensures reply.Alert? ==>
              books.trxs == old(books.trxs) && books.accounts == old(books.accounts)
              && books.batches == old(books.batches) && books.nextId == old(books.nextId)
    ensures reply.Failed? ==>
              books.trxs == old(books.trxs) && books.accounts == old(books.accounts) && books.nextId == old(books.nextId)
  {
    var r := ParsedRange(month, startParam, endParam, today);
    var result := Generate(books, user, bills, None, DateGiven(r.start), DateGiven(r.end), today, occ, uuid, batchId);
    match result
    case Generated(b, created) =>
      reply := Notice(|created|, b);
    case NothingGenerated =>
      reply := Alert;
    case _ =>
      reply := Failed;
  }

  /** Some transaction of the batch is no longer pending (`where.not(pending: true).count` is positive). */
  predicate HasReviewed(trxs: map<TrxId, Trx>, batch: BatchId) {
    exists k :: k in trxs && trxs[k].batch == Some(batch) && !trxs[k].pending
  }

  /**
   * `destroy!` of record `k` when it belongs to the batch: the record is
   * removed, unlinked from records that named it as counterpart, and its
   * number taken off its account.
   */
  function SweepOne(p: Tables, batch: BatchId, k: TrxId): Tables {
    if k in p.trxs && p.trxs[k].batch == Some(batch) then
      p.(accounts := ApplyMoves(p.accounts, DestroyMoves(p.trxs[k])), trxs := Unlinked(p.trxs, k) - {k})
    else p
  }

  /** The tables after `destroy!` of every record of the batch with an id below `count`, in id order. */
  function Swept(r: Tables, batch: BatchId, count: nat): Tables
    decreases count
  {
    if count == 0 then r else SweepOne(Swept(r, batch, count - 1), batch, count - 1)
  }

  lemma SweptStep(r: Tables, batch: BatchId, i: nat)
    ensures Swept(r, batch, i + 1) == SweepOne(Swept(r, batch, i), batch, i)
  {
  }

  /** One step removes record `k` exactly when it belongs to the batch; the other records keep what the balances and the guard read. */
  lemma SweepOneRecords(p: Tables, batch: BatchId, k: TrxId)
    ensures forall j :: j in SweepOne(p, batch, k).trxs <==> j in p.trxs && !(j == k && p.trxs[k].batch == Some(batch))
    ensures forall j :: j in SweepOne(p, batch, k).trxs ==>
              SweepOne(p, batch, k).trxs[j].account == p.trxs[j].account
              && SweepOne(p, batch, k).trxs[j].amount == p.trxs[j].amount
              && SweepOne(p, batch, k).trxs[j].batch == p.trxs[j].batch
              && SweepOne(p, batch, k).trxs[j].pending == p.trxs[j].pending
    ensures SweepOne(p, batch, k).stashes == p.stashes && SweepOne(p, batch, k).entries == p.entries
  {
  }

  /** What the batch's records with ids below `count` book to account `a`. */
  function BatchBooked(trxs: map<TrxId, Trx>, batch: BatchId, a: AccountId, count: nat): int
    decreases count
  {
    if count == 0 then 0
    else BatchBooked(trxs, batch, a, count - 1)
         + (if count - 1 in trxs && trxs[count - 1].batch == Some(batch) then ShareOf(trxs, count - 1, a) else 0)
  }

  /**
   * Sweeping a batch removes exactly its records below `count`; the others keep
   * their account, amount, batch and pending state (at most a counterpart link
   * is dropped), and the stashes stay.
   */
  lemma {:induction false} SweptRecords(r: Tables, batch: BatchId, count: nat)
    ensures forall k :: k in Swept(r, batch, count).trxs <==>
              k in r.trxs && !(k < count && r.trxs[k].batch == Some(batch))
    ensures forall k :: k in Swept(r, batch, count).trxs ==>
              var t := Swept(r, batch, count).trxs[k];
              t.account == r.trxs[k].account && t.amount == r.trxs[k].amount
              && t.batch == r.trxs[k].batch && t.pending == r.trxs[k].pending
    ensures Swept(r, batch, count).stashes == r.stashes && Swept(r, batch, count).entries == r.entries
  {
    if count > 0 {
      SweptRecords(r, batch, count - 1);
      SweepOneRecords(Swept(r, batch, count - 1), batch, count - 1);
    }
  }

  /** Sweeping a batch takes from each account exactly what the removed records had booked to it. */
  lemma {:induction false} SweptBalances(r: Tables, batch: BatchId, count: nat)
    ensures Swept(r, batch, count).accounts.Keys == r.accounts.Keys
    ensures forall a :: a in r.accounts ==>
              Swept(r, batch, count).accounts[a]
              == r.accounts[a].(balance := r.accounts[a].balance - BatchBooked(r.trxs, batch, a, count))
  {
    if count > 0 {
      var k := count - 1;
      SweptBalances(r, batch, k);
      SweptRecords(r, batch, k);
      var p := Swept(r, batch, k);
      SweepOneRecords(p, batch, k);
      if k in p.trxs && p.trxs[k].batch == Some(batch) {
        forall a | a in r.accounts
          ensures Swept(r, batch, count).accounts[a]
                  == r.accounts[a].(balance := r.accounts[a].balance - BatchBooked(r.trxs, batch, a, count))
        {
          CreateMovesShare(p.trxs[k], a);
        }
      }
    }
  }

  lemma BatchBookedStep(m: map<TrxId, Trx>, batch: BatchId, a: AccountId, i: nat, j: nat)
    requires j == i + 1
    ensures BatchBooked(m, batch, a, j)
            == BatchBooked(m, batch, a, i) + (if i in m && m[i].batch == Some(batch) then ShareOf(m, i, a) else 0)
  {
  }

  /** Storing a record of the batch under id `k` adds its share to what the batch books below `k + 1`. */
  lemma BatchBookedPush(m: map<TrxId, Trx>, k: TrxId, j: nat, t: Trx, batch: BatchId, a: AccountId)
    requires j == k + 1 && t.batch == Some(batch)
    ensures BatchBooked(m[k := t], batch, a, j) == BatchBooked(m, batch, a, k) + Share(t.account, t.amount, a)
  {
    BatchBookedAgree(m[k := t], m, batch, a, k);
    BatchBookedStep(m[k := t], batch, a, k, j);
  }

  /** Two tables that agree on every id below `count` book the same to the batch. */
  lemma {:induction false} BatchBookedAgree(m1: map<TrxId, Trx>, m2: map<TrxId, Trx>, batch: BatchId, a: AccountId, count: nat)
    requires forall k :: 0 <= k < count ==> (k in m1 <==> k in m2) && (k in m1 ==> m1[k] == m2[k])
    ensures BatchBooked(m1, batch, a, count) == BatchBooked(m2, batch, a, count)
  {
    if count > 0 {
      BatchBookedAgree(m1, m2, batch, a, count - 1);
    }
  }

  /** With no record of the batch below `count`, the batch books nothing. */
  lemma {:induction false} BatchBookedNone(m: map<TrxId, Trx>, batch: BatchId, a: AccountId, count: nat)
    requires forall k :: k in m && k < count ==> m[k].batch != Some(batch)
    ensures BatchBooked(m, batch, a, count) == 0
  {
    if count > 0 {
      BatchBookedNone(m, batch, a, count - 1);
    }
  }

  /**
   * What the records stored for a batch book to an account is what storing
   * them moved onto it.
   */
  lemma {:induction false} BatchBookedCreated(trxs: map<TrxId, Trx>, n: TrxId, items: seq<PreviewItem>, count: nat,
                                             batch: BatchId, reference: string, a: AccountId)
    requires count <= |items|
    requires forall k :: k in trxs ==> k < n && trxs[k].batch != Some(batch)
    ensures BatchBooked(Created(trxs, n, items, count, batch, reference), batch, a, n + count) == Net(ItemMoves(items, count), a)
  {
    if count == 0 {
      BatchBookedNone(trxs, batch, a, n);
    } else {
      var i := count - 1;
      BatchBookedCreated(trxs, n, items, i, batch, reference, a);
      BatchBookedCreatedStep(trxs, n, items, i, count, batch, reference, a);
      ItemMovesNetStep(items, i, count, batch, reference, a);
    }
  }

  lemma BatchBookedCreatedStep(trxs: map<TrxId, Trx>, n: TrxId, items: seq<PreviewItem>, i: nat, count: nat,
                               batch: BatchId, reference: string, a: AccountId)
    requires i < |items| && count == i + 1
    ensures var rec := ItemRecord(items[i], batch, reference);
            BatchBooked(Created(trxs, n, items, count, batch, reference), batch, a, n + count)
            == BatchBooked(Created(trxs, n, items, i, batch, reference), batch, a, n + i) + Share(rec.account, rec.amount, a)
  {
    CreatedStep(trxs, n, items, i, count, batch, reference);
    BatchBookedExtend(Created(trxs, n, items, count, batch, reference), Created(trxs, n, items, i, batch, reference),
                      n + i, n + count, ItemRecord(items[i], batch, reference), batch, a);
  }

  lemma BatchBookedExtend(after: map<TrxId, Trx>, before: map<TrxId, Trx>, k: TrxId, j: nat, t: Trx, batch: BatchId, a: AccountId)
    requires j == k + 1 && t.batch == Some(batch) && after == before[k := t]
    ensures BatchBooked(after, batch, a, j) == BatchBooked(before, batch, a, k) + Share(t.account, t.amount, a)
  {
    BatchBookedPush(before, k, j, t, batch, a);
  }

  lemma ItemMovesNetStep(items: seq<PreviewItem>, i: nat, count: nat, batch: BatchId, reference: string, a: AccountId)
    requires i < |items| && count == i + 1
    ensures var rec := ItemRecord(items[i], batch, reference);
            Net(ItemMoves(items, count), a) == Net(ItemMoves(items, i), a) + Share(rec.account, rec.amount, a)
  {
    var rec := ItemRecord(items[i], batch, reference);
    var ms := ItemMoves(items, count);
    assert ms[..i] == ItemMoves(items, i);
    assert Net(ms, a) == Net(ItemMoves(items, i), a) + Share(rec.account, rec.amount, a);
  }

  /** Undoing a freshly generated batch restores every account's balance. */
  lemma GenerateThenUndoRestoresBalances(accounts: map<AccountId, Account>, trxs: map<TrxId, Trx>, stashes: map<StashId, Stash>,
                                         entries: map<TrxId, StashEntry>, n: TrxId, kept: seq<PreviewItem>, batch: BatchId,
                                         reference: string)
    requires forall k :: k in trxs ==> k < n && trxs[k].batch != Some(batch)
    ensures Swept(Tables(ApplyMoves(accounts, ItemMoves(kept, |kept|)), Created(trxs, n, kept, |kept|, batch, reference), stashes, entries),
                  batch, n + |kept|).accounts == accounts
  {
    var r := Tables(ApplyMoves(accounts, ItemMoves(kept, |kept|)), Created(trxs, n, kept, |kept|, batch, reference), stashes, entries);
    var swept := Swept(r, batch, n + |kept|);
    SweptBalances(r, batch, n + |kept|);
    forall a | a in accounts
      ensures swept.accounts[a] == accounts[a]
    {
      BatchBookedCreated(trxs, n, kept, |kept|, batch, reference, a);
    }
  }

  /** Among the records after storing a batch's items, the batch's own are exactly the new ones. */
  lemma {:induction false} CreatedMembers(trxs: map<TrxId, Trx>, n: TrxId, items: seq<PreviewItem>, count: nat,
                                         batch: BatchId, reference: string)
    requires count <= |items|
    requires forall k :: k in trxs ==> k < n && trxs[k].batch != Some(batch)
    ensures forall k :: k in Created(trxs, n, items, count, batch, reference) <==> k in trxs || n <= k < n + count
    ensures forall k :: k in Created(trxs, n, items, count, batch, reference) ==>
              (Created(trxs, n, items, count, batch, reference)[k].batch == Some(batch) <==> k !in trxs)
  {
    if count > 0 {
      CreatedMembers(trxs, n, items, count - 1, batch, reference);
      CreatedStep(trxs, n, items, count - 1, count, batch, reference);
    }
  }

  /** Undoing a freshly generated batch leaves exactly the records there were before it. */
  lemma GenerateThenUndoRestoresRecords(accounts: map<AccountId, Account>, trxs: map<TrxId, Trx>, stashes: map<StashId, Stash>,
                                        entries: map<TrxId, StashEntry>, n: TrxId, kept: seq<PreviewItem>, batch: BatchId,
                                        reference: string)
    requires forall k :: k in trxs ==> k < n && trxs[k].batch != Some(batch)
    ensures Swept(Tables(accounts, Created(trxs, n, kept, |kept|, batch, reference), stashes, entries),
                  batch, n + |kept|).trxs.Keys == trxs.Keys
  {
    SweptRecords(Tables(accounts, Created(trxs, n, kept, |kept|, batch, reference), stashes, entries), batch, n + |kept|);
    CreatedMembers(trxs, n, kept, |kept|, batch, reference);
  }

  /** Undoing a batch removes exactly its records: every other record stays. */
  lemma UndoRemovesBatch(r: Tables, batch: BatchId, n: nat)
    requires forall k :: k in r.trxs ==> k < n
    ensures forall k :: k in Swept(r, batch, n).trxs <==> k in r.trxs && r.trxs[k].batch != Some(batch)
  {
    SweptRecords(r, batch, n);
  }

  /** The reply to `destroy`. */
  datatype UndoReply =
    | NotFound  // the batch is not one of the user's: `find` raises
    | Refused   // "Cannot undo because some transactions were already reviewed."
    | Undone    // "Generated transactions were undone."

  /**
   * `destroy`: a batch of the user's is undone only while every one of its
   * transactions is pending; then each of them is destroyed, in id order, and
   * finally the batch itself.
   */
  method Destroy(books: Books, user: UserId, batch: BatchId) returns (reply: UndoReply)
    requires books.Valid()
    modifies books
    ensures books.Valid()
    ensures reply == NotFound <==> !(batch in old(books.batches) && old(books.batches)[batch].owner == user)
    ensures reply == Refused <==> reply != NotFound && HasReviewed(old(books.trxs), batch)
    ensures reply != Undone ==>
              books.trxs == old(books.trxs) && books.accounts == old(books.accounts) && books.batches == old(books.batches)
    ensures reply == Undone ==>
              Tables(books.accounts, books.trxs, books.stashes, books.stashEntries)
              == Swept(Tables(old(books.accounts), old(books.trxs), old(books.stashes), old(books.stashEntries)), batch, old(books.nextId))
              && books.batches == old(books.batches) - {batch}
    ensures books.nextId == old(books.nextId) && books.stashes == old(books.stashes)
    ensures books.stashEntries == old(books.stashEntries)
  {
    if !(batch in books.batches && books.batches[batch].owner == user) {
      return NotFound;
    }
    if HasReviewed(books.trxs, batch) {
      return Refused;
    }
    var n := books.nextId;
    ghost var r0 := Tables(books.accounts, books.trxs, books.stashes, books.stashEntries);
    var i := 0;
    while i < n
      invariant 0 <= i <= n
      invariant books.Valid() && books.nextId == n
      invariant Tables(books.accounts, books.trxs, books.stashes, books.stashEntries) == Swept(r0, batch, i)
      invariant books.batches == old(books.batches)
    {
      SweptStep(r0, batch, i);
      if i in books.trxs && books.trxs[i].batch == Some(batch) {
        books.Destroy(i);
      }
      i := i + 1;
    }
    SweptRecords(r0, batch, n);
    books.RemoveBatch(batch);
    reply := Undone;
  }
}
