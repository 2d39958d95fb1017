/**
 * `PerformTransfer`: money moves between two accounts as a debit in the source
 * account and a credit in the target account, created inside one database
 * transaction and then linked to each other as counterparts.
 */
module Transfers {
  import opened Wrappers
  import opened Text
  import opened Calendar
  import opened TransactionRules
  import opened Ledger

  /** How a transfer ends: both legs stored, an account not found, or a leg that failed to save. */
  datatype TransferOutcome = Transferred(source: TrxId, target: TrxId) | AccountNotFound | LegInvalid

  /**
   * A transfer record as it is built before `save!`: the magnitude of the amount,
   * locked and marked as a transfer, no memo, not a quick receipt.
   */
  function Leg(account: AccountId, description: string, cents: int, date: Date, category: Option<CategoryId>): (d: Draft)
    ensures d.amount == Number(Abs(cents)) && d.locked && d.transfer && !d.pending && !d.quickReceipt
    ensures d.account == account && d.description == description && d.date == date && d.category == category
  {
    Draft(account, Number(Abs(cents)), date, description, "", false, false, true, true, None, None, category)
  }

  function SourceDescription(targetName: string): string {
    "Transfer to " + targetName
  }

  function TargetDescription(sourceName: string): string {
    "Transfer from " + sourceName
  }

  /**
   * A transfer record saved with type `ty` is stored with amount −|x| for a debit
   * and |x| for a credit, pending unless the pending default is skipped, as long
   * as its description fits in 150 characters and its account exists; a longer
   * description fails validation.
   */
  lemma PrepareLeg(account: AccountId, description: string, cents: int, date: Date, category: Option<CategoryId>,
                   ty: string, skip: bool, accountExists: bool)
    requires ty == "debit" || ty == "credit"
    requires |description| > 0 && description[0] == 'T'
    ensures var d := Leg(account, description, cents, date, category);
            var p := Prepare(FromDraft(d), ty, true, NoAmount, skip, false, accountExists, false, None);
            (p.Ready? <==> accountExists && |description| <= 150)
            && (p.Ready? ==> p.record == SavedLeg(d, cents, ty, skip))
  {
    var d := Leg(account, description, cents, date, category);
    assert !Blank(ty) by { assert !IsSpace(ty[0]); }
    assert !Blank(description) by { assert !IsSpace(description[0]); }
    var amount := ConvertAmount(d.amount, ty, true, NoAmount, false);
    assert amount == Number(if ty == "debit" then -Abs(cents) else Abs(cents));
    var c := Checked(ty, description, amount, "", false, false, false, true, accountExists, false, false);
    assert Errors(c).Some?;
    assert Errors(c).value == (if |description| > 150 then {DescriptionTooLong} else {})
                              + (if !accountExists then {AccountMissing} else {});
  }

  /** A transfer record as `save!` stores it: the amount signed by its type, pending unless that is skipped. */
  function SavedLeg(d: Draft, cents: int, ty: string, skip: bool): Trx {
    FromDraft(d).(amount := Number(if ty == "debit" then -Abs(cents) else Abs(cents)), pending := !skip)
  }

  /**
   * `save!` of one leg: it is stored under the next id and its signed amount
   * added to its account when the account exists and the description fits;
   * otherwise nothing changes (and the service's `save!` raises).
   */
  method SaveLeg(books: Books, account: AccountId, description: string, cents: int, date: Date,
                 category: Option<CategoryId>, ty: string, skip: bool) returns (saved: bool)
    requires books.Valid()
    requires ty == "debit" || ty == "credit"
    requires |description| > 0 && description[0] == 'T'
    modifies books
    ensures books.Valid() && books.opening == old(books.opening)
    ensures saved <==> account in old(books.accounts) && |description| <= 150
    ensures !saved ==> unchanged(books)
    ensures saved ==>
              books.nextId == old(books.nextId) + 1
              && books.trxs == old(books.trxs)[old(books.nextId) := SavedLeg(Leg(account, description, cents, date, category), cents, ty, skip)]
              && books.accounts == ApplyMoves(old(books.accounts), [Move(account, if ty == "debit" then -Abs(cents) else Abs(cents))])
              && books.stashes == old(books.stashes) && books.stashEntries == old(books.stashEntries)
              && books.batches == old(books.batches)
  {
    var d := Leg(account, description, cents, date, category);
    PrepareLeg(account, description, cents, date, category, ty, skip, account in books.accounts);
    assert books.BatchReference(d.batch) == None;
    var outcome := books.Create(d, ty, skip, false);
    saved := outcome.Saved?;
  }

  /** The legs once linked: each names the other as its counterpart. */
  function LinkedLeg(d: Draft, cents: int, ty: string, partner: TrxId): Trx {
    SavedLeg(d, cents, ty, false).(counterpart := Some(partner))
  }

  /** The records once the debit leg `d1` is stored as `n` and the credit leg `d2` as `n + 1`, linked. */
  function WithTransfer(trxs: map<TrxId, Trx>, n: TrxId, d1: Draft, d2: Draft, cents: int): (r: map<TrxId, Trx>)
    ensures r.Keys == trxs.Keys + {n, n + 1}
    ensures r[n].counterpart == Some(n + 1) && r[n + 1].counterpart == Some(n)
    ensures r[n].amount == Number(-Abs(cents)) && r[n + 1].amount == Number(Abs(cents))
  {
    trxs[n := LinkedLeg(d1, cents, "debit", n + 1)][n + 1 := LinkedLeg(d2, cents, "credit", n)]
  }

  /**
   * `PerformTransfer.new(...).do_transfer`: both accounts are looked up, the
   * debit leg (−|x|) is saved in the source account and the credit leg (|x|) in
   * the target account on the same date, and each is linked to the other. Any
   * failure rolls the whole transfer back. On success the source loses |x| and
   * the target gains |x|.
   */
  method PerformTransfer(books: Books, source: AccountId, target: AccountId, cents: int, date: Date) returns (outcome: TransferOutcome)
    requires books.Valid()
    modifies books
    ensures books.Valid()
    ensures !outcome.Transferred? ==>
              books.accounts == old(books.accounts) && books.trxs == old(books.trxs) && books.nextId == old(books.nextId)
              && books.stashes == old(books.stashes) && books.stashEntries == old(books.stashEntries)
              && books.batches == old(books.batches)
    ensures outcome == AccountNotFound <==> source !in old(books.accounts) || target !in old(books.accounts)
    ensures outcome.Transferred? <==>
              source in old(books.accounts) && target in old(books.accounts)
              && |SourceDescription(old(books.accounts)[target].name)| <= 150
              && |TargetDescription(old(books.accounts)[source].name)| <= 150
    ensures outcome.Transferred? ==>
              var n := old(books.nextId);
              var sourceLeg := Leg(source, SourceDescription(old(books.accounts)[target].name), cents, date, None);
              var targetLeg := Leg(target, TargetDescription(old(books.accounts)[source].name), cents, date, None);
              outcome == Transferred(n, n + 1) && books.nextId == n + 2
              && books.trxs == WithTransfer(old(books.trxs), n, sourceLeg, targetLeg, cents)
              && books.accounts == ApplyMoves(old(books.accounts), [Move(source, -Abs(cents)), Move(target, Abs(cents))])
              && books.stashes == old(books.stashes) && books.stashEntries == old(books.stashEntries)
              && books.batches == old(books.batches)
  {
    if source !in books.accounts || target !in books.accounts {
      return AccountNotFound;
    }
    var n := books.nextId;
    var done := DoTransfer(books, source, target, SourceDescription(books.accounts[target].name),
                           TargetDescription(books.accounts[source].name), cents, date);
    outcome := if done then Transferred(n, n + 1) else LegInvalid;
  }

  /**
   * `do_transfer`'s database transaction: both legs are saved and then linked
   * to each other; when a save raises, nothing of the transfer remains.
   */
  method DoTransfer(books: Books, source: AccountId, target: AccountId, sourceDescription: string,
                    targetDescription: string, cents: int, date: Date) returns (done: bool)
    requires books.Valid() && source in books.accounts && target in books.accounts
    requires |sourceDescription| > 0 && sourceDescription[0] == 'T'
    requires |targetDescription| > 0 && targetDescription[0] == 'T'
    modifies books
    ensures books.Valid() && books.opening == old(books.opening)
    ensures done <==> |sourceDescription| <= 150 && |targetDescription| <= 150
    ensures !done ==>
              books.accounts == old(books.accounts) && books.trxs == old(books.trxs) && books.nextId == old(books.nextId)
    ensures done ==>
              var n := old(books.nextId);
              books.nextId == n + 2
              && books.trxs == WithTransfer(old(books.trxs), n, Leg(source, sourceDescription, cents, date, None),
                                            Leg(target, targetDescription, cents, date, None), cents)
              && books.accounts == ApplyMoves(old(books.accounts), [Move(source, -Abs(cents)), Move(target, Abs(cents))])
    ensures books.stashes == old(books.stashes) && books.stashEntries == old(books.stashEntries)
    ensures books.batches == old(books.batches)
  {
    var n := books.nextId;
    ghost var trxs0 := books.trxs;
    done := SaveLegs(books, source, target, sourceDescription, targetDescription, cents, date);
    if done {
      books.LinkCounterparts(n, n + 1);
      LinkAfterSave(trxs0, n, Leg(source, sourceDescription, cents, date, None), Leg(target, targetDescription, cents, date, None), cents);
    }
  }

  /**
   * The two `save!` calls inside the database transaction: the debit leg, then
   * the credit leg; when the second raises, the first is rolled back.
   */
  method SaveLegs(books: Books, source: AccountId, target: AccountId, sourceDescription: string,
                  targetDescription: string, cents: int, date: Date) returns (saved: bool)
    requires books.Valid() && source in books.accounts && target in books.accounts
    requires |sourceDescription| > 0 && sourceDescription[0] == 'T'
    requires |targetDescription| > 0 && targetDescription[0] == 'T'
    modifies books
    ensures books.Valid() && books.opening == old(books.opening)
    ensures saved <==> |sourceDescription| <= 150 && |targetDescription| <= 150
    ensures !saved ==>
              books.accounts == old(books.accounts) && books.trxs == old(books.trxs) && books.nextId == old(books.nextId)
    ensures saved ==>
              var n := old(books.nextId);
              books.nextId == n + 2
              && books.trxs == old(books.trxs)[n := SavedLeg(Leg(source, sourceDescription, cents, date, None), cents, "debit", false)]
                                              [n + 1 := SavedLeg(Leg(target, targetDescription, cents, date, None), cents, "credit", false)]
              && books.accounts == ApplyMoves(old(books.accounts), [Move(source, -Abs(cents)), Move(target, Abs(cents))])
    ensures books.stashes == old(books.stashes) && books.stashEntries == old(books.stashEntries)
    ensures books.batches == old(books.batches)
  {
    var n := books.nextId;
    var accounts0, trxs0 := books.accounts, books.trxs;
    saved := SaveLeg(books, source, sourceDescription, cents, date, None, "debit", false);
    if !saved {
      return;
    }
    assert ApplyMoves(accounts0, [Move(source, -Abs(cents))]).Keys == accounts0.Keys;
    saved := SaveLeg(books, target, targetDescription, cents, date, None, "credit", false);
    if !saved {
      // the raise inside the database transaction rolls back the first leg
      assert Linked(accounts0, trxs0, n, books.stashes, books.stashEntries);
      assert Balanced(accounts0, trxs0, books.opening, n);
      books.accounts, books.trxs, books.nextId := accounts0, trxs0, n;
    } else {
      TwoMoves(accounts0, Move(source, -Abs(cents)), Move(target, Abs(cents)));
    }
  }

  /** Saving the two legs and then linking them leaves exactly the two linked legs. */
  lemma LinkAfterSave(trxs: map<TrxId, Trx>, n: TrxId, d1: Draft, d2: Draft, cents: int)
    ensures Paired(trxs[n := SavedLeg(d1, cents, "debit", false)][n + 1 := SavedLeg(d2, cents, "credit", false)], n, n + 1)
            == WithTransfer(trxs, n, d1, d2, cents)
  {
  }

  lemma TwoMoves(accounts: map<AccountId, Account>, x: Move, y: Move)
    ensures ApplyMoves(ApplyMoves(accounts, [x]), [y]) == ApplyMoves(accounts, [x, y])
  {
    var r1 := ApplyMoves(ApplyMoves(accounts, [x]), [y]);
    var r2 := ApplyMoves(accounts, [x, y]);
    forall a | a in accounts
      ensures r1[a] == r2[a]
    {
      NetSmall(x, y, a);
      NetSmall(y, y, a);
    }
  }

  /** A transfer takes from one account exactly what it gives to the other and touches no third account. */
  lemma TransferConservesBalances(accounts: map<AccountId, Account>, source: AccountId, target: AccountId, cents: int)
    requires source in accounts && target in accounts && source != target
    ensures var after := ApplyMoves(accounts, [Move(source, -Abs(cents)), Move(target, Abs(cents))]);
            after[source].balance + after[target].balance == accounts[source].balance + accounts[target].balance
            && after[source].balance == accounts[source].balance - Abs(cents)
            && (forall a :: a in accounts && a != source && a != target ==> after[a] == accounts[a])
  {
    var moves := [Move(source, -Abs(cents)), Move(target, Abs(cents))];
    NetSmall(moves[0], moves[1], source);
    NetSmall(moves[0], moves[1], target);
    forall a | a in accounts && a != source && a != target
      ensures Net(moves, a) == 0
    {
      NetSmall(moves[0], moves[1], a);
    }
  }
}
