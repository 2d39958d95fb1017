/**
 * The transaction ledger: accounts with their current balances, the
 * transactions booked against them, stashes and their entries, and bill
 * batches. `Books` runs a transaction's save and destroy callbacks in the order
 * Rails runs them and keeps every account's balance equal to its opening balance
 * plus the numeric amounts of its transactions.
 */
module Ledger {
  import opened Wrappers
  import opened Text
  import opened Calendar
  import opened TransactionRules
  import opened Batches

  type StashId = nat
  type CategoryId = nat

  datatype Account = Account(owner: UserId, name: string, active: bool, balance: int)

  datatype Trx = Trx(
    account: AccountId,
    amount: Amount,
    date: Date,
    description: string,
    memo: string,
    pending: bool,
    quickReceipt: bool,
    locked: bool,
    transfer: bool,
    counterpart: Option<TrxId>,
    batch: Option<BatchId>,
    batchReference: Option<string>,
    category: Option<CategoryId>)

  /** The attributes a new record is built with; the counterpart link is only ever written afterwards. */
  datatype Draft = Draft(
    account: AccountId,
    amount: Amount,
    date: Date,
    description: string,
    memo: string,
    pending: bool,
    quickReceipt: bool,
    locked: bool,
    transfer: bool,
    batch: Option<BatchId>,
    batchReference: Option<string>,
    category: Option<CategoryId>)

  function FromDraft(d: Draft): Trx {
    Trx(d.account, d.amount, d.date, d.description, d.memo, d.pending, d.quickReceipt, d.locked,
        d.transfer, None, d.batch, d.batchReference, d.category)
  }

  /** The attributes an update may assign (the permitted transaction parameters). */
  datatype Edit = Edit(
    account: AccountId,
    amount: Amount,
    date: Date,
    description: string,
    memo: string,
    locked: bool,
    transfer: bool,
    pending: bool)

  function ApplyEdit(t: Trx, e: Edit): Trx {
    t.(account := e.account, amount := e.amount, date := e.date, description := e.description,
       memo := e.memo, locked := e.locked, transfer := e.transfer, pending := e.pending)
  }

  datatype Stash = Stash(account: AccountId, name: string, balance: int, goal: Option<int>)

  datatype StashError = NameMissing | NameTooShort | NameTooLong | NameTaken | GoalMissing | GoalBelowBalance | BalanceNegative

  /**
   * The validation errors of a stash, given the names the other stashes of its
   * account already use: a present name of 2 to 50 characters not used there, a
   * goal of at least the balance, and a balance of at least zero.
   */
  function StashErrors(s: Stash, takenNames: set<string>): (e: set<StashError>)
    ensures e == {} <==> !Blank(s.name) && 2 <= |s.name| <= 50 && s.name !in takenNames
                         && s.goal.Some? && s.goal.value >= s.balance && s.balance >= 0
  {
    (if Blank(s.name) then {NameMissing} else {})
    + (if |s.name| < 2 then {NameTooShort} else {})
    + (if |s.name| > 50 then {NameTooLong} else {})
    + (if s.name in takenNames then {NameTaken} else {})
    + (if s.goal.None? then {GoalMissing} else {})
    + (if s.goal.Some? && s.goal.value < s.balance then {GoalBelowBalance} else {})
    + (if s.balance < 0 then {BalanceNegative} else {})
  }

  /** The names the other stashes of `account` use (`uniqueness: { scope: :account_id }`). */
  function TakenNames(stashes: map<StashId, Stash>, sid: StashId, account: AccountId): set<string> {
    set s | s in stashes && s != sid && stashes[s].account == account :: stashes[s].name
  }

  /** Every stored stash passes its validations among the other stashes of its account. */
  ghost predicate StashesValid(stashes: map<StashId, Stash>) {
    forall s :: s in stashes ==> StashErrors(stashes[s], TakenNames(stashes, s, stashes[s].account)) == {}
  }

  /** A movement into (positive) or out of (negative) a stash, linked to the transaction that made it. */
  datatype StashEntry = StashEntry(stash: StashId, amount: int, date: Date)

  datatype SaveOutcome = Saved(id: TrxId) | Invalid(errors: set<TrxError>) | Raised

  /** The record as the before-validation, validation and before-save/create callbacks leave it. */
  datatype Prepared = Ready(record: Trx) | Rejected(errors: set<TrxError>) | Raises

  /**
   * The callbacks before the row is written: the type is inferred, the amount
   * converted, the batch reference filled in, the record validated, a completed
   * quick receipt cleared and a new record made pending unless that is skipped.
   * Only the amount, the batch reference and the two flags are written.
   */
  function Prepare(proposed: Trx, trxType: string, isNew: bool, amountWas: Amount, skipPendingDefault: bool,
                   hasAttachments: bool, accountExists: bool, movedToAnotherUser: bool,
                   batchReference: Option<string>): (p: Prepared)
    ensures p.Ready? ==> p.record == proposed.(amount := p.record.amount, batchReference := p.record.batchReference,
                                               quickReceipt := p.record.quickReceipt, pending := p.record.pending)
  {
    match SetTrxType(proposed.quickReceipt, trxType, proposed.amount)
    case None => Raises
    case Some(ty) =>
      var amount := ConvertAmount(proposed.amount, ty, isNew, amountWas, proposed.quickReceipt);
      var reference := if proposed.batch.Some? && proposed.batchReference.None? then batchReference else proposed.batchReference;
      var c := Checked(ty, proposed.description, amount, proposed.memo, proposed.pending, proposed.quickReceipt,
                       hasAttachments, isNew, accountExists, movedToAnotherUser, false);
      match Errors(c)
      case None => Raises
      case Some(errors) =>
        if !Clean(c) then Rejected(errors)
        else
          var quick := proposed.quickReceipt && !(!Blank(proposed.description) && Present(amount));
          var pending := SetPending(proposed.pending, skipPendingDefault, isNew);
          Ready(proposed.(amount := amount, batchReference := reference, quickReceipt := quick, pending := pending))
  }

  /**
   * A record that comes through does so only for an existing account; text that
   * is not a number stays as it is; an unpending record holds a number and a
   * description of at most 150 characters; a new one comes through pending
   * unless that is skipped.
   */
  lemma PreparedRecord(proposed: Trx, trxType: string, isNew: bool, amountWas: Amount, skipPendingDefault: bool,
                       hasAttachments: bool, accountExists: bool, movedToAnotherUser: bool,
                       batchReference: Option<string>)
    ensures var p := Prepare(proposed, trxType, isNew, amountWas, skipPendingDefault, hasAttachments, accountExists,
                             movedToAnotherUser, batchReference);
            (p.Ready? ==> accountExists)
            && (p.Ready? ==> NumericValue(proposed.amount).None? ==> p.record.amount == proposed.amount)
            && (p.Ready? && !p.record.pending ==>
                  p.record.amount.Number? && !Blank(p.record.description) && |p.record.description| <= 150)
            && (p.Ready? && isNew && !skipPendingDefault ==> p.record.pending)
  {
    var p := Prepare(proposed, trxType, isNew, amountWas, skipPendingDefault, hasAttachments, accountExists,
                     movedToAnotherUser, batchReference);
    if p.Ready? {
      var c := ReadyChecked(proposed, trxType, isNew, amountWas, skipPendingDefault, hasAttachments, accountExists,
                            movedToAnotherUser, batchReference);
      ReviewedAmountIsNumber(c);
    }
  }

  /** The record a successful preparation validated, and how the stored record relates to it. */
  lemma ReadyChecked(proposed: Trx, trxType: string, isNew: bool, amountWas: Amount, skipPendingDefault: bool,
                     hasAttachments: bool, accountExists: bool, movedToAnotherUser: bool,
                     batchReference: Option<string>) returns (c: Checked)
    requires Prepare(proposed, trxType, isNew, amountWas, skipPendingDefault, hasAttachments, accountExists,
                     movedToAnotherUser, batchReference).Ready?
    ensures var r := Prepare(proposed, trxType, isNew, amountWas, skipPendingDefault, hasAttachments, accountExists,
                             movedToAnotherUser, batchReference).record;
            && Passes(c) && c.accountExists == accountExists
            && c.amount == r.amount && c.description == r.description
            && (c.amount.Written? ==> NumericValue(c.amount).None?)
            && (NumericValue(proposed.amount).None? ==> r.amount == proposed.amount)
            && (!r.pending ==> !c.pending)
            && (isNew && !skipPendingDefault ==> r.pending)
  {
    var ty := SetTrxType(proposed.quickReceipt, trxType, proposed.amount);
    var amount := ConvertAmount(proposed.amount, ty.value, isNew, amountWas, proposed.quickReceipt);
    c := Checked(ty.value, proposed.description, amount, proposed.memo, proposed.pending, proposed.quickReceipt,
                 hasAttachments, isNew, accountExists, movedToAnotherUser, false);
    CleanIff(c);
  }

  lemma ReviewedAmountIsNumber(c: Checked)
    requires Passes(c)
    requires c.amount.Written? ==> NumericValue(c.amount).None?
    ensures !c.pending ==> c.amount.Number? && !Blank(c.description) && |c.description| <= 150
  {
    if !c.pending {
      ReviewedRecordShape(c);
    }
  }

  /** Moves are applied to existing accounts only; nothing else about an account changes. */
  function ApplyMoves(accounts: map<AccountId, Account>, moves: seq<Move>): (r: map<AccountId, Account>)
    ensures r.Keys == accounts.Keys
    ensures forall a :: a in accounts ==> r[a] == accounts[a].(balance := accounts[a].balance + Net(moves, a))
    decreases |moves|
  {
    if moves == [] then accounts
    else
      var prev := ApplyMoves(accounts, moves[..|moves| - 1]);
      var m := moves[|moves| - 1];
      if m.account in prev then prev[m.account := prev[m.account].(balance := prev[m.account].balance + m.delta)]
      else prev
  }

  /** `update_account_balance_create`: a number is added to the record's account. */
  function CreateMoves(t: Trx): seq<Move> {
    if t.amount.Number? then [Move(t.account, t.amount.cents)] else []
  }

  /** `update_account_balance_destroy`: a number is taken off the record's account. */
  function DestroyMoves(t: Trx): seq<Move> {
    if t.amount.Number? then [Move(t.account, -t.amount.cents)] else []
  }

  lemma CreateMovesShare(t: Trx, a: AccountId)
    ensures Net(CreateMoves(t), a) == Share(t.account, t.amount, a)
    ensures Net(DestroyMoves(t), a) == -Share(t.account, t.amount, a)
  {
    NetSmall(Move(t.account, 0), Move(t.account, 0), a);
    if t.amount.Number? {
      NetSmall(Move(t.account, t.amount.cents), Move(t.account, 0), a);
      NetSmall(Move(t.account, -t.amount.cents), Move(t.account, 0), a);
    }
  }

  /** Creating a record and destroying it again leaves every balance as it was. */
  lemma CreateThenDestroyRestores(accounts: map<AccountId, Account>, t: Trx)
    ensures ApplyMoves(ApplyMoves(accounts, CreateMoves(t)), DestroyMoves(t)) == accounts
  {
    var r := ApplyMoves(ApplyMoves(accounts, CreateMoves(t)), DestroyMoves(t));
    forall a | a in accounts
      ensures r[a] == accounts[a]
    {
      CreateMovesShare(t, a);
    }
  }

  /** The counterpart after `update_counterpart_transaction`: date, amount, description and memo follow the record. */
  function SyncedCounterpart(cp: Trx, t: Trx, was: Trx, accountName: string): (r: Trx)
    requires t.amount != was.amount ==> t.amount.Number?
    ensures r.account == cp.account && r.counterpart == cp.counterpart
    ensures t.amount != was.amount ==> r.amount == Number(CounterpartAmount(t.amount.cents))
    ensures t.amount == was.amount ==> r.amount == cp.amount
  {
    var description := if t.description != was.description then CounterpartDescription(t.description, accountName) else None;
    cp.(date := if t.date != was.date then t.date else cp.date,
        amount := if t.amount != was.amount then Number(CounterpartAmount(t.amount.cents)) else cp.amount,
        description := description.GetOr(cp.description),
        memo := if t.memo != was.memo then t.memo else cp.memo)
  }

  /** The partner's balance moves by new − old, but only when its old amount was present. */
  function CounterpartMoves(cp: Trx, synced: Trx, amountChanged: bool): seq<Move> {
    if amountChanged && Present(cp.amount) && cp.amount.Number? && synced.amount.Number?
    then [Move(cp.account, synced.amount.cents - cp.amount.cents)]
    else []
  }

  /** The linked stash entry after the same callback: the date follows, the amount keeps the entry's sign. */
  function SyncedEntry(entry: StashEntry, t: Trx, was: Trx): (r: StashEntry)
    requires t.amount != was.amount ==> t.amount.Number?
    ensures r.stash == entry.stash
    ensures t.amount != was.amount ==> r.amount == StashEntryAmount(entry.amount, t.amount.cents)
    ensures t.amount == was.amount ==> r.amount == entry.amount
  {
    entry.(date := if t.date != was.date then t.date else entry.date,
           amount := if t.amount != was.amount then StashEntryAmount(entry.amount, t.amount.cents) else entry.amount)
  }

  /** `dependent: :nullify`: records that named `id` as their counterpart lose the link. */
  function Unlinked(trxs: map<TrxId, Trx>, id: TrxId): (r: map<TrxId, Trx>)
    ensures r.Keys == trxs.Keys
    ensures forall k :: k in trxs ==> r[k] == (if trxs[k].counterpart == Some(id) then trxs[k].(counterpart := None) else trxs[k])
  {
    map k | k in trxs :: if trxs[k].counterpart == Some(id) then trxs[k].(counterpart := None) else trxs[k]
  }

  /** Two records linked to each other as counterparts. */
  function Paired(trxs: map<TrxId, Trx>, x: TrxId, y: TrxId): (r: map<TrxId, Trx>)
    requires x in trxs && y in trxs
    ensures r.Keys == trxs.Keys
    ensures x != y ==> r[x] == trxs[x].(counterpart := Some(y)) && r[y] == trxs[y].(counterpart := Some(x))
    ensures forall k :: k in trxs && k != x && k != y ==> r[k] == trxs[k]
  {
    trxs[x := trxs[x].(counterpart := Some(y))][y := trxs[y].(counterpart := Some(x))]
  }

  /** Linking two distinct records changes no share, so the references and the balances still hold. */
  lemma PairedKeepsInvariants(accounts: map<AccountId, Account>, trxs: map<TrxId, Trx>, opening: map<AccountId, int>,
                              n: nat, stashes: map<StashId, Stash>, entries: map<TrxId, StashEntry>, x: TrxId, y: TrxId)
    requires Linked(accounts, trxs, n, stashes, entries) && Balanced(accounts, trxs, opening, n)
    requires x in trxs && y in trxs && x != y
    ensures Linked(accounts, Paired(trxs, x, y), n, stashes, entries)
    ensures Balanced(accounts, Paired(trxs, x, y), opening, n)
  {
    var r := Paired(trxs, x, y);
    forall a | a in accounts
      ensures accounts[a].balance == opening[a] + Booked(r, a, n)
    {
      BookedSameShares(trxs, r, a, n);
    }
  }

  /** What record `id` contributes to the balance of account `a`. */
  function ShareOf(trxs: map<TrxId, Trx>, id: TrxId, a: AccountId): int {
    if id in trxs then Share(trxs[id].account, trxs[id].amount, a) else 0
  }

  /** The total booked to account `a` by records with ids below `n`. */
  function Booked(trxs: map<TrxId, Trx>, a: AccountId, n: nat): int
    decreases n
  {
    if n == 0 then 0 else Booked(trxs, a, n - 1) + ShareOf(trxs, n - 1, a)
  }

  lemma {:induction false} BookedSameShares(m1: map<TrxId, Trx>, m2: map<TrxId, Trx>, a: AccountId, n: nat)
    requires forall k :: 0 <= k < n ==> ShareOf(m1, k, a) == ShareOf(m2, k, a)
    ensures Booked(m1, a, n) == Booked(m2, a, n)
  {
    if n > 0 {
      BookedSameShares(m1, m2, a, n - 1);
    }
  }

  /** Changing one record changes the total by the change in its share alone. */
  lemma {:induction false} BookedChangeOne(m1: map<TrxId, Trx>, m2: map<TrxId, Trx>, k: TrxId, a: AccountId, n: nat)
    requires k < n
    requires forall j :: 0 <= j < n && j != k ==> ShareOf(m1, j, a) == ShareOf(m2, j, a)
    ensures Booked(m2, a, n) == Booked(m1, a, n) - ShareOf(m1, k, a) + ShareOf(m2, k, a)
  {
    if k < n - 1 {
      BookedChangeOne(m1, m2, k, a, n - 1);
    } else {
      BookedSameShares(m1, m2, a, n - 1);
    }
  }

  /** Records at or past `n` do not count towards `Booked(_, _, n)`. */
  lemma {:induction false} BookedIgnoresLater(m1: map<TrxId, Trx>, m2: map<TrxId, Trx>, a: AccountId, n: nat)
    requires forall k :: 0 <= k < n ==> (k in m1 <==> k in m2) && (k in m1 ==> m1[k] == m2[k])
    ensures Booked(m1, a, n) == Booked(m2, a, n)
  {
    forall k | 0 <= k < n
      ensures ShareOf(m1, k, a) == ShareOf(m2, k, a)
    {
    }
    BookedSameShares(m1, m2, a, n);
  }

  /**
   * Ids are below `n`; every record, stash and stash entry refers to something
   * that exists; no record is its own counterpart.
   */
  ghost predicate Linked(accounts: map<AccountId, Account>, trxs: map<TrxId, Trx>, n: nat,
                         stashes: map<StashId, Stash>, entries: map<TrxId, StashEntry>) {
    (forall id :: id in trxs ==> id < n && trxs[id].account in accounts && trxs[id].counterpart != Some(id))
    && (forall s :: s in stashes ==> stashes[s].account in accounts)
    && (forall id :: id in entries ==> entries[id].stash in stashes)
  }

  /** Every account's balance is its opening balance plus what the records below `n` book to it. */
  ghost predicate Balanced(accounts: map<AccountId, Account>, trxs: map<TrxId, Trx>, opening: map<AccountId, int>, n: nat) {
    forall a :: a in accounts ==> a in opening && accounts[a].balance == opening[a] + Booked(trxs, a, n)
  }

  /** Replacing one record and moving exactly the change in its share keeps the balances right. */
  lemma PointChangeKeepsBalances(accounts: map<AccountId, Account>, trxs: map<TrxId, Trx>, opening: map<AccountId, int>,
                                 n: nat, k: TrxId, t: Trx, moves: seq<Move>)
    requires Balanced(accounts, trxs, opening, n) && k < n
    requires forall a :: Net(moves, a) == Share(t.account, t.amount, a) - ShareOf(trxs, k, a)
    ensures Balanced(ApplyMoves(accounts, moves), trxs[k := t], opening, n)
  {
    var after := ApplyMoves(accounts, moves);
    forall a | a in after
      ensures a in opening && after[a].balance == opening[a] + Booked(trxs[k := t], a, n)
    {
      BookedChangeOne(trxs, trxs[k := t], k, a, n);
    }
  }

  /** A new record stored under the next id, with its number added to its account, keeps the balances right. */
  lemma AppendKeepsBalances(accounts: map<AccountId, Account>, trxs: map<TrxId, Trx>, opening: map<AccountId, int>,
                            n: nat, t: Trx)
    requires Balanced(accounts, trxs, opening, n)
    ensures Balanced(ApplyMoves(accounts, CreateMoves(t)), trxs[n := t], opening, n + 1)
  {
    var after := ApplyMoves(accounts, CreateMoves(t));
    forall a | a in after
      ensures a in opening && after[a].balance == opening[a] + Booked(trxs[n := t], a, n + 1)
    {
      CreateMovesShare(t, a);
      BookedIgnoresLater(trxs, trxs[n := t], a, n);
    }
  }

  /** Removing a record, taking its number off its account and unlinking its partners keeps the balances right. */
  lemma RemoveKeepsBalances(accounts: map<AccountId, Account>, trxs: map<TrxId, Trx>, opening: map<AccountId, int>,
                            n: nat, id: TrxId)
    requires Balanced(accounts, trxs, opening, n) && id in trxs && id < n
    ensures Balanced(ApplyMoves(accounts, DestroyMoves(trxs[id])), Unlinked(trxs, id) - {id}, opening, n)
  {
    var after := ApplyMoves(accounts, DestroyMoves(trxs[id]));
    var rest := Unlinked(trxs, id) - {id};
    forall a | a in after
      ensures a in opening && after[a].balance == opening[a] + Booked(rest, a, n)
    {
      CreateMovesShare(trxs[id], a);
      BookedChangeOne(trxs, rest, id, a, n);
    }
  }

  lemma CounterpartMovesMatchShares(cp: Trx, synced: Trx, amountChanged: bool, a: AccountId)
    requires synced.account == cp.account
    requires !amountChanged ==> synced.amount == cp.amount
    requires amountChanged ==> cp.amount.Number? && synced.amount.Number?
    ensures Net(CounterpartMoves(cp, synced, amountChanged), a) == Share(synced.account, synced.amount, a) - Share(cp.account, cp.amount, a)
  {
    var m := CounterpartMoves(cp, synced, amountChanged);
    NetSmall(Move(a, 0), Move(a, 0), a);
    if m != [] {
      NetSmall(m[0], m[0], a);
    }
  }

  /** The after-save callbacks of a transfer mirror the change only while the lock stays as it was. */
  predicate Syncs(t: Trx, was: Trx) {
    t.transfer && t.locked == was.locked
  }

  /**
   * No after-save callback of writing `t` over record `id` raises: where the
   * amount changed and the counterpart or the stash entry must follow, the new
   * amount is a number, and so is the counterpart's present amount.
   */
  predicate CallbacksRun(trxs: map<TrxId, Trx>, entries: map<TrxId, StashEntry>, id: TrxId, t: Trx)
    requires id in trxs
  {
    var was := trxs[id];
    var cpLive := Syncs(t, was) && t.counterpart.Some? && t.counterpart.value in trxs;
    (t.amount != was.amount && (cpLive || (Syncs(t, was) && id in entries)) ==> t.amount.Number?)
    && (t.amount != was.amount && cpLive && Present(trxs[t.counterpart.value].amount)
        ==> trxs[t.counterpart.value].amount.Number?)
  }

  /** The four tables a save writes: balances, records, stash balances and stash entries. */
  datatype Tables = Tables(accounts: map<AccountId, Account>, trxs: map<TrxId, Trx>,
                           stashes: map<StashId, Stash>, entries: map<TrxId, StashEntry>)

  /** The counterpart `update_counterpart_transaction` updates: the record's partner, when it still exists. */
  predicate PartnerLive(trxs: map<TrxId, Trx>, t: Trx, was: Trx) {
    Syncs(t, was) && t.counterpart.Some? && t.counterpart.value in trxs
  }

  /**
   * The counterpart half of `update_counterpart_transaction`: `update_columns`
   * on the partner, then its balance moves by the change. Only the partner's
   * row and its account's balance change; the partner keeps its account and its
   * own link.
   */
  function SyncPartner(r: Tables, t: Trx, was: Trx): Tables
    requires t.account in r.accounts
    requires PartnerLive(r.trxs, t, was) && t.amount != was.amount ==> t.amount.Number?
  {
    if PartnerLive(r.trxs, t, was) then
      var c := t.counterpart.value;
      var synced := SyncedCounterpart(r.trxs[c], t, was, r.accounts[t.account].name);
      r.(accounts := ApplyMoves(r.accounts, CounterpartMoves(r.trxs[c], synced, t.amount != was.amount)),
         trxs := r.trxs[c := synced])
    else
      r
  }

  /**
   * `stash.update(balance: b)`: the stash `sid` with balance `b` passes its
   * validations, so the update is saved; otherwise `update` returns false and
   * the stash keeps its old balance.
   */
  predicate StashAccepts(stashes: map<StashId, Stash>, sid: StashId, b: int)
    requires sid in stashes
  {
    StashErrors(stashes[sid].(balance := b), TakenNames(stashes, sid, stashes[sid].account)) == {}
  }

  /**
   * The stash half of `update_counterpart_transaction`: the linked entry
   * follows through `update_columns`, which skips validation, and its stash's
   * balance moves by new − old when `stash.update` accepts that balance.
   * Records and account balances are untouched; entries keep their stash and
   * stashes their account.
   */
  function SyncEntry(r: Tables, id: TrxId, t: Trx, was: Trx): Tables
    requires Syncs(t, was) && id in r.entries && t.amount != was.amount ==> t.amount.Number?
  {
    if Syncs(t, was) && id in r.entries then
      var entry := r.entries[id];
      var synced := SyncedEntry(entry, t, was);
      var stashes := if t.amount != was.amount && entry.stash in r.stashes
                        && StashAccepts(r.stashes, entry.stash, r.stashes[entry.stash].balance - entry.amount + synced.amount)
                     then r.stashes[entry.stash := r.stashes[entry.stash].(balance := r.stashes[entry.stash].balance - entry.amount + synced.amount)]
                     else r.stashes;
      r.(entries := r.entries[id := synced], stashes := stashes)
    else
      r
  }

  /** The partner's sync touches only the partner's row and its account's balance; the partner keeps its account and link. */
  lemma SyncPartnerShape(r: Tables, t: Trx, was: Trx)
    requires t.account in r.accounts
    requires PartnerLive(r.trxs, t, was) && t.amount != was.amount ==> t.amount.Number?
    ensures var r' := SyncPartner(r, t, was);
            r'.accounts.Keys == r.accounts.Keys && r'.trxs.Keys == r.trxs.Keys
            && r'.stashes == r.stashes && r'.entries == r.entries
            && (forall k :: k in r.trxs ==> r'.trxs[k].account == r.trxs[k].account && r'.trxs[k].counterpart == r.trxs[k].counterpart)
            && (forall k :: k in r.trxs && t.counterpart != Some(k) ==> r'.trxs[k] == r.trxs[k])
  {
  }

  /** The entry's sync leaves records and balances alone; entries keep their stash and stashes their account. */
  lemma SyncEntryShape(r: Tables, id: TrxId, t: Trx, was: Trx)
    requires Syncs(t, was) && id in r.entries && t.amount != was.amount ==> t.amount.Number?
    ensures var r' := SyncEntry(r, id, t, was);
            r'.accounts == r.accounts && r'.trxs == r.trxs
            && r'.stashes.Keys == r.stashes.Keys && r'.entries.Keys == r.entries.Keys
            && (forall s :: s in r.stashes ==> r'.stashes[s].account == r.stashes[s].account)
            && (forall k :: k in r.entries ==> r'.entries[k].stash == r.entries[k].stash)
  {
  }

  /**
   * The entry's sync never leaves a stash the validations reject: when every
   * stash was valid before, every stash is valid after, so no stash goes below
   * zero or above its goal.
   */
  lemma SyncEntryKeepsStashesValid(r: Tables, id: TrxId, t: Trx, was: Trx)
    requires Syncs(t, was) && id in r.entries && t.amount != was.amount ==> t.amount.Number?
    requires StashesValid(r.stashes)
    ensures StashesValid(SyncEntry(r, id, t, was).stashes)
    ensures forall s :: s in SyncEntry(r, id, t, was).stashes ==> 0 <= SyncEntry(r, id, t, was).stashes[s].balance
  {
    var after := SyncEntry(r, id, t, was).stashes;
    if after != r.stashes {
      var sid := r.entries[id].stash;
      assert sid in r.stashes && after == r.stashes[sid := after[sid]];
      forall s | s in after
        ensures TakenNames(after, s, after[s].account) == TakenNames(r.stashes, s, r.stashes[s].account)
      {
        assert after[s].account == r.stashes[s].account;
        forall x | x in after ensures after[x].name == r.stashes[x].name && after[x].account == r.stashes[x].account { }
      }
    }
  }

  /**
   * The tables after record `id` is saved as `t`, step by step as the callbacks
   * run: the row is written and its account moves by `SaveMoves`
   * (`update_account_balance_edit`, and `update_account_balance_transfer`
   * corrected), then the counterpart, read after the write, and the stash entry
   * follow the record.
   */
  function CommitTables(r: Tables, id: TrxId, t: Trx): Tables
    requires id in r.trxs && t.account in r.accounts && CallbacksRun(r.trxs, r.entries, id, t)
  {
    var was := r.trxs[id];
    var saved := r.(trxs := r.trxs[id := t],
                    accounts := ApplyMoves(r.accounts, SaveMoves(was.account, was.amount, t.account, t.amount)));
    SyncEntry(SyncPartner(saved, t, was), id, t, was)
  }

  /**
   * The state after record `id` is saved as `t`: its account moves by
   * `SaveMoves`; a live counterpart takes the synced date, amount, description
   * and memo and its account moves by the change; a linked stash entry follows
   * and its stash's balance moves by the change; nothing else changes.
   */
  ghost predicate Committed(accounts: map<AccountId, Account>, trxs: map<TrxId, Trx>,
                            stashes: map<StashId, Stash>, entries: map<TrxId, StashEntry>, id: TrxId, t: Trx,
                            accounts': map<AccountId, Account>, trxs': map<TrxId, Trx>,
                            stashes': map<StashId, Stash>, entries': map<TrxId, StashEntry>)
    requires id in trxs && t.account in accounts && CallbacksRun(trxs, entries, id, t)
  {
    Tables(accounts', trxs', stashes', entries') == CommitTables(Tables(accounts, trxs, stashes, entries), id, t)
  }

  /** What a commit leaves alone: the keys, every other record's account and links, stash owners and entry stashes. */
  lemma CommittedShape(accounts: map<AccountId, Account>, trxs: map<TrxId, Trx>,
                       stashes: map<StashId, Stash>, entries: map<TrxId, StashEntry>, id: TrxId, t: Trx,
                       accounts': map<AccountId, Account>, trxs': map<TrxId, Trx>,
                       stashes': map<StashId, Stash>, entries': map<TrxId, StashEntry>)
    requires id in trxs && t.account in accounts && trxs[id].counterpart != Some(id) && CallbacksRun(trxs, entries, id, t)
    requires Committed(accounts, trxs, stashes, entries, id, t, accounts', trxs', stashes', entries')
    ensures accounts'.Keys == accounts.Keys && trxs'.Keys == trxs.Keys
    ensures stashes'.Keys == stashes.Keys && entries'.Keys == entries.Keys
    ensures t.counterpart == trxs[id].counterpart ==> trxs'[id] == t
    ensures forall k :: k in trxs' && k != id ==> trxs'[k].account == trxs[k].account && trxs'[k].counterpart == trxs[k].counterpart
    ensures forall s :: s in stashes' ==> stashes'[s].account == stashes[s].account
    ensures forall k :: k in entries' ==> entries'[k].stash == entries[k].stash
  {
    var was := trxs[id];
    var saved := Tables(ApplyMoves(accounts, SaveMoves(was.account, was.amount, t.account, t.amount)), trxs[id := t], stashes, entries);
    var partner := SyncPartner(saved, t, was);
    SyncPartnerShape(saved, t, was);
    SyncEntryShape(partner, id, t, was);
    assert Tables(accounts', trxs', stashes', entries') == SyncEntry(partner, id, t, was);
  }

  /**
   * Every amount change a save stores is one the balance callbacks follow: the
   * record's own change keeps its kind, and any other record whose amount
   * changed (the counterpart) held a number before.
   */
  ghost predicate Followable(trxs: map<TrxId, Trx>, trxs': map<TrxId, Trx>, id: TrxId, t: Trx)
    requires id in trxs
  {
    BalanceTracked(trxs[id].amount, t.amount)
    && forall k :: k in trxs && k in trxs' && k != id && trxs[k].amount != trxs'[k].amount ==> trxs[k].amount.Number?
  }

  /** Committing an edit keeps every reference intact. */
  lemma CommitKeepsLinked(accounts: map<AccountId, Account>, trxs: map<TrxId, Trx>,
                          stashes: map<StashId, Stash>, entries: map<TrxId, StashEntry>, n: nat, id: TrxId, t: Trx,
                          accounts': map<AccountId, Account>, trxs': map<TrxId, Trx>,
                          stashes': map<StashId, Stash>, entries': map<TrxId, StashEntry>)
    requires Linked(accounts, trxs, n, stashes, entries)
    requires id in trxs && t.account in accounts && t.counterpart == trxs[id].counterpart && CallbacksRun(trxs, entries, id, t)
    requires Committed(accounts, trxs, stashes, entries, id, t, accounts', trxs', stashes', entries')
    ensures accounts'.Keys == accounts.Keys && trxs'.Keys == trxs.Keys && trxs'[id] == t
    ensures Linked(accounts', trxs', n, stashes', entries')
  {
    CommittedShape(accounts, trxs, stashes, entries, id, t, accounts', trxs', stashes', entries');
  }

  /**
   * Committing an edit keeps every balance equal to the records when every
   * stored amount change is one the callbacks can follow.
   */
  lemma CommitKeepsBalances(accounts: map<AccountId, Account>, trxs: map<TrxId, Trx>,
                            stashes: map<StashId, Stash>, entries: map<TrxId, StashEntry>,
                            opening: map<AccountId, int>, n: nat, id: TrxId, t: Trx,
                            accounts': map<AccountId, Account>, trxs': map<TrxId, Trx>,
                            stashes': map<StashId, Stash>, entries': map<TrxId, StashEntry>)
    requires Balanced(accounts, trxs, opening, n) && forall k :: k in trxs ==> k < n
    requires id in trxs && t.account in accounts && trxs[id].counterpart != Some(id) && t.counterpart == trxs[id].counterpart
    requires CallbacksRun(trxs, entries, id, t)
    requires Committed(accounts, trxs, stashes, entries, id, t, accounts', trxs', stashes', entries')
    requires Followable(trxs, trxs', id, t)
    ensures Balanced(accounts', trxs', opening, n)
  {
    var was := trxs[id];
    var saveMoves := SaveMoves(was.account, was.amount, t.account, t.amount);
    forall a | true
      ensures Net(saveMoves, a) == Share(t.account, t.amount, a) - ShareOf(trxs, id, a)
    {
      SaveMovesMatchShares(was.account, was.amount, t.account, t.amount, a);
    }
    PointChangeKeepsBalances(accounts, trxs, opening, n, id, t, saveMoves);
    var saved := Tables(ApplyMoves(accounts, saveMoves), trxs[id := t], stashes, entries);
    var partner := SyncPartner(saved, t, was);
    SyncEntryShape(partner, id, t, was);
    assert accounts' == partner.accounts && trxs' == partner.trxs;
    if PartnerLive(saved.trxs, t, was) {
      var c := t.counterpart.value;
      var cp := trxs[c];
      assert saved.trxs[c] == cp;
      var synced := SyncedCounterpart(cp, t, was, saved.accounts[t.account].name);
      var changed := t.amount != was.amount;
      var cpMoves := CounterpartMoves(cp, synced, changed);
      assert trxs' == trxs[id := t][c := synced];
      assert changed ==> cp.amount.Number? by {
        if changed && cp.amount != synced.amount {
          assert trxs'[c] == synced;
        }
      }
      forall a | true
        ensures Net(cpMoves, a) == Share(synced.account, synced.amount, a) - ShareOf(trxs[id := t], c, a)
      {
        CounterpartMovesMatchShares(cp, synced, changed, a);
      }
      PointChangeKeepsBalances(ApplyMoves(accounts, saveMoves), trxs[id := t], opening, n, c, synced, cpMoves);
    }
  }

  /** Committing keeps the references intact, and the balances too when every stored amount change can be followed. */
  lemma CommitKeepsValid(accounts: map<AccountId, Account>, trxs: map<TrxId, Trx>,
                         stashes: map<StashId, Stash>, entries: map<TrxId, StashEntry>,
                         opening: map<AccountId, int>, n: nat, id: TrxId, t: Trx,
                         accounts': map<AccountId, Account>, trxs': map<TrxId, Trx>,
                         stashes': map<StashId, Stash>, entries': map<TrxId, StashEntry>)
    requires Consistent(Tables(accounts, trxs, stashes, entries), opening, n)
    requires id in trxs && t.account in accounts && t.counterpart == trxs[id].counterpart && CallbacksRun(trxs, entries, id, t)
    requires Committed(accounts, trxs, stashes, entries, id, t, accounts', trxs', stashes', entries')
    ensures trxs'.Keys == trxs.Keys && trxs'[id] == t
    ensures Followable(trxs, trxs', id, t) ==> Consistent(Tables(accounts', trxs', stashes', entries'), opening, n)
  {
    CommitKeepsLinked(accounts, trxs, stashes, entries, n, id, t, accounts', trxs', stashes', entries');
    if Followable(trxs, trxs', id, t) {
      CommitKeepsBalances(accounts, trxs, stashes, entries, opening, n, id, t, accounts', trxs', stashes', entries');
    }
  }

  ghost predicate Consistent(r: Tables, opening: map<AccountId, int>, n: nat) {
    opening.Keys == r.accounts.Keys && Linked(r.accounts, r.trxs, n, r.stashes, r.entries) && Balanced(r.accounts, r.trxs, opening, n)
  }

  /** Storing a new record with no counterpart under the next id, its number added to its account, keeps the tables consistent. */
  lemma AppendKeepsConsistent(r: Tables, opening: map<AccountId, int>, n: nat, t: Trx)
    requires Consistent(r, opening, n) && t.account in r.accounts && t.counterpart.None?
    ensures Consistent(Tables(ApplyMoves(r.accounts, CreateMoves(t)), r.trxs[n := t], r.stashes, r.entries), opening, n + 1)
  {
    AppendKeepsBalances(r.accounts, r.trxs, opening, n, t);
  }

  /** Removing a record, taking its number off its account and unlinking its partners keeps the tables consistent. */
  lemma RemoveKeepsConsistent(r: Tables, opening: map<AccountId, int>, n: nat, id: TrxId)
    requires Consistent(r, opening, n) && id in r.trxs
    ensures Consistent(Tables(ApplyMoves(r.accounts, DestroyMoves(r.trxs[id])), Unlinked(r.trxs, id) - {id}, r.stashes, r.entries),
                       opening, n)
  {
    RemoveKeepsBalances(r.accounts, r.trxs, opening, n, id);
  }

  class Books {
    var accounts: map<AccountId, Account>
    var trxs: map<TrxId, Trx>
    var nextId: nat
    var stashes: map<StashId, Stash>
    /** The stash entry linked to a transaction, keyed by the transaction's id. */
    var stashEntries: map<TrxId, StashEntry>
    var batches: map<BatchId, Batch>
    /** Each account's balance before any of the recorded transactions. */
    ghost var opening: map<AccountId, int>

    /** The references hold together and every balance is its opening balance plus the numbers booked to the account. */
    ghost predicate Valid()
      reads this
    {
      Consistent(Tables(accounts, trxs, stashes, stashEntries), opening, nextId)
    }

    constructor (initial: map<AccountId, Account>)
      ensures Valid()
      ensures accounts == initial && trxs == map[] && nextId == 0
      ensures stashes == map[] && stashEntries == map[] && batches == map[]
    {
      accounts := initial;
      trxs := map[];
      nextId := 0;
      stashes := map[];
      stashEntries := map[];
      batches := map[];
      opening := map a | a in initial :: initial[a].balance;
    }

    /** The reference of the batch a record names, when that batch exists. */
    function BatchReference(batch: Option<BatchId>): Option<string>
      reads this
    {
      if batch.Some? && batch.value in batches then batches[batch.value].reference else None
    }

    /**
     * `save` of a new record: the record is prepared and validated; when it
     * passes it is stored under the next id and its number is added to its
     * account (`update_account_balance_create`). Otherwise nothing changes.
     */
    method Create(d: Draft, trxType: string, skipPendingDefault: bool, hasAttachments: bool) returns (outcome: SaveOutcome)
      requires Valid()
      modifies this
      ensures Valid() && opening == old(opening)
      ensures var p := Prepare(FromDraft(d), trxType, true, NoAmount, skipPendingDefault, hasAttachments,
                               d.account in old(accounts), false, old(BatchReference(d.batch)));
              match p
              case Ready(t) =>
                outcome == Saved(old(nextId)) && nextId == old(nextId) + 1
                && trxs == old(trxs)[old(nextId) := t]
                && accounts == ApplyMoves(old(accounts), CreateMoves(t))
                && stashes == old(stashes) && stashEntries == old(stashEntries) && batches == old(batches)
              case Rejected(errors) => outcome == Invalid(errors) && unchanged(this)
              case Raises => outcome == Raised && unchanged(this)
    {
      var p := Prepare(FromDraft(d), trxType, true, NoAmount, skipPendingDefault, hasAttachments,
                       d.account in accounts, false, BatchReference(d.batch));
      PreparedRecord(FromDraft(d), trxType, true, NoAmount, skipPendingDefault, hasAttachments,
                     d.account in accounts, false, BatchReference(d.batch));
      if p.Rejected? {
        return Invalid(p.errors);
      } else if p.Raises? {
        return Raised;
      }
      var id := Append(p.record);
      outcome := Saved(id);
    }

    /** The row of a new record is inserted under the next id and `update_account_balance_create` runs. */
    method Append(t: Trx) returns (id: TrxId)
      requires Valid() && t.account in accounts && t.counterpart.None?
      modifies this
      ensures Valid() && opening == old(opening)
      ensures id == old(nextId) && nextId == old(nextId) + 1
      ensures trxs == old(trxs)[id := t] && accounts == ApplyMoves(old(accounts), CreateMoves(t))
      ensures stashes == old(stashes) && stashEntries == old(stashEntries) && batches == old(batches)
    {
      id := nextId;
      AppendKeepsConsistent(Tables(accounts, trxs, stashes, stashEntries), opening, id, t);
      trxs := trxs[id := t];
      nextId := nextId + 1;
      accounts := ApplyMoves(accounts, CreateMoves(t));
    }

    /**
     * `destroy`: records naming this one as counterpart are unlinked, the record
     * is removed and its number taken off its account
     * (`update_account_balance_destroy`).
     */
    method Destroy(id: TrxId)
      requires Valid() && id in trxs
      modifies this
      ensures Valid() && opening == old(opening)
      ensures trxs == Unlinked(old(trxs), id) - {id}
      ensures accounts == ApplyMoves(old(accounts), DestroyMoves(old(trxs)[id]))
      ensures nextId == old(nextId) && stashes == old(stashes) && stashEntries == old(stashEntries)
      ensures batches == old(batches)
    {
      RemoveKeepsConsistent(Tables(accounts, trxs, stashes, stashEntries), opening, nextId, id);
      accounts := ApplyMoves(accounts, DestroyMoves(trxs[id]));
      trxs := Unlinked(trxs, id) - {id};
    }

    /**
     * `save` of an existing record with the permitted attributes assigned: the
     * record is prepared as for a new one (with the old amount for the sign
     * rules), then committed. An edit to an account that does not exist raises
     * in the ownership check, and so does a callback that would compute with a
     * missing or text amount; a raise rolls the save back.
     */
    method Update(id: TrxId, e: Edit, trxType: string, hasAttachments: bool) returns (outcome: SaveOutcome)
      requires Valid() && id in trxs
      modifies this
      ensures !outcome.Saved? ==> unchanged(this)
      ensures outcome.Saved? ==>
                var was := old(trxs)[id];
                var moved := e.account != was.account && e.account in old(accounts)
                             && old(accounts)[e.account].owner != old(accounts)[was.account].owner;
                var p := Prepare(ApplyEdit(was, e), trxType, false, was.amount, false, hasAttachments,
                                 e.account in old(accounts), moved, old(BatchReference(was.batch)));
                outcome.id == id && e.account in old(accounts) && trxs.Keys == old(trxs).Keys && p.Ready? && trxs[id] == p.record
                && CallbacksRun(old(trxs), old(stashEntries), id, p.record)
      ensures outcome.Saved? ==> Committed(old(accounts), old(trxs), old(stashes), old(stashEntries), id, trxs[id],
                                           accounts, trxs, stashes, stashEntries)
      ensures nextId == old(nextId) && batches == old(batches)
      ensures outcome.Saved? && Followable(old(trxs), trxs, id, trxs[id]) ==> Valid()
    {
      var was := trxs[id];
      if e.account != was.account && e.account !in accounts {
        // validate_account_ownership looks the new account up and raises
        return Raised;
      }
      var moved := e.account != was.account && e.account in accounts && accounts[e.account].owner != accounts[was.account].owner;
      var p := Prepare(ApplyEdit(was, e), trxType, false, was.amount, false, hasAttachments,
                       e.account in accounts, moved, BatchReference(was.batch));
      PreparedRecord(ApplyEdit(was, e), trxType, false, was.amount, false, hasAttachments,
                     e.account in accounts, moved, BatchReference(was.batch));
      if p.Rejected? {
        return Invalid(p.errors);
      } else if p.Raises? {
        return Raised;
      }
      var t := p.record;
      if !CallbacksRun(trxs, stashEntries, id, t) {
        return Raised;
      }
      Commit(id, t);
      outcome := Saved(id);
    }

    /**
     * The row is written and the after-save callbacks run: the balance moves
     * (`update_account_balance_edit`, and `update_account_balance_transfer`
     * corrected), then, for a transfer whose lock did not change,
     * `update_counterpart_transaction` makes the counterpart and the stash entry
     * follow the record.
     */
    method Commit(id: TrxId, t: Trx)
      requires Valid() && id in trxs && t.account in accounts
      requires t.counterpart == trxs[id].counterpart
      requires CallbacksRun(trxs, stashEntries, id, t)
      modifies this
      ensures trxs.Keys == old(trxs).Keys && trxs[id] == t
      ensures Committed(old(accounts), old(trxs), old(stashes), old(stashEntries), id, t, accounts, trxs, stashes, stashEntries)
      ensures nextId == old(nextId) && batches == old(batches) && opening == old(opening)
      ensures Followable(old(trxs), trxs, id, t) ==> Valid()
    {
      ghost var accounts0, trxs0, stashes0, entries0 := accounts, trxs, stashes, stashEntries;
      Store(CommitTables(Tables(accounts, trxs, stashes, stashEntries), id, t));
      CommitKeepsValid(accounts0, trxs0, stashes0, entries0, opening, nextId, id, t, accounts, trxs, stashes, stashEntries);
    }

    /** Writes the tables; the id counter, the batches and the opening balances stay. */
    method Store(r: Tables)
      modifies this
      ensures accounts == r.accounts && trxs == r.trxs && stashes == r.stashes && stashEntries == r.entries
      ensures nextId == old(nextId) && batches == old(batches) && opening == old(opening)
    {
      accounts, trxs, stashes, stashEntries := r.accounts, r.trxs, r.stashes, r.entries;
    }

    /** Saves a batch record under `id`; nothing but the batch table changes. */
    method PutBatch(id: BatchId, b: Batch)
      requires Valid()
      modifies this
      ensures Valid() && batches == old(batches)[id := b]
      ensures unchanged(this`accounts, this`trxs, this`nextId, this`stashes, this`stashEntries, this`opening)
    {
      batches := batches[id := b];
    }

    /** Deletes the batch record `id`; nothing but the batch table changes. */
    method RemoveBatch(id: BatchId)
      requires Valid()
      modifies this
      ensures Valid() && batches == old(batches) - {id}
      ensures unchanged(this`accounts, this`trxs, this`nextId, this`stashes, this`stashEntries, this`opening)
    {
      batches := batches - {id};
    }

    /** A database rollback: the accounts, the records and the id counter return to an earlier consistent state. */
    method RollBack(accounts0: map<AccountId, Account>, trxs0: map<TrxId, Trx>, n0: nat)
      requires Consistent(Tables(accounts0, trxs0, stashes, stashEntries), opening, n0)
      modifies this
      ensures Valid() && accounts == accounts0 && trxs == trxs0 && nextId == n0
      ensures stashes == old(stashes) && stashEntries == old(stashEntries)
      ensures batches == old(batches) && opening == old(opening)
    {
      accounts, trxs, nextId := accounts0, trxs0, n0;
    }

    /** `update_column(:counterpart_transaction_id, …)` on two records: no callbacks, no balance change. */
    method LinkCounterparts(x: TrxId, y: TrxId)
      requires Valid() && x in trxs && y in trxs && x != y
      modifies this
      ensures Valid() && opening == old(opening)
      ensures trxs == Paired(old(trxs), x, y)
      ensures accounts == old(accounts) && nextId == old(nextId) && stashes == old(stashes)
      ensures stashEntries == old(stashEntries) && batches == old(batches)
    {
      PairedKeepsInvariants(accounts, trxs, opening, nextId, stashes, stashEntries, x, y);
      trxs := Paired(trxs, x, y);
    }
  }
}
