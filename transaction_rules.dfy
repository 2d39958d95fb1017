/**
 * The value-level rules of a transaction record: how an assigned amount is
 * converted and signed, how the debit/credit type is inferred, which validation
 * errors a record collects, and which balance moves the after-save callbacks
 * make. The ledger applies these rules to its tables.
 */
module TransactionRules {
  import opened Wrappers
  import opened Text

  type AccountId = int
  type TrxId = nat
  type UserId = int

  /**
   * An amount as the record holds it: nil, a number of cents, or text that was
   * assigned and not (yet) converted to a number.
   */
  datatype Amount = NoAmount | Number(cents: int) | Written(text: string)

  function Abs(x: int): (r: int)
    ensures r >= 0 && (r == x || r == -x)
  {
    if x < 0 then -x else x
  }

  /** `amount.present?`. */
  predicate Present(amount: Amount) {
    match amount
    case NoAmount => false
    case Number(_) => true
    case Written(s) => !Blank(s)
  }

  /** The number `convert_amount` reads: a number as it is, text only when it is a plain decimal. */
  function NumericValue(amount: Amount): Option<int> {
    match amount
    case NoAmount => None
    case Number(c) => Some(c)
    case Written(s) => DecimalCents(Strip(s))
  }

  /**
   * The sign `convert_amount` settles on (true for negative): the type when one
   * is given, otherwise the sign the saved amount had, otherwise negative only
   * for a new quick receipt. A saved amount that is text would raise in Ruby
   * (`amount_was < 0` on a string); here it falls through to the quick-receipt
   * rule. No input that has passed `SetTrxType` reaches that case with a
   * number to convert: a present amount leaves the type non-blank there.
   */
  predicate GoesNegative(trxType: string, isNew: bool, amountWas: Amount, quickReceipt: bool) {
    if !Blank(trxType) then trxType == "debit"
    else if !isNew && Present(amountWas) && amountWas.Number? then amountWas.cents < 0
    else quickReceipt
  }

  /**
   * `convert_amount`: nil and text that is not a plain decimal are left as they
   * are; otherwise the amount keeps its magnitude and takes the sign chosen by
   * `GoesNegative`.
   */
  function ConvertAmount(amount: Amount, trxType: string, isNew: bool, amountWas: Amount, quickReceipt: bool): (r: Amount)
    ensures NumericValue(amount).None? ==> r == amount
    ensures NumericValue(amount).Some? ==> r.Number? && Abs(r.cents) == Abs(NumericValue(amount).value)
    ensures NumericValue(amount).Some? ==>
              if GoesNegative(trxType, isNew, amountWas, quickReceipt) then r.cents <= 0 else r.cents >= 0
  {
    match NumericValue(amount)
    case None => amount
    case Some(v) => Number(if GoesNegative(trxType, isNew, amountWas, quickReceipt) then -Abs(v) else Abs(v))
  }

  /** With a type given, a debit becomes −|x| and any other type |x|. */
  lemma ConvertByType(x: int, trxType: string, isNew: bool, amountWas: Amount, quickReceipt: bool)
    requires !Blank(trxType)
    ensures trxType == "debit" ==> ConvertAmount(Number(x), trxType, isNew, amountWas, quickReceipt) == Number(-Abs(x))
    ensures trxType != "debit" ==> ConvertAmount(Number(x), trxType, isNew, amountWas, quickReceipt) == Number(Abs(x))
  {
  }

  /** Converting an already converted amount again changes nothing. */
  lemma ConvertIdempotent(amount: Amount, trxType: string, isNew: bool, amountWas: Amount, quickReceipt: bool)
    ensures var once := ConvertAmount(amount, trxType, isNew, amountWas, quickReceipt);
            ConvertAmount(once, trxType, isNew, amountWas, quickReceipt) == once
  {
    var once := ConvertAmount(amount, trxType, isNew, amountWas, quickReceipt);
    if NumericValue(amount).Some? {
      assert NumericValue(once) == Some(once.cents);
    }
  }

  /**
   * `set_trx_type_for_existing_records`: a blank type becomes "debit" for a quick
   * receipt, and otherwise follows the sign of a present amount. Comparing a text
   * amount with zero raises, which `None` stands for.
   */
  function SetTrxType(quickReceipt: bool, trxType: string, amount: Amount): (r: Option<string>)
    ensures r.None? <==> Blank(trxType) && !quickReceipt && Present(amount) && !amount.Number?
    ensures r.Some? && !Blank(trxType) ==> r.value == trxType
    ensures r.Some? && Blank(trxType) && quickReceipt ==> r.value == "debit"
    ensures r.Some? && Blank(trxType) && !quickReceipt && amount.Number? ==>
              r.value == (if amount.cents >= 0 then "credit" else "debit")
  {
    if quickReceipt && Blank(trxType) then Some("debit")
    else if Blank(trxType) && Present(amount) then
      (if amount.Number? then Some(if amount.cents >= 0 then "credit" else "debit") else None)
    else Some(trxType)
  }

  /**
   * Inferring the type and then converting leaves a number untouched, except
   * that a quick receipt without a type becomes a debit: the two callbacks agree.
   */
  lemma InferredTypeKeepsAmount(x: int, trxType: string, isNew: bool, amountWas: Amount, quickReceipt: bool)
    requires Blank(trxType)
    ensures var t := SetTrxType(quickReceipt, trxType, Number(x));
            t.Some? && ConvertAmount(Number(x), t.value, isNew, amountWas, quickReceipt)
                       == Number(if quickReceipt then -Abs(x) else x)
  {
    var t := SetTrxType(quickReceipt, trxType, Number(x));
    assert !Blank(t.value) by {
      assert t.value[0] != ' ' && t.value[0] != '\t';
    }
  }

  /**
   * `transaction_type`: the Credit pair for a saved record with an amount of at
   * least zero, the Debit pair for a new record or a negative amount. Comparing
   * a missing or text amount of a saved record with zero raises (`None`).
   */
  function TransactionType(isNew: bool, amount: Amount): (r: Option<(string, string)>)
    ensures r == Some(("Credit", "credit")) <==> !isNew && amount.Number? && amount.cents >= 0
    ensures r == Some(("Debit", "debit")) <==> isNew || (amount.Number? && amount.cents < 0)
    ensures r.None? <==> !isNew && !amount.Number?
  {
    if !isNew && !amount.Number? then None
    else if !isNew && amount.cents >= 0 then Some(("Credit", "credit"))
    else Some(("Debit", "debit"))
  }

  /** `set_pending`: a new record becomes pending unless the caller opted out. */
  function SetPending(pending: bool, skipPendingDefault: bool, isNew: bool): (r: bool)
    ensures skipPendingDefault ==> r == pending
    ensures !skipPendingDefault && isNew ==> r
  {
    if skipPendingDefault then pending
    else if isNew then true
    else pending
  }

  datatype TrxError =
    | TypeMissing             // "Please select debit or credit"
    | TypeNotAllowed          // not one of credit, debit
    | DescriptionMissing
    | DescriptionTooLong      // more than 150 characters
    | AmountMissing
    | AmountNotANumber
    | MemoTooLong             // more than 500 characters
    | AttachmentsRequired     // a quick receipt without attachments
    | DebitNotNegative        // "must be negative for debit transactions"
    | CreditNotPositive       // "must be positive for credit transactions"
    | AccountMissing          // the account does not exist
    | AccountOfAnotherUser    // moved to an account of a different user
    | CounterpartOfAnotherUser

  /** What the validations look at. */
  datatype Checked = Checked(
    trxType: string,
    description: string,
    amount: Amount,
    memo: string,
    pending: bool,
    quickReceipt: bool,
    hasAttachments: bool,
    isNew: bool,
    accountExists: bool,
    movedToAnotherUser: bool,
    counterpartOfAnotherUser: bool)

  /**
   * Whether validation `e` fails on the record. The type, description and amount
   * checks run only on a reviewed (not pending) record; the sign check only on a
   * reviewed record that is saved already and has an amount.
   */
  predicate Fires(c: Checked, e: TrxError) {
    var reviewed := !c.pending;
    var signCheck := !c.pending && Present(c.amount) && !c.isNew;
    match e
    case TypeMissing => reviewed && Blank(c.trxType)
    case TypeNotAllowed => reviewed && c.trxType != "credit" && c.trxType != "debit"
    case DescriptionMissing => reviewed && Blank(c.description)
    case DescriptionTooLong => reviewed && |c.description| > 150
    case AmountMissing => reviewed && !Present(c.amount)
    case AmountNotANumber => reviewed && NumericValue(c.amount).None?
    case MemoTooLong => |c.memo| > 500
    case AttachmentsRequired => c.quickReceipt && !c.hasAttachments
    case DebitNotNegative => signCheck && c.trxType == "debit" && c.amount.Number? && c.amount.cents > 0
    case CreditNotPositive => signCheck && c.trxType == "credit" && c.amount.Number? && c.amount.cents < 0
    case AccountMissing => !c.accountExists
    case AccountOfAnotherUser => !c.isNew && c.movedToAnotherUser
    case CounterpartOfAnotherUser => !c.isNew && c.counterpartOfAnotherUser
  }

  const AllErrors: set<TrxError> := {TypeMissing, TypeNotAllowed, DescriptionMissing, DescriptionTooLong,
                                     AmountMissing, AmountNotANumber, MemoTooLong, AttachmentsRequired,
                                     DebitNotNegative, CreditNotPositive, AccountMissing, AccountOfAnotherUser,
                                     CounterpartOfAnotherUser}

  /**
   * The validation errors of a record, or `None` when validating raises: the
   * sign check of a reviewed, saved record compares a text amount with zero.
   */
  function Errors(c: Checked): (r: Option<set<TrxError>>)
    ensures r.None? <==> !c.pending && !c.isNew && Present(c.amount) && !c.amount.Number?
                         && (c.trxType == "debit" || c.trxType == "credit")
  {
    var signCheck := !c.pending && Present(c.amount) && !c.isNew;
    if signCheck && !c.amount.Number? && (c.trxType == "debit" || c.trxType == "credit") then None
    else Some(set e | e in AllErrors && Fires(c, e))
  }

  /** Error `e` is reported exactly when its validation fails. */
  lemma ErrorFires(c: Checked, e: TrxError)
    requires Errors(c).Some?
    ensures e in Errors(c).value <==> Fires(c, e)
  {
  }

  /** No validation fails. */
  predicate Clean(c: Checked) {
    !Fires(c, TypeMissing) && !Fires(c, TypeNotAllowed) && !Fires(c, DescriptionMissing)
    && !Fires(c, DescriptionTooLong) && !Fires(c, AmountMissing) && !Fires(c, AmountNotANumber)
    && !Fires(c, MemoTooLong) && !Fires(c, AttachmentsRequired) && !Fires(c, DebitNotNegative)
    && !Fires(c, CreditNotPositive) && !Fires(c, AccountMissing) && !Fires(c, AccountOfAnotherUser)
    && !Fires(c, CounterpartOfAnotherUser)
  }

  lemma CleanIff(c: Checked)
    requires Errors(c).Some?
    ensures Clean(c) <==> Errors(c).value == {}
  {
    if Clean(c) {
      forall e | e in Errors(c).value
        ensures false
      {
        ErrorFires(c, e);
      }
    } else {
      ErrorFires(c, TypeMissing);
      ErrorFires(c, TypeNotAllowed);
      ErrorFires(c, DescriptionMissing);
      ErrorFires(c, DescriptionTooLong);
      ErrorFires(c, AmountMissing);
      ErrorFires(c, AmountNotANumber);
      ErrorFires(c, MemoTooLong);
      ErrorFires(c, AttachmentsRequired);
      ErrorFires(c, DebitNotNegative);
      ErrorFires(c, CreditNotPositive);
      ErrorFires(c, AccountMissing);
      ErrorFires(c, AccountOfAnotherUser);
      ErrorFires(c, CounterpartOfAnotherUser);
    }
  }

  /** `valid?`: validating does not raise and no validation fails. */
  predicate Passes(c: Checked) {
    Errors(c).Some? && Clean(c)
  }

  /** A record passes exactly when its error set comes out empty. */
  lemma PassesIff(c: Checked)
    ensures Passes(c) <==> Errors(c) == Some({})
  {
    if Errors(c).Some? {
      CleanIff(c);
    }
  }

  /**
   * A reviewed record that passes validation has a debit or credit type, a
   * description of at most 150 characters and a present amount; once saved, a
   * debit is not positive and a credit not negative.
   */
  lemma ReviewedRecordShape(c: Checked)
    requires Passes(c) && !c.pending
    ensures c.trxType == "debit" || c.trxType == "credit"
    ensures !Blank(c.description) && |c.description| <= 150
    ensures Present(c.amount) && NumericValue(c.amount).Some?
    ensures !c.isNew && c.amount.Number? && c.trxType == "debit" ==> c.amount.cents <= 0
    ensures !c.isNew && c.amount.Number? && c.trxType == "credit" ==> c.amount.cents >= 0
  {
    assert !Fires(c, AmountMissing) && !Fires(c, AmountNotANumber);
    match c.amount
    case NoAmount =>
      assert false;
    case Number(_) =>
    case Written(_) =>
      ParsesWhenNoError(c);
  }

  /** A reviewed text amount that the numericality check lets through reads as a number. */
  lemma ParsesWhenNoError(c: Checked)
    requires !c.pending && c.amount.Written? && !Fires(c, AmountNotANumber)
    ensures NumericValue(c.amount).Some?
  {
  }

  /** The type, description and amount checks are skipped while a record is pending. */
  lemma PendingSkipsReviewChecks(c: Checked)
    requires c.pending
    ensures Errors(c).Some?
    ensures Errors(c).value <= {MemoTooLong, AttachmentsRequired, AccountMissing, AccountOfAnotherUser, CounterpartOfAnotherUser}
  {
  }

  /** An amount converted under a debit or credit type never trips the sign check. */
  lemma ConvertedAmountPassesSignCheck(c: Checked, raw: Amount, amountWas: Amount)
    requires c.trxType == "debit" || c.trxType == "credit"
    requires NumericValue(raw).Some?
    requires c.amount == ConvertAmount(raw, c.trxType, c.isNew, amountWas, c.quickReceipt)
    ensures Errors(c).Some?
    ensures !Fires(c, DebitNotNegative) && !Fires(c, CreditNotPositive)
  {
    ConvertedSign(raw, c.trxType, c.isNew, amountWas, c.quickReceipt);
    SignedAmountPasses(c);
  }

  /** A number signed as its type demands trips neither sign check. */
  lemma SignedAmountPasses(c: Checked)
    requires c.amount.Number?
    requires c.trxType == "debit" ==> c.amount.cents <= 0
    requires c.trxType == "credit" ==> c.amount.cents >= 0
    ensures Errors(c).Some?
    ensures !Fires(c, DebitNotNegative) && !Fires(c, CreditNotPositive)
  {
  }

  /** Under a debit or credit type a number comes out, signed by the type. */
  lemma ConvertedSign(raw: Amount, trxType: string, isNew: bool, amountWas: Amount, quickReceipt: bool)
    requires trxType == "debit" || trxType == "credit"
    requires NumericValue(raw).Some?
    ensures var r := ConvertAmount(raw, trxType, isNew, amountWas, quickReceipt);
            r.Number? && (trxType == "debit" ==> r.cents <= 0) && (trxType == "credit" ==> r.cents >= 0)
  {
    assert !Blank(trxType) by {
      assert !IsSpace(trxType[0]);
    }
  }


  /** A change of one account's balance. */
  datatype Move = Move(account: AccountId, delta: int)

  /** The total change the moves make to account `a`. */
  function Net(moves: seq<Move>, a: AccountId): int {
    if moves == [] then 0
    else Net(moves[..|moves| - 1], a) + (if moves[|moves| - 1].account == a then moves[|moves| - 1].delta else 0)
  }

  lemma NetSmall(x: Move, y: Move, a: AccountId)
    ensures Net([], a) == 0
    ensures Net([x], a) == (if x.account == a then x.delta else 0)
    ensures Net([x, y], a) == Net([x], a) + (if y.account == a then y.delta else 0)
  {
    assert [x][..0] == [];
    assert [x, y][..1] == [x];
  }

  lemma {:induction false} NetAppend(m1: seq<Move>, m2: seq<Move>, a: AccountId)
    ensures Net(m1 + m2, a) == Net(m1, a) + Net(m2, a)
    decreases |m2|
  {
    if m2 == [] {
      assert m1 + m2 == m1;
    } else {
      assert (m1 + m2)[..|m1 + m2| - 1] == m1 + m2[..|m2| - 1];
      NetAppend(m1, m2[..|m2| - 1], a);
    }
  }

  /** What a record in `account` with `amount` adds to the balance of account `a`: only numbers count. */
  function Share(account: AccountId, amount: Amount, a: AccountId): int {
    if account == a && amount.Number? then amount.cents else 0
  }

  /**
   * `update_account_balance_edit` followed by `update_account_balance_transfer`,
   * as written: the edit applies new − old to the record's current account, and
   * a change of account then moves the NEW amount out of the old account.
   */
  function SaveMovesAsWritten(oldAccount: AccountId, oldAmount: Amount, newAccount: AccountId, newAmount: Amount): seq<Move> {
    var edit :=
      if !newAmount.Number? then []
      else if !Present(oldAmount) && !oldAmount.Number? then [Move(newAccount, newAmount.cents)]
      else if oldAmount.Number? && oldAmount != newAmount then [Move(newAccount, newAmount.cents - oldAmount.cents)]
      else [];
    var transfer :=
      if newAmount.Number? && oldAccount != newAccount then [Move(oldAccount, -newAmount.cents), Move(newAccount, newAmount.cents)]
      else [];
    edit + transfer
  }

  /** Moving a −10.00 record to another account while changing it to −20.00 credits the old account 20.00, not 10.00. */
  lemma SaveMovesAsWrittenDoubleCounts()
    ensures Net(SaveMovesAsWritten(1, Number(-1000), 2, Number(-2000)), 1) == 2000
    ensures Share(1, Number(-2000), 1) - Share(1, Number(-1000), 1) != 2000
    ensures Share(2, Number(-2000), 1) - Share(1, Number(-1000), 1) == 1000
  {
    var m := SaveMovesAsWritten(1, Number(-1000), 2, Number(-2000));
    assert m == [Move(2, -1000)] + [Move(1, 2000), Move(2, -2000)];
    NetSmall(Move(2, -1000), Move(2, -1000), 1);
    NetSmall(Move(1, 2000), Move(2, -2000), 1);
    NetAppend([Move(2, -1000)], [Move(1, 2000), Move(2, -2000)], 1);
  }

  /**
   * The balance moves of a save, corrected: an unchanged account gets new − old
   * (or the new amount when there was none), a changed account loses the old
   * amount and the new account gains the new one. A non-number new amount, or a
   * previous amount that was text, moves nothing, as in the source's guards.
   */
  function SaveMoves(oldAccount: AccountId, oldAmount: Amount, newAccount: AccountId, newAmount: Amount): seq<Move> {
    if !newAmount.Number? then []
    else if oldAccount == newAccount then
      (if !Present(oldAmount) && !oldAmount.Number? then [Move(newAccount, newAmount.cents)]
       else if oldAmount.Number? && oldAmount != newAmount then [Move(newAccount, newAmount.cents - oldAmount.cents)]
       else [])
    else if oldAmount.Number? then [Move(oldAccount, -oldAmount.cents), Move(newAccount, newAmount.cents)]
    else if !Present(oldAmount) then [Move(newAccount, newAmount.cents)]
    else []
  }

  /** When the balance callbacks act at all, this pair of states keeps every balance equal to its records. */
  predicate BalanceTracked(oldAmount: Amount, newAmount: Amount) {
    (oldAmount.Number? ==> newAmount.Number?) && (oldAmount.Written? && Present(oldAmount) ==> !newAmount.Number?)
  }

  /**
   * The corrected moves change each account by exactly the change in what the
   * record contributes to it.
   */
  lemma SaveMovesMatchShares(oldAccount: AccountId, oldAmount: Amount, newAccount: AccountId, newAmount: Amount, a: AccountId)
    requires BalanceTracked(oldAmount, newAmount)
    ensures Net(SaveMoves(oldAccount, oldAmount, newAccount, newAmount), a)
            == Share(newAccount, newAmount, a) - Share(oldAccount, oldAmount, a)
  {
    var m := SaveMoves(oldAccount, oldAmount, newAccount, newAmount);
    if |m| == 2 {
      assert m == [m[0], m[1]];
      NetSmall(m[0], m[1], a);
    } else if |m| == 1 {
      assert m == [m[0]];
      NetSmall(m[0], m[0], a);
    }
  }

  /** On an unchanged account the corrected moves and the written ones agree. */
  lemma SaveMovesAgreeWithoutMove(account: AccountId, oldAmount: Amount, newAmount: Amount)
    ensures SaveMoves(account, oldAmount, account, newAmount) == SaveMovesAsWritten(account, oldAmount, account, newAmount)
  {
  }

  /** The counterpart of a transfer: the same magnitude with the opposite sign. */
  function CounterpartAmount(amount: int): (r: int)
    ensures Abs(r) == Abs(amount)
    ensures amount < 0 ==> r > 0
    ensures amount >= 0 ==> r <= 0
  {
    if amount < 0 then Abs(amount) else -Abs(amount)
  }

  /** A stash entry follows the new magnitude and keeps its own sign (negative for a withdrawal). */
  function StashEntryAmount(oldEntryAmount: int, amount: int): (r: int)
    ensures Abs(r) == Abs(amount)
    ensures oldEntryAmount < 0 ==> r <= 0
    ensures oldEntryAmount >= 0 ==> r >= 0
  {
    if oldEntryAmount < 0 then -Abs(amount) else Abs(amount)
  }

  /**
   * The counterpart's new description after the description changed: a
   * "Transfer to" record makes its partner "Transfer from" this record's account
   * and the other way round; other descriptions are not mirrored.
   */
  function CounterpartDescription(description: string, accountName: string): (r: Option<string>)
    ensures Contains(description, "Transfer to") ==> r == Some("Transfer from " + accountName)
    ensures !Contains(description, "Transfer to") && Contains(description, "Transfer from") ==> r == Some("Transfer to " + accountName)
    ensures !Contains(description, "Transfer to") && !Contains(description, "Transfer from") ==> r.None?
  {
    if Contains(description, "Transfer to") then Some("Transfer from " + accountName)
    else if Contains(description, "Transfer from") then Some("Transfer to " + accountName)
    else None
  }
}
