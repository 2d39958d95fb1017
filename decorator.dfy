/**
 * `TransactionDecorator`: how a transaction's amount and description are shown
 * in lists and forms. Currency formatting is abstracted to the number of cents
 * shown; a saved amount is a number of cents or missing.
 */
module TransactionDecorator {
  import opened Wrappers
  import opened Text
  import opened TransactionRules

  /** A table cell: an amount of cents shown as currency, or a non-breaking space. */
  datatype Cell = Currency(cents: nat) | Space

  /** `debit`: the magnitude of a negative amount, otherwise an empty cell. */
  function Debit(amount: int): (c: Cell)
    ensures c.Currency? <==> amount < 0
    ensures c.Currency? ==> c.cents == -amount
  {
    if amount < 0 then Currency(-amount) else Space
  }

  /** `credit`: a positive amount, otherwise an empty cell. */
  function Credit(amount: int): (c: Cell)
    ensures c.Currency? <==> amount > 0
    ensures c.Currency? ==> c.cents == amount
  {
    if amount > 0 then Currency(amount) else Space
  }

  /** At most one of the two columns shows the amount, and a non-zero amount is shown in exactly one, as its magnitude. */
  lemma OneColumn(amount: int)
    ensures !(Debit(amount).Currency? && Credit(amount).Currency?)
    ensures amount != 0 ==> (Debit(amount).Currency? || Credit(amount).Currency?)
    ensures Debit(amount).Currency? ==> Debit(amount).cents == Abs(amount)
    ensures Credit(amount).Currency? ==> Credit(amount).cents == Abs(amount)
  {
  }

  datatype Shown = Pending | Money(cents: nat)

  /** `amount_decorated`: "Pending" without an amount; otherwise the magnitude, whatever the sign. */
  function AmountDecorated(amount: Option<int>): (s: Shown)
    ensures s == Pending <==> amount.None?
    ensures s.Money? ==> s.cents == Abs(amount.value)
  {
    match amount
    case None => Pending
    case Some(x) => Money(Abs(x))
  }

  /** Both branches of `amount_decorated` format `amount.abs`: a debit and a credit of one size look alike. */
  lemma AmountDecoratedDropsSign(x: int)
    ensures AmountDecorated(Some(x)) == AmountDecorated(Some(-x))
  {
  }

  datatype Color = Grey | Danger | Success

  /** `amount_color`: grey without an amount, danger when negative, success otherwise. */
  function AmountColor(amount: Option<int>): (c: Color)
    ensures c == Grey <==> amount.None?
    ensures c == Danger <==> amount.Some? && amount.value < 0
    ensures c == Success <==> amount.Some? && amount.value >= 0
  {
    match amount
    case None => Grey
    case Some(x) => if x < 0 then Danger else Success
  }

  /** The colour agrees with the columns: danger exactly when the debit column shows the amount. */
  lemma ColorMatchesColumns(x: int)
    ensures AmountColor(Some(x)) == Danger <==> Debit(x).Currency?
    ensures Credit(x).Currency? ==> AmountColor(Some(x)) == Success
  {
  }

  /** `trx_type_value_form`: "debit" for a new record, otherwise the amount's sign, and nil without an amount. */
  function TrxTypeValueForm(isNew: bool, amount: Option<int>): (t: Option<string>)
    ensures isNew ==> t == Some("debit")
    ensures !isNew && amount.None? ==> t.None?
    ensures !isNew && amount.Some? ==> t == Some(if amount.value < 0 then "debit" else "credit")
  {
    if isNew then Some("debit")
    else if amount.None? then None
    else if amount.value < 0 then Some("debit") else Some("credit")
  }

  /** The form preselects the type `transaction_type` gives the record. */
  lemma FormTypeIsTransactionType(isNew: bool, x: int)
    ensures TransactionType(isNew, Number(x)).Some?
    ensures TrxTypeValueForm(isNew, Some(x)) == Some(TransactionType(isNew, Number(x)).value.1)
  {
  }

  /** Submitting the edit form of a saved record with its preselected type leaves the amount as it was. */
  lemma FormTypeKeepsAmount(x: int, amountWas: Amount, quickReceipt: bool)
    ensures ConvertAmount(Number(x), TrxTypeValueForm(false, Some(x)).value, false, amountWas, quickReceipt) == Number(x)
  {
    var t := TrxTypeValueForm(false, Some(x)).value;
    assert !Blank(t) by {
      assert t[0] != ' ' && t[0] != '\t';
    }
  }

  const Ellipsis := "..."
  const PendingReceipt := "Pending Receipt"
  const DescriptionLimit := 50
  const MobileDescriptionLimit := 20

  /** `name_too_long` and its mobile variant: a present description longer than `limit`. */
  predicate TooLong(description: Option<string>, limit: nat) {
    description.Some? && |description.value| > limit
  }

  /**
   * The shared rule of `trx_desc_display` and `trx_desc_display_mobile`:
   * "Pending Receipt" without a description, the first `limit + 1` characters
   * and "..." when it is longer than `limit`, and the description otherwise.
   */
  function Shorten(description: Option<string>, limit: nat): (r: string)
    ensures description.None? ==> r == PendingReceipt
    ensures description.Some? && !TooLong(description, limit) ==> r == description.value
    ensures TooLong(description, limit) ==>
              |r| == limit + 1 + |Ellipsis| && r[..limit + 1] == description.value[..limit + 1] && r[limit + 1..] == Ellipsis
  {
    if description.None? then PendingReceipt
    else if TooLong(description, limit) then description.value[..limit + 1] + Ellipsis
    else description.value
  }

  /** `trx_desc_display`: at most 50 characters shown as they are, more cut to 51 and "...". */
  function TrxDescDisplay(description: Option<string>): (r: string)
    ensures !TooLong(description, DescriptionLimit) ==> r == description.GetOr(PendingReceipt)
    ensures TooLong(description, DescriptionLimit) ==> r == description.value[..51] + "..."
  {
    Shorten(description, DescriptionLimit)
  }

  /** `trx_desc_display_mobile`: at most 20 characters shown as they are, more cut to 21 and "...". */
  function TrxDescDisplayMobile(description: Option<string>): (r: string)
    ensures !TooLong(description, MobileDescriptionLimit) ==> r == description.GetOr(PendingReceipt)
    ensures TooLong(description, MobileDescriptionLimit) ==> r == description.value[..21] + "..."
  {
    Shorten(description, MobileDescriptionLimit)
  }

  /** Shortening what is shown again changes nothing. */
  lemma ShortenIdempotent(description: string, limit: nat)
    ensures Shorten(Some(Shorten(Some(description), limit)), limit) == Shorten(Some(description), limit)
  {
    var once := Shorten(Some(description), limit);
    if |description| > limit {
      assert |once| > limit;
      assert once[..limit + 1] == description[..limit + 1];
    }
  }
}
