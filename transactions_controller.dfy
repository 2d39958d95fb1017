/**
 * The parts of the transactions controller that decide something: the type
 * `update` gives a transaction, whether an update moves it to another
 * account, which fields a JSON request may change, and the description filter
 * the list keeps in the session.
 */
module TransactionsController {
  import opened Wrappers
  import opened Text
  import opened TransactionRules
  import Collections

  // ---------------------------------------------------------------------------
  // update

  /**
   * The type `update` assigns before saving: "debit" for a quick receipt
   * without a `trx_type` parameter; otherwise the parameter when it is given
   * (even an empty one), and without it "debit" exactly when the saved amount
   * is negative.
   */
  function UpdateTrxType(quickReceipt: bool, trxTypeParam: Option<string>, amount: Option<int>): (t: string)
    ensures trxTypeParam.Some? ==> t == trxTypeParam.value
    ensures trxTypeParam.None? && quickReceipt ==> t == "debit"
    ensures trxTypeParam.None? && !quickReceipt ==> (t == "debit" <==> amount.Some? && amount.value < 0)
    ensures trxTypeParam.None? ==> t == "debit" || t == "credit"
  {
    if quickReceipt && trxTypeParam.None? then "debit"
    else if trxTypeParam.Some? then trxTypeParam.value
    else if amount.Some? && amount.value < 0 then "debit" else "credit"
  }

  /** Without a type parameter, saving a transaction keeps its amount: the type inferred matches its sign. */
  lemma UpdateWithoutTypeKeepsAmount(x: int, amountWas: Amount)
    ensures ConvertAmount(Number(x), UpdateTrxType(false, None, Some(x)), false, amountWas, false) == Number(x)
  {
    var t := UpdateTrxType(false, None, Some(x));
    assert !Blank(t) by {
      assert t[0] != ' ' && t[0] != '\t';
    }
  }

  /** A quick receipt updated without a type becomes a debit of the magnitude given. */
  lemma QuickReceiptUpdateIsDebit(x: int, amountWas: Amount)
    ensures ConvertAmount(Number(x), UpdateTrxType(true, None, Some(x)), false, amountWas, true) == Number(-Abs(x))
  {
    var t := UpdateTrxType(true, None, Some(x));
    assert !Blank(t) by {
      assert t[0] != ' ';
    }
  }

  /** `account_changed`: an `account_id` parameter is given and its `to_i` differs from the transaction's account. */
  predicate AccountChanged(accountParam: Option<string>, current: AccountId) {
    accountParam.Some? && ToI(accountParam.value) != current
  }

  /** Re-submitting the transaction's own account id does not count as a move; any other number does. */
  lemma AccountChangedIff(current: AccountId, given: AccountId, text: string)
    requires ToI(text) == given
    ensures AccountChanged(Some(text), current) <==> given != current
    ensures !AccountChanged(None, current)
  {
  }

  // ---------------------------------------------------------------------------
  // transaction_params

  datatype Field = Description | AmountField | TrxType | TrxDate | Memo | AccountField

  /** The branches of `transaction_params` for a JSON request, in the order they are tried. */
  datatype JsonBranch = Full | DescriptionOnly | AmountAndType | AmountOnly | TypeOnly | DateOnly | Nothing

  /** Which branch a JSON request takes, given the keys of `params[:transaction]` and whether `params[:date]` is given. */
  function SelectBranch(keys: set<Field>, date: bool): (b: JsonBranch)
    ensures b == Full <==> {Description, AmountField, TrxType, TrxDate} <= keys
    ensures b == DescriptionOnly <==> Description in keys && !({AmountField, TrxType, TrxDate} <= keys)
    ensures b == AmountAndType <==> Description !in keys && AmountField in keys && TrxType in keys
    ensures b == AmountOnly <==> Description !in keys && AmountField in keys && TrxType !in keys
    ensures b == TypeOnly <==> Description !in keys && AmountField !in keys && TrxType in keys
    ensures b == DateOnly <==> Description !in keys && AmountField !in keys && TrxType !in keys && date
    ensures b == Nothing <==> Description !in keys && AmountField !in keys && TrxType !in keys && !date
  {
    if {Description, AmountField, TrxType, TrxDate} <= keys then Full
    else if Description in keys then DescriptionOnly
    else if AmountField in keys && TrxType in keys then AmountAndType
    else if AmountField in keys then AmountOnly
    else if TrxType in keys then TypeOnly
    else if date then DateOnly
    else Nothing
  }

  /**
   * `transaction_params` for a JSON request: the attributes the branch
   * permits, each with the value given (`None` for a key the full form may
   * leave out); the `date` parameter becomes `trx_date`.
   */
  function JsonParams(given: map<Field, string>, date: Option<string>): (r: map<Field, Option<string>>)
    ensures forall f :: f in r && r[f].Some? ==> (f in given && r[f].value == given[f]) || (f == TrxDate && r[f] == date)
    ensures SelectBranch(given.Keys, date.Some?) == Full ==> r.Keys == {Description, AmountField, TrxType, TrxDate, Memo, AccountField}
    ensures SelectBranch(given.Keys, date.Some?) == DescriptionOnly ==> r.Keys == {Description}
    ensures SelectBranch(given.Keys, date.Some?) == AmountAndType ==> r.Keys == {AmountField, TrxType}
    ensures SelectBranch(given.Keys, date.Some?) == AmountOnly ==> r.Keys == {AmountField}
    ensures SelectBranch(given.Keys, date.Some?) == TypeOnly ==> r.Keys == {TrxType}
    ensures SelectBranch(given.Keys, date.Some?) == DateOnly ==> r == map[TrxDate := date]
    ensures SelectBranch(given.Keys, date.Some?) == Nothing ==> r == map[]
  {
    match SelectBranch(given.Keys, date.Some?)
    case Full =>
      map[Description := Some(given[Description]), AmountField := Some(given[AmountField]),
          TrxType := Some(given[TrxType]), TrxDate := Some(given[TrxDate]),
          Memo := Lookup(given, Memo), AccountField := Lookup(given, AccountField)]
    case DescriptionOnly => map[Description := Some(given[Description])]
    case AmountAndType => map[AmountField := Some(given[AmountField]), TrxType := Some(given[TrxType])]
    case AmountOnly => map[AmountField := Some(given[AmountField])]
    case TypeOnly => map[TrxType := Some(given[TrxType])]
    case DateOnly => map[TrxDate := date]
    case Nothing => map[]
  }

  /** `params[:transaction][key]`: the value, or nil when the key is absent. */
  function Lookup(given: map<Field, string>, f: Field): (v: Option<string>)
    ensures v.Some? <==> f in given
    ensures v.Some? ==> v.value == given[f]
  {
    if f in given then Some(given[f]) else None
  }

  /** A request that names the description changes nothing but the description, unless it is the full form. */
  lemma DescriptionWins(given: map<Field, string>, date: Option<string>)
    requires Description in given && !({AmountField, TrxType, TrxDate} <= given.Keys)
    ensures JsonParams(given, date) == map[Description := Some(given[Description])]
  {
  }

  /** Whatever branch is taken, a JSON request never sets a field to a value it did not send. */
  lemma JsonParamsFromRequest(given: map<Field, string>, date: Option<string>, f: Field)
    requires f in JsonParams(given, date) && f != TrxDate
    ensures JsonParams(given, date)[f] == Lookup(given, f)
  {
  }

  // ---------------------------------------------------------------------------
  // The list's session filters

  const DescriptionKey := "description"
  const AccountKey := "account_id"

  /** `filter_params`: only the description and account id of the request. */
  function FilterParams(params: map<string, string>): (r: map<string, string>)
    ensures r.Keys == params.Keys * {DescriptionKey, AccountKey}
    ensures forall k :: k in r ==> r[k] == params[k]
  {
    map k | k in params && k in {DescriptionKey, AccountKey} :: params[k]
  }

  /** The description filter is in force: stored and not blank. */
  predicate SearchApplies(filters: Option<map<string, string>>) {
    filters.Some? && DescriptionKey in filters.value && !Blank(filters.value[DescriptionKey])
  }

  /** `UPPER(description) LIKE UPPER('%' || filter || '%')`, ignoring the pattern characters of LIKE. */
  predicate Matches(description: string, filter: string) {
    Contains(Downcase(description), Downcase(filter))
  }

  /** `search_by_description`: the rows whose description contains the filter, ignoring case, when it applies; all rows otherwise. */
  function SearchByDescription(descriptions: seq<string>, filters: Option<map<string, string>>): (r: seq<string>)
    ensures !SearchApplies(filters) ==> r == descriptions
    ensures SearchApplies(filters) ==>
              forall d :: d in r <==> d in descriptions && Matches(d, filters.value[DescriptionKey])
  {
    if !SearchApplies(filters) then descriptions
    else Collections.Select(descriptions, (d: string) => Matches(d, filters.value[DescriptionKey]))
  }

  /** The session: the account whose list was shown last, and the list's filters. */
  class FilterSession {
    var currentAccountId: Option<AccountId>
    var filters: Option<map<string, string>>

    constructor ()
      ensures currentAccountId.None? && filters.None?
    {
      currentAccountId, filters := None, None;
    }

    /** `check_account_change`: showing another account's list (or the first one) clears the filters. */
    method CheckAccountChange(account: AccountId)
      modifies this
      ensures currentAccountId == Some(account)
      ensures old(currentAccountId) != Some(account) ==> filters == Some(map[])
      ensures old(currentAccountId) == Some(account) ==> filters == old(filters)
    {
      if currentAccountId.None? || currentAccountId != Some(account) {
        currentAccountId := Some(account);
        filters := Some(map[]);
      }
    }

    /** `index`'s filter handling: the account check, then the request's filters merged over the stored ones. */
    method Index(account: AccountId, params: map<string, string>)
      modifies this
      ensures currentAccountId == Some(account)
      ensures old(currentAccountId) == Some(account) ==> filters == Some(old(filters).GetOr(map[]) + FilterParams(params))
      ensures old(currentAccountId) != Some(account) ==> filters == Some(FilterParams(params))
      ensures old(currentAccountId) != Some(account) && DescriptionKey !in params ==> !SearchApplies(filters)
    {
      CheckAccountChange(account);
      var merged := filters.GetOr(map[]) + FilterParams(params);
      if old(currentAccountId) != Some(account) {
        assert merged == FilterParams(params);
      }
      filters := Some(merged);
    }
  }

  /** A description given with the request is the one searched for, whatever was stored. */
  lemma RequestFilterWins(stored: map<string, string>, params: map<string, string>)
    requires DescriptionKey in params
    ensures (stored + FilterParams(params))[DescriptionKey] == params[DescriptionKey]
  {
  }
}
