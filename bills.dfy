/**
 * Bills: recurring payments and income attached to an account. A bill is
 * validated field by field, and `calendar_date_for` places its day of the month
 * in a given month, clamped to the month's length.
 */
module Bills {
  import opened Wrappers
  import opened Text
  import opened Calendar

  const BillTypes: set<string> := {"income", "expense", "debt_repayment", "payment_plan"}
  const BillCategories: set<string> :=
    {"income", "utility", "family", "auto", "food", "housing", "misc", "internet", "health", "insurance",
     "phone", "credit_card", "taxes"}
  const Frequencies: set<string> := {"monthly", "bi_weekly", "quarterly", "annual"}

  /**
   * A bill as validation sees it. `account` and `user` are the ids it names
   * (absent when it names none); `accountOwner` is the user the named account
   * belongs to, absent when that account does not exist. Amounts are cents.
   */
  datatype Bill = Bill(
    account: Option<int>,
    accountOwner: Option<int>,
    user: Option<int>,
    billType: string,
    category: string,
    frequency: string,
    description: string,
    dayOfMonth: Option<int>,
    secondDayOfMonth: Option<int>,
    amount: Option<int>,
    notes: string)

  datatype BillError =
    | BillTypeMissing | BillTypeUnknown
    | CategoryMissing | CategoryUnknown
    | FrequencyUnknown
    | DescriptionMissing | DescriptionTooLong
    | DayMissing | DayOutOfRange
    | AmountMissing | AmountNotPositive
    | NotesTooLong
    | AccountMissing | UserMissing
    | AccountOfAnotherUser   // "must belong to your profile"

  /** `account_belongs_to_user`: skipped without an account or a user, else the account's owner must be the user. */
  predicate AccountBelongsToUser(b: Bill) {
    b.accountOwner.None? || b.user.None? || b.accountOwner == b.user
  }

  lemma NamedKindsNotBlank(s: string)
    ensures s in BillTypes || s in BillCategories ==> !Blank(s)
  {
    if s in BillTypes || s in BillCategories {
      assert !IsSpace(s[0]);
    }
  }

  /** The enum checks: presence and inclusion of the type and category, inclusion of the frequency. */
  function KindErrors(b: Bill): (e: set<BillError>)
    ensures e == {} <==> b.billType in BillTypes && b.category in BillCategories && b.frequency in Frequencies
    ensures AccountOfAnotherUser !in e
  {
    NamedKindsNotBlank(b.billType);
    NamedKindsNotBlank(b.category);
    (if Blank(b.billType) then {BillTypeMissing} else {})
    + (if b.billType !in BillTypes then {BillTypeUnknown} else {})
    + (if Blank(b.category) then {CategoryMissing} else {})
    + (if b.category !in BillCategories then {CategoryUnknown} else {})
    + (if b.frequency !in Frequencies then {FrequencyUnknown} else {})
  }

  /** The value checks: description, day of the month, amount and notes. */
  function ValueErrors(b: Bill): (e: set<BillError>)
    ensures e == {} <==>
              !Blank(b.description) && |b.description| <= 150
              && b.dayOfMonth.Some? && 1 <= b.dayOfMonth.value <= 31
              && b.amount.Some? && b.amount.value > 0
              && (Blank(b.notes) || |b.notes| <= 2000)
    ensures AccountOfAnotherUser !in e
  {
    (if Blank(b.description) then {DescriptionMissing} else {})
    + (if |b.description| > 150 then {DescriptionTooLong} else {})
    + (if b.dayOfMonth.None? then {DayMissing} else {})
    + (if b.dayOfMonth.Some? && !(1 <= b.dayOfMonth.value <= 31) then {DayOutOfRange} else {})
    + (if b.amount.None? then {AmountMissing} else {})
    + (if b.amount.Some? && b.amount.value <= 0 then {AmountNotPositive} else {})
    + (if !Blank(b.notes) && |b.notes| > 2000 then {NotesTooLong} else {})
  }

  /** The owner checks: an account, a user, and the account belonging to the user. */
  function OwnerErrors(b: Bill): (e: set<BillError>)
    ensures e == {} <==> b.accountOwner.Some? && b.user.Some? && b.accountOwner == b.user
    ensures AccountOfAnotherUser in e <==> !AccountBelongsToUser(b)
  {
    (if b.accountOwner.None? then {AccountMissing} else {})
    + (if b.user.None? then {UserMissing} else {})
    + (if !AccountBelongsToUser(b) then {AccountOfAnotherUser} else {})
  }

  /** Every validation error of a bill. */
  function BillErrors(b: Bill): (e: set<BillError>)
    ensures e == {} <==> KindErrors(b) == {} && ValueErrors(b) == {} && OwnerErrors(b) == {}
    ensures AccountOfAnotherUser in e <==> !AccountBelongsToUser(b)
  {
    KindErrors(b) + ValueErrors(b) + OwnerErrors(b)
  }

  /** A valid bill has a day of the month in 1..31 and a positive amount, and its account is the user's. */
  lemma ValidBillShape(b: Bill)
    requires BillErrors(b) == {}
    ensures 1 <= b.dayOfMonth.value <= 31 && b.amount.value > 0
    ensures b.user.Some? && b.accountOwner == b.user
  {
  }

  function Min(a: int, b: int): int {
    if a <= b then a else b
  }

  /**
   * `calendar_date_for`: the bill's day in the month of `reference`, clamped to
   * that month's last day. A day below 1 (only possible on an unvalidated bill)
   * counts back from the first of the month into the previous month.
   */
  function CalendarDateFor(dayOfMonth: int, reference: Date): (r: Date)
    ensures dayOfMonth >= 1 ==>
              SameMonth(r, reference) && r.day == Min(dayOfMonth, DaysInMonth(reference.year, reference.month))
    ensures dayOfMonth < 1 ==> Before(r, BeginningOfMonth(reference))
  {
    var first := BeginningOfMonth(reference);
    var target := Min(dayOfMonth, DaysInMonth(reference.year, reference.month));
    var r := AddDays(first, target - 1);
    if dayOfMonth >= 1 then
      DaysIntoMonth(reference, target - 1);
      r
    else
      BeforeIsEarlier(r, first);
      r
  }

  /** Day 31 in February 2025 is the 28th. */
  lemma CalendarDateClampsToMonthEnd()
    ensures CalendarDateFor(31, YMD(2025, 2, 1)) == YMD(2025, 2, 28)
  {
    var r := CalendarDateFor(31, YMD(2025, 2, 1));
    assert r.day == 28;
  }

  /** The date chosen does not depend on which day of the month the reference is. */
  lemma CalendarDateIgnoresReferenceDay(dayOfMonth: int, a: Date, b: Date)
    requires SameMonth(a, b)
    ensures CalendarDateFor(dayOfMonth, a) == CalendarDateFor(dayOfMonth, b)
  {
  }
}
