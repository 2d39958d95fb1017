/**
 * Documents: the validations of a stored document, how its owner is shown,
 * the filters of the documents list (each ignored when its parameter is
 * blank) and the direction a column header link sorts by.
 */
module Documents {
  import opened Wrappers
  import opened Text
  import opened Calendar
  import Collections

  // ---------------------------------------------------------------------------
  // Sorting links

  datatype Direction = Asc | Desc

  function DirectionName(d: Direction): string {
    if d == Asc then "asc" else "desc"
  }

  /**
   * `sort_direction`: the header of the column the list is sorted by flips
   * an ascending sort to descending and anything else to ascending; every
   * other header sorts ascending.
   */
  function SortDirection(currentSort: Option<string>, currentDirection: Option<string>, column: string): (d: Direction)
    ensures d == Desc <==> currentSort == Some(column) && currentDirection == Some("asc")
  {
    if currentSort == Some(column) then
      if currentDirection == Some("asc") then Desc else Asc
    else Asc
  }

  /** Following the link of the sorted column twice comes back to the direction it started from. */
  lemma SortLinkToggles(column: string, d: Direction)
    ensures var once := SortDirection(Some(column), Some(DirectionName(d)), column);
            once != d && SortDirection(Some(column), Some(DirectionName(once)), column) == d
  {
    assert DirectionName(Desc) != "asc" by {
      assert DirectionName(Desc)[0] != "asc"[0];
    }
  }

  // ---------------------------------------------------------------------------
  // Validations

  const Categories: seq<string> := ["Statements", "Account Documentation", "Correspondence", "Legal", "Taxes", "Other"]
  const TaxesCategory := "Taxes"
  const TaxYearAbove := 1900
  const TaxYearBelow := 2100

  /** `tax_year` as submitted: missing, a whole number, a number with a fraction, or not a number. */
  datatype YearInput = NoYear | Whole(year: int) | Fraction | NotANumber

  datatype DocumentError =
    | CategoryBlank | CategoryNotIncluded | DateBlank
    | TaxYearBlank | TaxYearNotANumber | TaxYearNotAnInteger | TaxYearTooSmall | TaxYearTooLarge
    | AttachmentsBlank

  datatype Document = Document(category: Option<string>, hasDate: bool, taxYear: YearInput, isNew: bool, hasAttachments: bool)

  /** `tax_document?`. */
  predicate TaxDocument(d: Document) {
    d.category == Some(TaxesCategory)
  }

  /** The errors of the `tax_year` validations, which run only for a tax document. */
  function TaxYearErrors(y: YearInput): (errors: set<DocumentError>)
    ensures errors == {} <==> y.Whole? && TaxYearAbove < y.year < TaxYearBelow
  {
    match y
    case NoYear => {TaxYearBlank, TaxYearNotANumber}
    case NotANumber => {TaxYearNotANumber}
    case Fraction => {TaxYearNotAnInteger}
    case Whole(n) =>
      (if n <= TaxYearAbove then {TaxYearTooSmall} else {}) + (if n >= TaxYearBelow then {TaxYearTooLarge} else {})
  }

  /** Every validation of a document, with the error each adds. */
  function DocumentErrors(d: Document): (errors: set<DocumentError>)
    ensures CategoryBlank in errors <==> d.category.None? || Blank(d.category.value)
    ensures CategoryNotIncluded in errors <==> d.category.None? || d.category.value !in Categories
    ensures DateBlank in errors <==> !d.hasDate
    ensures AttachmentsBlank in errors <==> !d.isNew && !d.hasAttachments
    ensures !TaxDocument(d) ==> errors * {TaxYearBlank, TaxYearNotANumber, TaxYearNotAnInteger, TaxYearTooSmall, TaxYearTooLarge} == {}
  {
    (if d.category.None? || Blank(d.category.value) then {CategoryBlank} else {})
    + (if d.category.None? || d.category.value !in Categories then {CategoryNotIncluded} else {})
    + (if !d.hasDate then {DateBlank} else {})
    + (if TaxDocument(d) then TaxYearErrors(d.taxYear) else {})
    + (if !d.isNew && !d.hasAttachments then {AttachmentsBlank} else {})
  }

  /**
   * A document is valid exactly when its category is one of the six, it has a
   * date, a tax document has a whole tax year strictly between 1900 and 2100,
   * and a saved document keeps an attachment.
   */
  lemma ValidDocument(d: Document)
    ensures DocumentErrors(d) == {} <==>
              && d.category.Some? && d.category.value in Categories
              && d.hasDate
              && (TaxDocument(d) ==> d.taxYear.Whole? && TaxYearAbove < d.taxYear.year < TaxYearBelow)
              && (d.isNew || d.hasAttachments)
  {
    if d.category.Some? && d.category.value in Categories {
      CategoriesPresent(d.category.value);
    }
    if TaxDocument(d) && DocumentErrors(d) == {} {
      assert TaxYearErrors(d.taxYear) <= DocumentErrors(d);
    }
  }

  /** None of the six categories is blank. */
  lemma CategoriesPresent(c: string)
    requires c in Categories
    ensures !Blank(c)
  {
    assert !IsSpace(c[0]);
  }

  /** A document of any other category needs no tax year at all. */
  lemma TaxYearOnlyForTaxes(d: Document, y: YearInput)
    requires !TaxDocument(d)
    ensures DocumentErrors(d.(taxYear := y)) == DocumentErrors(d)
  {
  }

  // ---------------------------------------------------------------------------
  // Owner

  datatype Level = UserLevel | AccountLevel | UnknownLevel

  /** `level`: the kind of record the document is attached to. */
  function LevelOf(attachableType: string): (l: Level)
    ensures l == UserLevel <==> attachableType == "User"
    ensures l == AccountLevel <==> attachableType == "Account"
  {
    if attachableType == "User" then UserLevel
    else if attachableType == "Account" then AccountLevel
    else UnknownLevel
  }

  /** `account_name`: the account's name, "N/A" for a user's document, "Unknown" otherwise. */
  function AccountName(attachableType: string, attachableName: string): (s: string)
    ensures LevelOf(attachableType) == AccountLevel ==> s == attachableName
    ensures LevelOf(attachableType) == UserLevel ==> s == "N/A"
    ensures LevelOf(attachableType) == UnknownLevel ==> s == "Unknown"
  {
    match LevelOf(attachableType)
    case AccountLevel => attachableName
    case UserLevel => "N/A"
    case UnknownLevel => "Unknown"
  }

  // ---------------------------------------------------------------------------
  // List filters

  datatype Row = Row(category: string, taxYear: Option<int>, date: Date)

  /** `by_category`: the documents of a present category; every document when it is blank. */
  function ByCategory(rows: seq<Row>, category: Option<string>): (r: seq<Row>)
    ensures category.None? || Blank(category.value) ==> r == rows
    ensures category.Some? && !Blank(category.value) ==>
              forall x :: x in r <==> x in rows && x.category == category.value
  {
    if category.None? || Blank(category.value) then rows
    else Collections.Select(rows, (x: Row) => x.category == category.value)
  }

  /** `by_tax_year`: the documents of a given year; every document without one. */
  function ByTaxYear(rows: seq<Row>, year: Option<int>): (r: seq<Row>)
    ensures year.None? ==> r == rows
    ensures year.Some? ==> forall x :: x in r <==> x in rows && x.taxYear == year
  {
    if year.None? then rows
    else Collections.Select(rows, (x: Row) => x.taxYear == year)
  }

  /** `by_date_range`: the documents dated within both bounds, inclusive; every document unless both are given. */
  function ByDateRange(rows: seq<Row>, from: Option<Date>, to: Option<Date>): (r: seq<Row>)
    ensures from.None? || to.None? ==> r == rows
    ensures from.Some? && to.Some? ==> forall x :: x in r <==> x in rows && Leq(from.value, x.date) && Leq(x.date, to.value)
  {
    if from.None? || to.None? then rows
    else Collections.Select(rows, (x: Row) => Leq(from.value, x.date) && Leq(x.date, to.value))
  }

  /** The filters only ever narrow the list, and a blank parameter leaves it as it is, whatever order they run in. */
  lemma FiltersCommute(rows: seq<Row>, category: Option<string>, year: Option<int>)
    ensures forall x :: x in ByTaxYear(ByCategory(rows, category), year) <==> x in ByCategory(ByTaxYear(rows, year), category)
    ensures forall x :: x in ByTaxYear(ByCategory(rows, category), year) ==> x in rows
  {
  }
}
