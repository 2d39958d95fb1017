/**
 * A bill-transaction batch: the record that groups the pending transactions one
 * generation run created, so that the run can be undone as a whole.
 */
module Batches {
  import opened Wrappers
  import opened Text
  import opened Calendar

  type BatchId = nat

  datatype Batch = Batch(
    owner: int,
    reference: Option<string>,
    periodMonth: Option<Date>,
    rangeStart: Option<Date>,
    rangeEnd: Option<Date>,
    transactionsCount: int,
    totalAmount: int)

  /**
   * `assign_reference`: `reference ||= uuid`. A reference already there, even an
   * empty one, is kept; only a missing one is filled with the fresh identifier.
   */
  function AssignReference(b: Batch, uuid: string): (r: Batch)
    ensures b.reference.Some? ==> r == b
    ensures b.reference.None? ==> r == b.(reference := Some(uuid))
  {
    if b.reference.Some? then b else b.(reference := Some(uuid))
  }

  lemma AssignReferenceIdempotent(b: Batch, uuid1: string, uuid2: string)
    ensures AssignReference(AssignReference(b, uuid1), uuid2) == AssignReference(b, uuid1)
    ensures AssignReference(b, uuid1).reference.Some?
  {
  }

  datatype BatchError = ReferenceMissing | ReferenceTaken | PeriodOrRangeMissing | EndBeforeStart

  /** `period_or_range_present`: a period month, or both ends of a range. */
  predicate PeriodOrRangePresent(b: Batch) {
    b.periodMonth.Some? || (b.rangeStart.Some? && b.rangeEnd.Some?)
  }

  /** `valid_range`: with both ends given, the end is not before the start. */
  predicate RangeInOrder(b: Batch) {
    b.rangeStart.Some? && b.rangeEnd.Some? ==> Leq(b.rangeStart.value, b.rangeEnd.value)
  }

  /** The validation errors of a batch, given the references other batches already hold. */
  function BatchErrors(b: Batch, takenReferences: set<string>): (e: set<BatchError>)
    ensures e == {} <==> b.reference.Some? && !Blank(b.reference.value) && b.reference.value !in takenReferences
                         && PeriodOrRangePresent(b) && RangeInOrder(b)
  {
    (if b.reference.None? || Blank(b.reference.value) then {ReferenceMissing} else {})
    + (if b.reference.Some? && b.reference.value in takenReferences then {ReferenceTaken} else {})
    + (if !PeriodOrRangePresent(b) then {PeriodOrRangeMissing} else {})
    + (if !RangeInOrder(b) then {EndBeforeStart} else {})
  }

  /** A batch with only one end of its range and no period is invalid, whatever else holds. */
  lemma HalfRangeIsInvalid(b: Batch, taken: set<string>)
    requires b.periodMonth.None? && (b.rangeStart.None? || b.rangeEnd.None?)
    ensures PeriodOrRangeMissing in BatchErrors(b, taken)
  {
  }

  /** What `month_label` shows, before date formatting. */
  datatype Label = MonthLabel(month: Date) | RangeLabel(first: Date, last: Date) | CustomRange

  /** `month_label`: the period month if there is one, else the range if complete, else "Custom range". */
  function MonthLabelOf(b: Batch): (l: Label)
    ensures b.periodMonth.Some? ==> l == MonthLabel(b.periodMonth.value)
    ensures b.periodMonth.None? && b.rangeStart.Some? && b.rangeEnd.Some? ==> l == RangeLabel(b.rangeStart.value, b.rangeEnd.value)
    ensures l == CustomRange <==> !PeriodOrRangePresent(b)
  {
    if b.periodMonth.Some? then MonthLabel(b.periodMonth.value)
    else if b.rangeStart.Some? && b.rangeEnd.Some? then RangeLabel(b.rangeStart.value, b.rangeEnd.value)
    else CustomRange
  }
}
