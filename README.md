# olubalance bookkeeping core, in Dafny

olubalance is a Rails personal-finance application. Users keep accounts whose
current balance follows the transactions booked to them. They set money aside
in stashes, move money between accounts with linked transfer transactions, and
describe recurring bills that generate batches of pending transactions. They
file transactions under global or custom categories, learn matching rules
("lookups") from past filings, and read a spending report that compares two
periods.

This project models that core as Dafny modules, one per source component:

- `Wrappers`, `Collections`, `Text`, `Calendar`: the Ruby and Rails building
  blocks the core relies on. These are `Option`, order-keeping `select`,
  `blank?`/`strip`/`squish`/`downcase`/`to_i`, the decimal pattern of
  `convert_amount`, string order, and proleptic Gregorian dates with
  `beginning_of_month`, `end_of_month`, `next_month` and
  `beginning_of_week(:sunday)`.
- `TransactionRules`: the pure rules of `Transaction`: amount sign
  conversion, type inference, validations, and the balance moves of each
  callback.
- `Ledger`: class `Books` with accounts, transactions, stashes, stash entries
  and batches. Its methods run a transaction's save and destroy callbacks in
  Rails' order. The invariant `Valid()` says every account's balance equals its
  opening balance plus the numeric amounts booked to it, and every reference
  points at a live row.
- `Transfers`, `Stashes`: `PerformTransfer` and `Stash#unstash`/destroy, as
  methods on `Books`.
- `Bills`, `Batches`, `Generator`, `BatchesController`, `BillsHelper`: bill
  validation and calendar dates, batch records, preview and generation of
  pending transactions, the batches controller (ranges, next occurrence,
  create, undo), and the bills helper.
- `Reporting`: `Reporting::SpendingByCategory` over a sequence of rows.
- `Categories`, `CategoryTables`, `CategorySuggester`: category names,
  lookups, exact-before-fuzzy suggestion, and class `Tables` for the
  categories controller and `CategoryLookup.upsert_for`.
- `TransactionDecorator`, `Documents`, `TransactionsController`: display
  rules, document validation and filters, and the decisions of the
  transactions controller.

Amounts are integer cents. The current date, `SecureRandom.uuid`, database
ids, `Bill#occurrences_for_month`, pg_trgm `similarity`, the logarithm of the
suggestion confidence and the AI client are parameters.

## Model

| member | source | states |
|---|---|---|
| TransactionRules.ConvertAmount | app/models/transaction.rb:115-155 | nil and text that is not a plain decimal stay as they are; a decimal keeps its magnitude and becomes ≤ 0 or ≥ 0 by the given type, else by the sign of a saved numeric `amount_was`, else negative only for a quick receipt |
| TransactionRules.ConvertByType | app/models/transaction.rb:132-138 | with a present type, a number becomes −\|x\| for "debit" and \|x\| otherwise, whatever the record's other state |
| TransactionRules.ConvertIdempotent | app/models/transaction.rb:115-155 | converting an already converted amount again with the same inputs changes nothing |
| TransactionRules.ConvertedSign | app/models/transaction.rb:132-138 | under "debit" or "credit" a decimal comes out as a number of the sign the type demands |
| TransactionRules.SetTrxType | app/models/transaction.rb:105-113 | a blank type becomes "debit" for a quick receipt, else "credit" iff the amount is ≥ 0; a present type is kept; comparing a text amount raises |
| TransactionRules.InferredTypeKeepsAmount | app/models/transaction.rb:105-155 | with a blank type, a type is always inferred for a number; converting with it keeps the number, except that a quick receipt becomes −\|x\| |
| TransactionRules.TransactionType | app/models/transaction.rb:62-67 | Debit iff the record is new or its amount is negative, Credit iff it is saved with an amount ≥ 0, no answer iff it is saved with an amount that is not a number, where the comparison raises |
| TransactionRules.SetPending | app/models/transaction.rb:100-103 | with `skip_pending_default` the flag is kept; otherwise a new record becomes pending |
| TransactionRules.Errors | app/models/transaction.rb:20-31 | no answer exactly when a saved, reviewed record holds a present amount that is not a number, where the sign checks raise |
| TransactionRules.ErrorFires | app/models/transaction.rb:20-31 | an error is reported iff its validation fails; numericality has no `allow_nil`, so a reviewed record without an amount is both blank and not a number |
| TransactionRules.CleanIff | app/models/transaction.rb:20-31 | no validation fails iff type, description, amount, memo, quick-receipt, sign and ownership rules all hold, written out field by field |
| TransactionRules.PassesIff | app/models/transaction.rb:20-31 | `valid?` iff the error set is empty |
| TransactionRules.ReviewedRecordShape | app/models/transaction.rb:337-364 | a valid non-pending record has a type of debit or credit, a present description of at most 150 characters and a numeric amount |
| TransactionRules.ParsesWhenNoError | app/models/transaction.rb:25 | reviewed text that passes numericality reads as a decimal number |
| TransactionRules.PendingSkipsReviewChecks | app/models/transaction.rb:20-25 | a pending record is never rejected for its type, description or amount |
| TransactionRules.ConvertedAmountPassesSignCheck | app/models/transaction.rb:351-359 | an amount converted under debit or credit never trips the sign check |
| TransactionRules.NetAppend | app/models/transaction.rb:175-235 | the net balance change of two lists of moves is the sum of their net changes |
| TransactionRules.SaveMovesAsWrittenDoubleCounts | app/models/transaction.rb:182-235 | as written, moving a −10.00 record to another account while changing it to −20.00 credits the old account 20.00 where its records changed by 10.00 |
| TransactionRules.SaveMovesMatchShares | app/models/transaction.rb:182-235 | when the amount change is one the callbacks track (numbers stay numbers, text does not become a number), the corrected moves change each account by exactly the change in what the record contributes to it |
| TransactionRules.SaveMovesAgreeWithoutMove | app/models/transaction.rb:182-198 | when the account is unchanged, the corrected moves are the written ones |
| TransactionRules.CounterpartAmount | app/models/transaction.rb:257 | the counterpart gets the same magnitude, ≤ 0 for a record ≥ 0 and > 0 for a negative one |
| TransactionRules.StashEntryAmount | app/models/transaction.rb:311 | a stash entry takes the new magnitude and keeps the sign it had |
| TransactionRules.CounterpartDescription | app/models/transaction.rb:263-271 | "Transfer to" gives "Transfer from <account>", else "Transfer from" gives "Transfer to <account>", else no change |
| Ledger.Prepare | app/models/transaction.rb:36-41 | the before-validation, validation and before-save callbacks change only the amount, batch reference, quick-receipt flag and pending flag |
| Ledger.PreparedRecord | app/models/transaction.rb:20-41 | a record that passes has an existing account; an amount that is not a decimal is stored as given; an unpending record holds a number and a present description of at most 150 characters; a new record is pending unless skipped |
| Ledger.ApplyMoves | app/models/transaction.rb:175-206 | balance moves touch only existing accounts and only their balances |
| Ledger.CreateThenDestroyRestores | app/models/transaction.rb:175-206 | creating a record and then destroying it leaves every balance as it was |
| Ledger.CreateMovesShare | app/models/transaction.rb:175-206 | the create callback moves each account by the record's share, the destroy callback by its negation |
| Ledger.SyncedCounterpart | app/models/transaction.rb:237-292 | the counterpart keeps its account and link; a changed amount is mirrored onto it as the same magnitude with the opposite sign, an unchanged one leaves its amount alone |
| Ledger.SyncedEntry | app/models/transaction.rb:294-328 | the stash entry stays in its stash; a changed amount gives it the new magnitude with its own sign, an unchanged one leaves its amount alone |
| Ledger.Unlinked | app/models/transaction.rb:10 | `dependent: :nullify`: records naming the destroyed one lose the link and nothing else changes |
| Ledger.Paired | app/services/perform_transfer.rb:19-22 | the two records name each other as counterpart and nothing else changes |
| Ledger.PairedKeepsInvariants | app/services/perform_transfer.rb:19-22 | linking two distinct records keeps references and balances valid |
| Ledger.BookedChangeOne | app/models/transaction.rb:175-235 | changing one record changes an account's booked total by the change in that record's share alone |
| Ledger.PointChangeKeepsBalances | app/models/transaction.rb:182-235 | replacing one record and moving exactly the change in its share keeps every balance equal to its records |
| Ledger.AppendKeepsBalances | app/models/transaction.rb:175-180 | a new record under the next id, its number added to its account, keeps the balances right |
| Ledger.RemoveKeepsBalances | app/models/transaction.rb:200-206 | removing a record, taking its number off and unlinking its partners keeps the balances right |
| Ledger.CounterpartMovesMatchShares | app/models/transaction.rb:284-290 | the counterpart's account moves by exactly the change in the counterpart's share |
| Ledger.SyncPartnerShape | app/models/transaction.rb:242-291 | the counterpart sync touches only the partner's row and its account's balance; the partner keeps its account and link |
| Ledger.SyncEntryShape | app/models/transaction.rb:295-327 | the stash sync leaves records and balances alone; entries keep their stash and stashes their account |
| Ledger.SyncEntryKeepsStashesValid | app/models/transaction.rb:316-325 | the entry is written without validation, but the stash balance only through `stash.update`, so valid stashes stay valid and no balance leaves 0..goal |
| Ledger.CommittedShape | app/models/transaction.rb:182-329 | a commit keeps the key sets, every other record's account and links, stash owners and entry stashes |
| Ledger.CommitKeepsLinked | app/models/transaction.rb:182-329 | committing an edit keeps every reference intact |
| Ledger.CommitKeepsBalances | app/models/transaction.rb:182-329 | committing keeps balances equal to records whenever every stored amount change is one the callbacks follow |
| Ledger.CommitKeepsValid | app/models/transaction.rb:182-329 | committing keeps references, and balances under the same condition |
| Ledger.AppendKeepsConsistent | app/models/transaction.rb:175-180 | storing a new unlinked record under the next id keeps the tables consistent |
| Ledger.RemoveKeepsConsistent | app/models/transaction.rb:200-206 | removing a record keeps the tables consistent |
| Ledger.Books.constructor | app/models/transaction.rb:4-10 | empty tables over the given accounts satisfy the invariant |
| Ledger.Books.Create | app/models/transaction.rb:36-42 | a new record is stored under the next id with its number added to its account iff it passes preparation; otherwise nothing changes |
| Ledger.Books.Append | app/models/transaction.rb:175-180 | the row goes under the next id and its number is added to its account; nothing else changes |
| Ledger.Books.Destroy | app/models/transaction.rb:200-206 | the record is removed, its partners unlinked, its number taken off its account |
| Ledger.Books.Update | app/models/transaction.rb:37-46 | an edit is saved only when preparation passes and no callback raises, and then the new state is the committed one; otherwise nothing changes; the invariant is kept when the amount change is one the callbacks follow |
| Ledger.Books.Commit | app/models/transaction.rb:43-45 | the record is written, and accounts, counterpart and stash entry reach the committed state, the stash balance only when the stash's validations accept it; the invariant is kept when the amount change is one the callbacks follow |
| Ledger.Books.LinkCounterparts | app/services/perform_transfer.rb:19-22 | `update_column` on both records: linked, no balance changes |
| Ledger.Books.RollBack | app/services/bill_transactions/generator.rb:56-74 | a database rollback returns accounts, records and the id counter to an earlier consistent state |
| Ledger.Books.Store | app/services/perform_transfer.rb:14-23 | writes the given tables; the id counter, the batches and the opening balances stay |
| Ledger.Books.PutBatch | app/services/bill_transactions/generator.rb:53 | a batch row is saved; no other table changes |
| Ledger.Books.RemoveBatch | app/controllers/transactions/batches_controller.rb:52 | a batch row is removed; no other table changes |
| Transfers.Leg | app/services/perform_transfer.rb:25-49 | a transfer leg is built locked, marked as a transfer, with the magnitude of the amount |
| Transfers.PrepareLeg | app/services/perform_transfer.rb:25-49 | a leg saved as "debit" stores −\|x\| and as "credit" \|x\|, pending unless skipped, iff its account exists and its description fits in 150 characters |
| Transfers.SaveLeg | app/services/perform_transfer.rb:36 | `save!` of a leg stores it under the next id and moves its account by the signed amount, or changes nothing |
| Transfers.WithTransfer | app/services/perform_transfer.rb:14-23 | the debit leg under n and the credit leg under n + 1, each naming the other |
| Transfers.PerformTransfer | app/services/perform_transfer.rb:7-23 | on success the source gets "Transfer to <target>" for −\|x\|, the target "Transfer from <source>" for \|x\|, same date, linked; the source loses \|x\| and the target gains \|x\|; any failure changes nothing |
| Transfers.DoTransfer | app/services/perform_transfer.rb:14-23 | both legs are saved and linked, or nothing of the transfer remains |
| Transfers.SaveLegs | app/services/perform_transfer.rb:15-16 | the debit leg then the credit leg; a failing second save rolls back the first |
| Transfers.LinkAfterSave | app/services/perform_transfer.rb:14-23 | saving both legs and linking them gives exactly the two linked legs |
| Transfers.TransferConservesBalances | app/services/perform_transfer.rb:25-49 | the source loses \|x\|, the two accounts' balances keep their sum, and every other account is untouched |
| Ledger.StashErrors | app/models/stash.rb:8-15 | valid iff the name is present, 2–50 characters and unused in the account, the goal is present and ≥ the balance, and the balance ≥ 0 |
| Stashes.ValidStashWithinGoal | app/models/stash.rb:12-15 | a valid stash holds between 0 and its goal |
| Stashes.EntriesWithout | app/models/stash.rb:6 | `dependent: :delete_all`: exactly the entries of other stashes remain, unchanged |
| Stashes.DestroyStash | app/models/stash.rb:17-41 | a balance ≤ 0 returns nothing; otherwise a non-pending locked credit of \|balance\| is saved to the account, which gains it; a failure aborts the destroy and changes nothing; a destroyed stash takes its entries |
| Bills.KindErrors | app/models/bill.rb:37-39 | no enum error iff type, category and frequency are among the declared keys |
| Bills.ValueErrors | app/models/bill.rb:40-48 | no value error iff the description is present and ≤ 150, the day is in 1..31, the amount > 0, and notes are blank or ≤ 2000 |
| Bills.OwnerErrors | app/models/bill.rb:49-51 | no owner error iff account and user exist and the account is the user's; the "must belong to your profile" error iff `account_belongs_to_user` fails |
| Bills.BillErrors | app/models/bill.rb:37-51 | valid iff all three groups of checks pass |
| Bills.ValidBillShape | app/models/bill.rb:41-51 | a valid bill has a day in 1..31, a positive amount and the user's account |
| Bills.CalendarDateFor | app/models/bill.rb:58-63 | for a day ≥ 1, the date in the reference's month and year on day min(day, days in that month); a day below 1 counts back into the previous month |
| Bills.CalendarDateClampsToMonthEnd | app/models/bill.rb:60-62 | day 31 in February 2025 is the 28th |
| Bills.CalendarDateIgnoresReferenceDay | app/models/bill.rb:58-63 | only the reference's month matters |
| Batches.AssignReference | app/models/bill_transaction_batch.rb:26-28 | an existing reference is kept; only a missing one is filled |
| Batches.AssignReferenceIdempotent | app/models/bill_transaction_batch.rb:26-28 | assigning twice is assigning once, and a reference is always present afterwards |
| Batches.BatchErrors | app/models/bill_transaction_batch.rb:9-11 | valid iff the reference is present and unused, a period or both range ends are present, and a complete range is ordered |
| Batches.HalfRangeIsInvalid | app/models/bill_transaction_batch.rb:30-35 | without a period and with one range end missing, a batch is invalid |
| Batches.MonthLabelOf | app/models/bill_transaction_batch.rb:17-22 | the period month first, then a complete range, "Custom range" iff neither |
| Generator.NormalizeRange | app/services/bill_transactions/generator.rb:128-147 | the end is never before the start; a missing end is the end of the start's month; without dates the range is a whole month |
| Generator.SingleMonthRangeAsWrittenMissesMarch | app/services/bill_transactions/generator.rb:157-159 | as written, the range of March 2025 is not recognised as one month |
| Generator.SingleMonthRangeAsWrittenNeverHolds | app/services/bill_transactions/generator.rb:157-159 | as written, the test holds for no range |
| Generator.WholeMonthExactly | app/services/bill_transactions/generator.rb:157-159 | the corrected test holds iff the range's days are exactly the days of the start's month |
| Generator.BatchAttrs | app/services/bill_transactions/generator.rb:45-51 | a whole-month range records its period month, any other range its two dates |
| Generator.BatchAttrsAsWritten | app/services/bill_transactions/generator.rb:45-51 | as written, every batch records a date range |
| Generator.GeneratedBatchValid | app/services/bill_transactions/generator.rb:45-53 | a batch from a normalised range is valid iff its new reference is present and unused |
| Generator.SignedAmount | app/services/bill_transactions/generator.rb:105-108 | the bill's magnitude; for a positive bill amount, positive iff the bill is income and negative iff it is not |
| Generator.PreviewTrxTypeKeepsAmount | app/services/bill_transactions/generator.rb:9-11 | the item's type is "debit" iff its amount is negative, and converting with it keeps the amount |
| Generator.MonthItemsExactly | app/services/bill_transactions/generator.rb:88-98 | a month's items are the bill's items for the month's dates inside the range |
| Generator.BillItemsInRange | app/services/bill_transactions/generator.rb:81-103 | every item lies within the range and is the bill's item for its date |
| Generator.BillItemsExactly | app/services/bill_transactions/generator.rb:81-103 | with occurrences in their month, a date gives an item iff it is in the range and an occurrence |
| Generator.OccurrencesForBill | app/services/bill_transactions/generator.rb:81-103 | the `while` loop computes the bill's month-by-month items |
| Generator.MonthOccurrences | app/services/bill_transactions/generator.rb:88-98 | the inner loop computes exactly the bill's items for the month's dates inside the range, in order |
| Generator.AllItemsExactly | app/services/bill_transactions/generator.rb:22-23 | every item belongs to a bill and a date in range, and every in-range occurrence gives an item |
| Generator.ItemLeqTotal | app/services/bill_transactions/generator.rb:24 | the preview order is total |
| Generator.SortItems | app/services/bill_transactions/generator.rb:24 | the result is sorted by date, description, account name, and is a permutation of the items |
| Generator.Preview | app/services/bill_transactions/generator.rb:18-25 | sorted, every item in the range, exactly the bills' items |
| Generator.FirstOfEachAreNew | app/services/bill_transactions/generator.rb:32-41 | no kept item has a key seen before, and each kept item is one of the items |
| Generator.FirstOfEachDistinct | app/services/bill_transactions/generator.rb:35-41 | no two kept items share a key |
| Generator.FirstOfEachCovers | app/services/bill_transactions/generator.rb:35-41 | every item's key was seen before or is a kept item's key |
| Generator.Dedup | app/services/bill_transactions/generator.rb:32-41 | the loop keeps the first item of each key not already existing, in order |
| Generator.PrepareItem | app/services/bill_transactions/generator.rb:58-67 | a generated record is pending, so only the account's existence can fail, and it keeps the item's amount |
| Generator.SaveItem | app/services/bill_transactions/generator.rb:58-67 | `create!` of one item stores its pending record of the batch, or changes nothing |
| Generator.CreatedShape | app/services/bill_transactions/generator.rb:57-68 | the first count items take consecutive ids, the i-th holding the i-th item, earlier records kept |
| Generator.StoreEach | app/services/bill_transactions/generator.rb:57-68 | every item is stored, in order under consecutive ids, with the accounts moved by the items' amounts, iff every item's account exists |
| Generator.CreateAll | app/services/bill_transactions/generator.rb:56-74 | iff every account exists: all records stored and the batch's count and total set to the number and sum of the items; otherwise records, balances and batches as before |
| Generator.Generate | app/services/bill_transactions/generator.rb:27-77 | nothing iff no item is new; batch errors iff the new batch is invalid; otherwise a batch whose records are the new items in order, under consecutive ids, with count and total, or, when an account is missing, an empty batch and no records |
| Generator.StoreBatch | app/services/bill_transactions/generator.rb:53-74 | the batch is kept in both outcomes; with every account present it holds all records, its count and total; otherwise no record remains |
| Generator.GeneratedRecords | app/services/bill_transactions/generator.rb:32-73 | each stored record is pending, of the batch, with the batch's reference and the item's fields; no two share a key and none has an existing key |
| BatchesController.ParsedRange | app/controllers/transactions/batches_controller.rb:71-81 | a month gives that whole month; otherwise the defaults apply and the end is never before the start |
| BatchesController.ParsedRangeAgreesWithGenerator | app/controllers/transactions/batches_controller.rb:71-81 | the controller and the generator read the same parameters into the same range |
| BatchesController.OrderedRangePassesThrough | app/controllers/transactions/batches_controller.rb:30-31 | the generator leaves the controller's ordered range as it is |
| BatchesController.NextOccurrenceFor | app/controllers/transactions/batches_controller.rb:119-129 | the first occurrence of the first month with one among the current and next eleven, else today; with occurrences in their month it lies in those twelve months |
| BatchesController.DefaultRange | app/controllers/transactions/batches_controller.rb:93-103 | the whole month of the bill's next occurrence, or the current month without a bill |
| BatchesController.Create | app/controllers/transactions/batches_controller.rb:29-41 | a notice names the new batch to undo and its positive number of records, which the batch counts; an alert changes nothing; a failure leaves records and balances as they were |
| BatchesController.SweptRecords | app/controllers/transactions/batches_controller.rb:50-53 | destroying the batch's records removes exactly those records; others keep account, amount, batch and pending state |
| BatchesController.SweptBalances | app/controllers/transactions/batches_controller.rb:50-53 | each account loses exactly what the removed records had booked to it |
| BatchesController.BatchBookedCreated | app/services/bill_transactions/generator.rb:57-68 | what a fresh batch books to an account is exactly the net of its items' moves |
| BatchesController.GenerateThenUndoRestoresBalances | app/controllers/transactions/batches_controller.rb:43-56 | undoing a freshly generated batch restores every balance |
| BatchesController.GenerateThenUndoRestoresRecords | app/controllers/transactions/batches_controller.rb:43-56 | undoing a freshly generated batch leaves exactly the records there were before it |
| BatchesController.UndoRemovesBatch | app/controllers/transactions/batches_controller.rb:50-53 | undo removes exactly the batch's records |
| BatchesController.Destroy | app/controllers/transactions/batches_controller.rb:43-56 | not found unless the batch is the user's; refused, with nothing changed, iff one of its records was reviewed; otherwise every record of the batch is destroyed with its balance moves and the batch is removed |
| BillsHelper.BillTypeKeysAreTheTypes | app/helpers/bills_helper.rb:5 | the group keys are the four bill types in declaration order |
| BillsHelper.OfTypeExactly | app/helpers/bills_helper.rb:6 | the selection for a type holds exactly the bills of that type, each as often as it occurs |
| BillsHelper.GroupedBillsByType | app/helpers/bills_helper.rb:4-8 | one group per bill type, in the declared order |
| BillsHelper.CountsAddUp | app/helpers/bills_helper.rb:4-8 | bills of the four types are counted once each across the groups |
| BillsHelper.GroupsPartition | app/helpers/bills_helper.rb:4-8 | each bill appears under its own type and no other; with valid types the groups hold all bills |
| BillsHelper.EachSliceFlatten | app/helpers/bills_helper.rb:14 | `each_slice` loses and reorders nothing |
| BillsHelper.CalendarStart | app/helpers/bills_helper.rb:12 | a Sunday on or before the first of the month, less than a week before it |
| BillsHelper.CalendarEnd | app/helpers/bills_helper.rb:13 | a Saturday on or after the last of the month, less than a week after it |
| BillsHelper.CalendarSpan | app/helpers/bills_helper.rb:12-14 | the calendar runs forward from its start and spans a whole number of weeks |
| BillsHelper.CalendarWeeksShape | app/helpers/bills_helper.rb:10-15 | the weeks are full weeks of seven consecutive days from the start to the end |
| BillsHelper.CalendarWeekdays | app/helpers/bills_helper.rb:10-15 | every week runs Sunday to Saturday |
| BillsHelper.CalendarWeeksCoverMonth | app/helpers/bills_helper.rb:10-15 | every day of the month is in some week |
| BillsHelper.TwoDayCount | app/helpers/bills_helper.rb:37-39 | at most 2; 2 iff both day fields are set, 0 iff neither is |
| Reporting.NewReport | app/services/reporting/spending_by_category.rb:7-13 | the start defaults to the first of the month, the end to today, and blank ids are dropped |
| Reporting.PeriodRows | app/services/reporting/spending_by_category.rb:26-40 | exactly the reviewed debits of the user's active accounts in the window, narrowed by non-empty account and category lists |
| Reporting.PreviousWindow | app/services/reporting/spending_by_category.rb:42-48 | ends the day before the start and is as long as the current window |
| Reporting.PreviousWindowDisjoint | app/services/reporting/spending_by_category.rb:42-48 | no day is in both windows |
| Reporting.PreviousWindowSameLength | app/services/reporting/spending_by_category.rb:82-84 | day k of one window corresponds to day k of the other |
| Reporting.SpendingGroups | app/services/reporting/spending_by_category.rb:51-59 | the groups are exactly the labels that occur, each the sum of its rows' absolute amounts |
| Reporting.LabelTotalAbsent | app/services/reporting/spending_by_category.rb:77-88 | a category that occurs in no row of a period totals zero there |
| Reporting.UncategorizedGrouped | app/services/reporting/spending_by_category.rb:55 | a row without a category counts under "Uncategorized" |
| Reporting.SortedUnion | app/services/reporting/spending_by_category.rb:71 | strictly sorted and holding exactly the distinct inputs |
| Reporting.SortedIsUnique | app/services/reporting/spending_by_category.rb:71 | two strictly sorted lists with the same elements are equal |
| Reporting.CategoryNames | app/services/reporting/spending_by_category.rb:69-72 | the sorted union of both periods' labels |
| Reporting.AlignedTotals | app/services/reporting/spending_by_category.rb:77-88 | each entry is its category's total, zero when absent |
| Reporting.SumAligned | app/services/reporting/spending_by_category.rb:92-94 | summing the aligned array is summing the totals of the listed categories |
| Reporting.SumLabelsTotal | app/services/reporting/spending_by_category.rb:92-94 | when every label of the rows is listed, the listed categories' totals add up to the total of the rows |
| Reporting.TotalSign | app/services/reporting/spending_by_category.rb:93-96 | a total is never negative; over debits it is positive iff there is a row |
| Reporting.PercentChange | app/services/reporting/spending_by_category.rb:96 | zero unless the previous total is positive; otherwise 1000 × difference / previous (tenths of a percent) rounded to the nearest integer with halves away from zero, and never of the opposite sign to the difference |
| Reporting.FormatPeriodLabel | app/services/reporting/spending_by_category.rb:106-112 | a month label iff both days are in the same month and year |
| Reporting.DefaultPeriodLabel | app/services/reporting/spending_by_category.rb:7-10 | the default report is labelled with its month |
| Reporting.Call | app/services/reporting/spending_by_category.rb:15-22 | categories strictly sorted; both arrays as long as the category list; difference = current − previous; percentage zero without previous spending |
| Reporting.CallMeaning | app/services/reporting/spending_by_category.rb:15-104 | categories are the labels of either period; each entry is that period's sum; totals sum the arrays; the percentage is zero when no previous row counts |
| Categories.NormalizeName | app/models/category.rb:19-21 | the name squished: no leading, trailing or doubled spaces |
| Categories.NormalizeNameIdempotent | app/models/category.rb:19-21 | normalising twice is normalising once |
| Categories.NameErrors | app/models/category.rb:11-12 | errors iff the name is blank, longer than 80, or used by another category of the same owner ignoring case |
| Categories.ForUser | app/models/category.rb:14 | the global categories and the user's own |
| Categories.ForUserScope | app/models/category.rb:14 | every global and every own category, never another user's |
| Categories.Normalize | app/models/category_lookup.rb:14-16 | lower case and squished |
| Categories.NormalizeIdempotent | app/models/category_lookup.rb:14-16 | normalising twice is normalising once |
| Categories.NormalizeDescription | app/models/category_lookup.rb:47-49 | a blank value falls back to the previous one (or "") before normalising |
| Categories.NormalizedDescriptionStays | app/models/category_lookup.rb:47-49 | a normalised, present description is kept as it is |
| Categories.UpsertsCountedAsWritten | app/models/category_lookup.rb:22-24 | as written, after k upserts the count is k + 1 |
| Categories.UpsertsCounted | app/models/category_lookup.rb:22-24 | with the corrected start, after k upserts the count is k |
| Categories.FindExact | app/models/category_lookup.rb:34 | some lookup of the user for exactly that description, or none iff there is none |
| Categories.FindExactUnique | app/models/category_lookup.rb:34 | with unique lookups, the one found is the matching one |
| Categories.BestFuzzy | app/models/category_lookup.rb:37-42 | a candidate of similarity ≥ 0.3 that no other candidate outranks, or none iff there is none |
| Categories.SuggestFor | app/models/category_lookup.rb:30-43 | none for a blank description; the exact match if any; only then the best fuzzy match |
| Categories.ExactBeforeFuzzy | app/models/category_lookup.rb:34-35 | an exact match wins over any fuzzy candidate |
| Categories.ReassignFor | app/controllers/categories_controller.rb:118-122 | only the user's transactions in the category move; every other row stays |
| Categories.ClearAll | app/controllers/categories_controller.rb:153 | every transaction in the category loses it; others stay |
| Categories.MoveLookups | app/controllers/categories_controller.rb:125 | only the user's lookups in the category move; others stay |
| Categories.DropLookups | app/controllers/categories_controller.rb:145-156 | exactly the lookups in the category (of the user, or of everybody) go |
| Categories.PostingsReassign | app/controllers/categories_controller.rb:118-122 | reassigning transactions to an existing category (or none) keeps every posting pointing at a live category |
| Categories.LookupsMove | app/controllers/categories_controller.rb:125 | moving lookups to an existing category keeps them well formed and pointing at live categories |
| Categories.LookupsDrop | app/controllers/categories_controller.rb:145-156 | dropping lookups keeps the rest valid; dropping everybody's leaves none pointing at the category |
| Categories.DeleteCustomKeeps | app/controllers/categories_controller.rb:151-160 | after clearing its transactions, a custom category can go without leaving a dangling reference |
| Categories.UniquePut | app/models/category_lookup.rb:22-26 | storing under the found id or a fresh one keeps one lookup per user and description |
| Categories.InsertKeeps | app/models/category.rb:9-12 | a new valid category under a fresh id keeps the tables valid |
| Categories.RenameKeeps | app/controllers/categories_controller.rb:50 | a valid rename keeps the tables valid |
| Categories.MoveToCopyKeeps | app/controllers/categories_controller.rb:118-128 | moving the user's rows to the copy and hiding the original keeps the tables valid |
| Categories.DeleteGlobalKeeps | app/controllers/categories_controller.rb:136-149 | the global delete keeps the tables valid |
| Categories.DeleteCustomTablesKeep | app/controllers/categories_controller.rb:151-160 | the custom delete keeps the tables valid |
| Categories.UpsertLookup | app/models/category_lookup.rb:22-27 | the user's row for the description, or a new row under a fresh id, takes the category, one more use and the time; no other row changes |
| Categories.UpsertFinds | app/models/category_lookup.rb:22-35 | after an upsert, the exact lookup finds the saved row |
| Categories.UpsertKeeps | app/models/category_lookup.rb:18-28 | an upsert keeps the tables valid |
| CategoryTables.Tables.constructor | app/models/category.rb:3-7 | empty tables are valid |
| CategoryTables.Tables.Insert | app/models/category.rb:9-12 | saved under a fresh id iff the normalised name has no errors; only categories change |
| CategoryTables.Tables.Create | app/controllers/categories_controller.rb:20-39 | always a custom category of the current user; invalid iff the name has errors, and then nothing changes |
| CategoryTables.Tables.RenameGlobal | app/controllers/categories_controller.rb:104-134 | refused with nothing changed when the user has the name; otherwise one new custom category, only the user's transactions and lookups moved to it, the original hidden for the user |
| CategoryTables.Tables.MoveToCopy | app/controllers/categories_controller.rb:118-128 | exactly the user's rows move and the original is hidden for them |
| CategoryTables.Tables.DeleteGlobal | app/controllers/categories_controller.rb:136-149 | only the user's transactions lose the category and their lookups go; it is hidden for them and not destroyed |
| CategoryTables.Tables.DeleteCustom | app/controllers/categories_controller.rb:151-160 | all its transactions lose it, all its lookups go, and it is removed |
| CategoryTables.Tables.Update | app/controllers/categories_controller.rb:44-62 | not found outside the user's scope; a global category is renamed through a copy; a custom one in place when valid |
| CategoryTables.Tables.Destroy | app/controllers/categories_controller.rb:64-79 | a global category is hidden for the user, a custom one deleted; missing outside the scope |
| CategoryTables.Tables.Upsert | app/models/category_lookup.rb:18-28 | nothing iff the description is blank or user or category is missing; otherwise the stored rows are `UpsertLookup`'s and the exact lookup finds the returned row |
| CategoryTables.Tables.Store | app/models/category_lookup.rb:22-27 | the lookups and next id become `UpsertLookup`'s, and the row is found again |
| CategorySuggester.Confidence | app/services/category_suggester.rb:36 | at most 0.95 and at most 0.6 + boost, equal to one of them |
| CategorySuggester.LookupSuggestion | app/services/category_suggester.rb:29-38 | none iff no lookup or its category is gone; otherwise the lookup's category, from the lookup, with confidence ≤ 0.95 |
| CategorySuggester.Suggest | app/services/category_suggester.rb:11-19 | the AI client is asked iff no lookup suggestion and the description is not blank, with the normalised description and the user's categories; otherwise the lookup's answer |
| CategorySuggester.ExactRuleAnswers | app/services/category_suggester.rb:11-13 | an exact rule answers and the AI client is not asked |
| CategorySuggester.BlankGetsNothing | app/services/category_suggester.rb:15-16 | a blank description gets nothing and no AI call |
| CategorySuggester.DanglingRuleFallsThrough | app/services/category_suggester.rb:33-34 | a rule whose category is gone goes to the AI client |
| TransactionDecorator.Debit | app/decorators/transaction_decorator.rb:9-11 | an amount only for negatives, as their magnitude |
| TransactionDecorator.Credit | app/decorators/transaction_decorator.rb:13-15 | an amount only for positives |
| TransactionDecorator.OneColumn | app/decorators/transaction_decorator.rb:9-15 | at most one column shows the amount, a non-zero amount exactly one, as its magnitude |
| TransactionDecorator.AmountDecorated | app/decorators/transaction_decorator.rb:17-21 | "Pending" iff nil; otherwise the magnitude |
| TransactionDecorator.AmountDecoratedDropsSign | app/decorators/transaction_decorator.rb:17-21 | x and −x display alike |
| TransactionDecorator.AmountColor | app/decorators/transaction_decorator.rb:27-30 | grey iff nil, danger iff negative, success iff ≥ 0 |
| TransactionDecorator.ColorMatchesColumns | app/decorators/transaction_decorator.rb:9-30 | danger iff the debit column shows the amount |
| TransactionDecorator.TrxTypeValueForm | app/decorators/transaction_decorator.rb:40-46 | "debit" for a new record; nil without an amount; else by the sign |
| TransactionDecorator.FormTypeIsTransactionType | app/decorators/transaction_decorator.rb:40-46 | the form preselects the type `transaction_type` gives |
| TransactionDecorator.FormTypeKeepsAmount | app/decorators/transaction_decorator.rb:40-46 | submitting the preselected type keeps the amount |
| TransactionDecorator.Shorten | app/decorators/transaction_decorator.rb:107-125 | "Pending Receipt" for nil; longer than the limit: the first limit + 1 characters and "..."; otherwise unchanged |
| TransactionDecorator.TrxDescDisplay | app/decorators/transaction_decorator.rb:107-110 | the rule with limit 50 and a 51-character prefix |
| TransactionDecorator.TrxDescDisplayMobile | app/decorators/transaction_decorator.rb:112-115 | the rule with limit 20 and a 21-character prefix |
| TransactionDecorator.ShortenIdempotent | app/decorators/transaction_decorator.rb:107-125 | shortening what is shown changes nothing |
| Documents.SortDirection | app/helpers/documents_helper.rb:4-13 | "desc" iff the column is the current sort and the direction is "asc"; "asc" otherwise |
| Documents.SortLinkToggles | app/helpers/documents_helper.rb:8-9 | following the sorted column's link twice returns to the start |
| Documents.TaxYearErrors | app/models/document.rb:11 | no error iff a whole year strictly between 1900 and 2100 |
| Documents.DocumentErrors | app/models/document.rb:9-12 | each error iff its check fails; no tax-year error for other categories |
| Documents.ValidDocument | app/models/document.rb:7-12 | valid iff one of the six categories, a date, a tax year in range for taxes, and an attachment when saved |
| Documents.TaxYearOnlyForTaxes | app/models/document.rb:11-22 | the tax year does not matter outside "Taxes" |
| Documents.LevelOf | app/models/document.rb:24-33 | User iff "User", Account iff "Account", else Unknown |
| Documents.AccountName | app/models/document.rb:35-44 | the account's name, "N/A", or "Unknown" by level |
| Documents.ByCategory | app/models/document.rb:14 | no filter for a blank category, else exactly that category's rows |
| Documents.ByTaxYear | app/models/document.rb:15 | no filter without a year, else exactly that year's rows |
| Documents.ByDateRange | app/models/document.rb:16-18 | no filter unless both ends are given, else the rows within both |
| Documents.FiltersCommute | app/models/document.rb:14-15 | the filters commute and only narrow |
| TransactionsController.UpdateTrxType | app/controllers/transactions_controller.rb:66-72 | a quick receipt without the parameter gets "debit"; a given parameter wins; otherwise "debit" iff the amount is negative |
| TransactionsController.UpdateWithoutTypeKeepsAmount | app/controllers/transactions_controller.rb:71 | without the parameter, saving keeps the amount |
| TransactionsController.QuickReceiptUpdateIsDebit | app/controllers/transactions_controller.rb:67-68 | a quick receipt without the parameter becomes −\|x\| |
| TransactionsController.AccountChangedIff | app/controllers/transactions_controller.rb:81-82 | iff an `account_id` is given and its `to_i` differs |
| TransactionsController.SelectBranch | app/controllers/transactions_controller.rb:379-404 | each branch iff its keys are present and no earlier branch applies |
| TransactionsController.JsonParams | app/controllers/transactions_controller.rb:379-404 | each branch permits exactly its fields, with the values sent |
| TransactionsController.DescriptionWins | app/controllers/transactions_controller.rb:391-392 | a description outside the full form changes only the description |
| TransactionsController.JsonParamsFromRequest | app/controllers/transactions_controller.rb:379-404 | no field is set to a value the request did not send |
| TransactionsController.FilterParams | app/controllers/transactions_controller.rb:374-376 | exactly the description and account id that were sent |
| TransactionsController.FilterSession.constructor | app/controllers/transactions_controller.rb:428-434 | a new session holds no account and no filters |
| TransactionsController.SearchByDescription | app/controllers/transactions_controller.rb:411-413 | no filter unless a present description filter is stored; then the rows containing it, ignoring case |
| TransactionsController.FilterSession.CheckAccountChange | app/controllers/transactions_controller.rb:428-434 | filters cleared iff the stored account is missing or different |
| TransactionsController.FilterSession.Index | app/controllers/transactions_controller.rb:14-16 | after the check, the request's filters are merged over the stored ones |
| TransactionsController.RequestFilterWins | app/controllers/transactions_controller.rb:16 | a description sent with the request is the one searched for |
| Text.SquishIsSquished | app/models/category.rb:20 | `squish` leaves no leading, trailing or doubled spaces |
| Text.SquishIdempotent | app/models/category.rb:20 | squishing twice is squishing once |
| Text.SquishKeepsLower | app/models/category_lookup.rb:15 | squishing lower-case text keeps it lower case |
| Text.Strip | app/services/bill_transactions/generator.rb:120-125 | `strip`: no whitespace at either end, empty exactly for a blank string |
| Text.StripIsSlice | app/services/bill_transactions/generator.rb:125 | what `strip` keeps is a slice of the text, and everything cut off either end is whitespace |
| Text.DecimalCents | app/models/transaction.rb:126 | a match of `-?\d+(\.\d+)?` starts with no whitespace and its value in cents has the text's sign |
| Text.DecimalCentsRoundTrip | app/models/transaction.rb:126-130 | the plain decimal text of any amount of cents, negative ones included, reads back as that amount |
| Text.ToI | app/controllers/transactions_controller.rb:82 | `to_i`: zero when no digits follow the leading whitespace and sign |
| Text.LeadingDigits | app/controllers/transactions_controller.rb:82 | the digits `to_i` reads: empty iff the text does not start with a digit, never longer than the text |
| Text.UnderscoreSkipped | app/controllers/transactions_controller.rb:82 | `to_i` skips a single underscore between digits ("1_2" reads as 12) |
| Text.UnderscoreEnds | app/controllers/transactions_controller.rb:82 | a doubled or trailing underscore ends the number ("1__2" and "1_" read as 1) |
| Text.ToIRoundTrip | app/controllers/transactions_controller.rb:82 | `to_i` reads back every integer written in decimal, so a submitted account id compares as the number it was |
| Text.StrLessTransitive | app/services/reporting/spending_by_category.rb:71 | the string order of `sort` is transitive |
| Text.StrLessTotal | app/services/reporting/spending_by_category.rb:71 | the string order is total |
| Text.ContainsAt | app/controllers/transactions_controller.rb:412 | a substring occurrence at a position shows containment |
| Calendar.DaysInMonth | app/models/bill.rb:60 | 28 to 31 days, 29 in February iff a leap year |
| Calendar.AddDays | app/helpers/bills_helper.rb:14 | the date n days later in day numbers, as `(start..end).to_a` steps |
| Calendar.NextPrevInverse | app/services/reporting/spending_by_category.rb:44 | the day before the next day, and the day after the previous day, are the date itself |
| Calendar.MonthBounds | app/models/bill_transaction_batch.rb:17-22 | a date is in a month iff it lies between that month's first and last day |
| Calendar.BeginningOfMonth | app/services/bill_transactions/generator.rb:86 | the first of the same month |
| Calendar.EndOfMonth | app/services/bill_transactions/generator.rb:137 | the last day of the same month |
| Calendar.NextMonth | app/services/bill_transactions/generator.rb:99 | the following month, on the same day clamped to that month's length |
| Calendar.BeginningOfWeek | app/helpers/bills_helper.rb:12 | a Sunday on or before the date, less than a week before |
| Collections.Select | app/helpers/bills_helper.rb:6 | `select` keeps exactly the elements that pass, as often as they occur |
| Wrappers.Compact | app/helpers/bills_helper.rb:38 | `compact`: the present values, and only those |
| Calendar.EndOfWeek | app/helpers/bills_helper.rb:13 | a Saturday on or after the date, less than a week after |

## Left out

- Ledger.Books.Update: applies the corrected transfer moves of the first row under "## Findings" (TransactionRules.SaveMovesMatchShares). As written, a record moved to another account with a new amount also charges the old account with the new amount (TransactionRules.SaveMovesAsWrittenDoubleCounts); the two agree when the account or the amount is unchanged (TransactionRules.SaveMovesAgreeWithoutMove).
- Ledger.Books.Commit: applies the corrected transfer moves, as Ledger.Books.Update does; with the moves as written its balances drift whenever an edit changes both the account and the amount.
- Ledger.CommitKeepsBalances: holds of the corrected transfer moves; of the moves as written it holds only for edits that leave the account or the amount unchanged.
- Ledger.CommitKeepsValid: holds of the corrected transfer moves, under the same restriction as Ledger.CommitKeepsBalances.
- Generator.Generate: uses the corrected BatchAttrs of the second row under "## Findings". As written, every batch stores `range_start` and `range_end` (Generator.BatchAttrsAsWritten), so a batch for 2025-03-01..2025-03-31 is labelled "Mar 1, 2025 - Mar 31, 2025" where the model records the period March 2025.
- Generator.GeneratedBatchValid: is about the batch built from the corrected BatchAttrs, as Generator.Generate is; validity does not depend on which of the two attribute sets is stored.
- Categories.UpsertLookup: uses the corrected count of the third row under "## Findings": a new lookup stores `usage_count` 1. As written the first upsert stores 2 (Categories.UpsertsCountedAsWritten), and every later count is one higher, so the suggester's confidence `0.6 + log(1 + usage_count) / 5` (a parameter in this model) is computed from a count one higher than the model's.
- CategoryTables.Tables.Upsert: stores Categories.UpsertLookup's row, so it carries the same corrected count.
- CategoryTables.Tables.Store: writes Categories.UpsertLookup's row, so it carries the same corrected count.
- TransactionRules.ErrorFires: numericality is modelled as the plain decimal pattern `-?digits(.digits)?` after stripping. Rails' `numericality: true` also accepts forms such as "+5", "1e3", ".5" and "1_000"; the model reports those as not a number.
- TransactionRules.ParsesWhenNoError: reads only the plain decimal pattern, for the reason given for TransactionRules.ErrorFires.
- TransactionRules.ReviewedRecordShape: a reviewed amount in one of Rails' other numeric forms is rejected by the model, for the reason given for TransactionRules.ErrorFires.
- Ledger.PreparedRecord: an amount in one of Rails' other numeric forms is treated as text, for the reason given for TransactionRules.ErrorFires.
- Bills.KindErrors: a non-blank value that is not a declared key of a Rails enum raises `ArgumentError` on assignment; the model reports it as a validation error of that field instead.
- Text.Strip: whitespace is ASCII space, tab, newline, vertical tab, form feed and carriage return. Ruby's `strip` also removes NUL at either end, and other Unicode spaces are not removed.
- Categories.Normalize: `downcase` changes ASCII letters only and `squish` collapses ASCII whitespace only; Ruby also folds non-ASCII letters and treats Unicode spaces as whitespace.
- Categories.NormalizeName: `squish` collapses ASCII whitespace only; Rails also collapses Unicode spaces.
- Categories.NameErrors: blankness and the case-insensitive comparison are ASCII only; a name of Unicode spaces is blank in Rails, and non-ASCII letters compare case-insensitively there.
- Ledger.Books.Update: keeps `Valid()` only when every stored amount change is one the balance callbacks follow. The edit callback ignores a change from a number to nil or text, and from text to a number, so the balances can then drift from the records.
- Generator.SortItems: ties under (date, description, account name) are kept in input order; Ruby's `sort_by` does not promise any order for ties.
- Generator.ExistingKeys: records whose amount is not a number give no key, as `next if amount.nil?` does for nil. In the model a pending record keeps a text amount as it was written, the value numericality sees; Rails' decimal column would cast that text on save (to 0 for "abc"). ExistingKeys skips such records rather than keying them by the cast value.
- `Bill#occurrences_for_month` and `Bill#monthly_normalized_amount` are not part of this model. The first is a parameter; where needed, a premise says its dates lie in the month asked about.
- `SecureRandom.uuid`, the current date and time, and database ids are inputs. Ids come from one counter per table.
- `has_many :transactions, dependent: :nullify` of a batch: an undone batch's records are destroyed first, so there is nothing left to nullify.
- TransactionRules.CleanIff: `trx_date` is a non-optional date in the model, so `validates :trx_date, presence: true` and the date check of `require_fields_when_reviewed` are not modelled; a record without a date is never considered.
- `Category.transfer_category` is not part of this model; unstash takes the transfer category as a parameter, and a missing one aborts the destroy.
- `HiddenCategory` is a set of (user, category) pairs, so `find_or_create_by!` cannot make a second row.
- Bills.ValueErrors: `only_integer` on `day_of_month` is implied by the integer type.
- `to_d.abs` and `to_f` work on integer cents; decimal places beyond two are not modelled.
- BillsHelper.GroupedBillsByType: the hash keyed by type is an ordered sequence of (type, bills) pairs.
- The `index`, `show`, `new` and `edit` actions, `generation_params`, and the view strings of `summary_detail_for` are not modelled beyond the count they use.
- BatchesController.Destroy: `where.not(pending: true).count` is modelled as the existence of a non-pending record of the batch.
- Reporting: SQL becomes filters over a sequence of rows. Blank ids are `None`. BigDecimal `round(2)` is the identity on cents, and `strftime` labels become the dates they show.
- Categories.ForUser: includes the globals the user has hidden, as `for_user` does; the repository's model spec expects them excluded.
- pg_trgm `similarity` and the logarithm in the confidence are parameters; the AI client is a function parameter.
- Association definitions outside the shown models (`User#categories`, `Category#category_lookups`) are taken as their names say.
- The `name` parameter of a rename is never nil.
- Categories.FindExact and Categories.BestFuzzy: ties go to the lowest id; the database promises no order.
- The order of `available_categories` is dropped; the AI client gets a set.
- Currency formatting becomes the number of cents shown.
- `debit`/`credit` on a nil amount raise in the decorator; those two functions take an integer.
- TransactionsController.SearchByDescription: LIKE wildcards in the filter are ordinary characters, and `UPPER` is modelled by ASCII `downcase`.
- The non-JSON branch of `transaction_params` is not modelled beyond the fields `Edit` carries.
- Documents.ByTaxYear: the text-to-integer cast of the `year` parameter is done by the caller.
- Active Storage attachments are a flag; uploads and purges are left out.
- Other decorator helpers (`memo_decorated`, `filename_size`, date formats, button labels) are left out.
- The JSON response fields of `update` are left out.

## Findings

| source | as written | input that shows it | evidently intended | confidence | as-written member | corrected member |
|---|---|---|---|---|---|---|
| app/models/transaction.rb:182-235 | an update that both moves a record to another account and changes its amount first applies new − old to the new account, then moves the new amount out of the old account | a −10.00 record in account 1 moved to account 2 and changed to −20.00: account 1 gains 20.00 where its records changed by +10.00 | the old account loses the old amount and the new account gains the new amount | high, not executed | TransactionRules.SaveMovesAsWrittenDoubleCounts | TransactionRules.SaveMovesMatchShares |
| app/services/bill_transactions/generator.rb:157-159 | `single_month_range?` compares the first of the start's month with the last of the end's month, which are never the same day | the range 2025-03-01..2025-03-31 | a range covering exactly one calendar month records that month as its period | high, not executed | Generator.SingleMonthRangeAsWrittenMissesMarch | Generator.WholeMonthExactly |
| app/models/category_lookup.rb:22-24 | a new lookup starts from the column default 1 and is incremented, so the first upsert stores 2 | one `upsert_for` of a new description | the first upsert stores 1 and the count equals the number of upserts | medium, not executed | Categories.UpsertsCountedAsWritten | Categories.UpsertsCounted |
