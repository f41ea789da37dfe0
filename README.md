# Monthly budget ledger: a verified model

This project models the core of a personal budgeting application. A user keeps
one record per calendar month. Each record holds income and expense
**categories**. Each category holds **entries**: an amount, a note and, for
expenses, a need/want/neutral tag. A category carries the sum of its entries
and a "breakdown" comment such as `500(Rent)+20(No note)`. The month carries
its total income, its total expense and the **carry-forward** (their
difference).

The model covers:

- **The month service.** It creates a month, carrying a positive balance over
  from the previous month and seeding one expense per recurring template. It
  also adds, updates and deletes entries, and deletes whole categories.
- **The recurring-expense service.** It lists, creates, updates and deletes
  expense templates.
- **The table-controls hook.** It searches, filters and sorts table rows, and
  keeps the sort, filter and query state.
- **The client validators and the transaction form's submit guard.**

Module layout:

| file | module | contents |
|---|---|---|
| `wrappers.dfy` | `Wrappers` | `Option`, `Result` |
| `js_array.dfy` | `JsArray` | `findIndex`, `filter`, a summing `reduce`, `join` |
| `js_text.dfy` | `JsText` | `trim`, `toLowerCase`, `includes`, `localeCompare`, number-to-text, `parseFloat` |
| `ledger.dfy` | `Ledger` | entries, categories, month records; the per-side edits as pure functions with their lemmas |
| `recurring.dfy` | `Recurring` | the template store as a class over a sequence of rows |
| `month_rules.dfy` | `MonthRules` | each month-service operation as a function of the stored months and the id counter, with its lemmas |
| `months.dfy` | `Months` | the month service as a class whose methods are proved equal to those functions |
| `table_controls.dfy` | `TableControls` | the search, filter and sort pipeline and the hook's state as a class |
| `validation.dfy` | `Validation` | the form validators |
| `transaction_form.dfy` | `TransactionForm` | `validateAndSubmit` |

How the month model is built:

- The month store is a sequence of month records in creation order.
  `findById` and `findOne` return the first match.
- The id generator is a counter owned by the service. Ids are issued in the
  source's order:
  - adding an entry: the entry id, then the category id;
  - the carried-over category: the category id, then its entry id;
  - each seeded template: the entry id, then the category id;
  - the month's own id comes last.
- The service's invariant `StoreOk` says:
  - every month is well formed (every category's amount is the sum of its
    entries, and the totals are the sums of the category amounts);
  - category ids are unique within a side;
  - every month id, category id and entry id in the store is below the counter;
  - month ids increase along the store;
  - no two months share a (user, year, month) slot.

## Model

| member | source | states |
|---|---|---|
| Ledger.WithEntries | server/src/services/MonthDataService.ts:186-196 | a category whose entries change keeps its id and name, its amount becomes the sum of the new entries and its comment their breakdown |
| Ledger.EntryTexts | server/src/services/MonthDataService.ts:193-195 | one `amount(note)` text per entry, "No note" standing in for an empty note |
| Ledger.BreakdownAppend | server/src/services/MonthDataService.ts:192-196 | appending an entry appends `+` and the entry's text to a non-empty breakdown |
| Ledger.RecalculateTotals | server/src/services/MonthDataService.ts:140 | the totals become the sums of the category amounts and the carry-forward their difference; nothing else in the month changes |
| Ledger.RecalculateIdempotent | server/src/services/MonthDataService.ts:140 | recalculating a month whose totals already agree changes nothing, and recalculating twice is recalculating once |
| Ledger.FindByName | server/src/services/MonthDataService.ts:166-168 | the first category with that name, or -1 exactly when none has it |
| Ledger.AddToSideShape | server/src/services/MonthDataService.ts:177-206 | an existing category of that name gains the entry at the end and a regenerated comment while every other category is unchanged; otherwise one new category holding only the entry is appended |
| Ledger.AddToSideTotal | server/src/services/MonthDataService.ts:177-206 | adding an entry raises the side's category sum by exactly its amount |
| Ledger.AddToSideOk | server/src/services/MonthDataService.ts:170-206 | adding keeps every category well formed and the category ids unique, with every category and entry id below the counter |
| Ledger.EntryIndex | server/src/services/MonthDataService.ts:238 | the first entry with that id, or -1 exactly when none has it |
| Ledger.HolderIndex | server/src/services/MonthDataService.ts:235-262 | the first category holding an entry with that id, or -1 exactly when no category does |
| Ledger.UpdatedEntry | server/src/services/MonthDataService.ts:439-444 | the updated entry keeps its id and takes the new amount and note; an expense entry takes the tag or neutral, and an income entry keeps its own tag |
| Ledger.UpdateAtShape | server/src/services/MonthDataService.ts:238-255 | only the one entry changes; the holding category's amount and comment are recomputed and every other category is unchanged |
| Ledger.UpdateAtTotal | server/src/services/MonthDataService.ts:238-255 | the side's sum moves by the new amount minus the old one |
| Ledger.UpdateAtOk | server/src/services/MonthDataService.ts:238-255 | the update keeps the side well formed and its category and entry ids below the counter |
| Ledger.RemoveCategory | server/src/services/MonthDataService.ts:339 | no remaining category has the deleted id |
| Ledger.RemoveAbsentCategory | server/src/services/MonthDataService.ts:339 | deleting an id no category has changes nothing |
| Ledger.RemovePresentCategory | server/src/services/MonthDataService.ts:534 | with unique ids, deleting a category's id removes exactly that position |
| Ledger.RemoveCategoryMembers | server/src/services/MonthDataService.ts:534 | a category remains iff it was there and has another id |
| Ledger.RemoveCategoryOk | server/src/services/MonthDataService.ts:339 | deleting a category keeps the side well formed |
| Ledger.RemoveCategoryTotal | server/src/services/MonthDataService.ts:534-535 | the side's sum drops by the removed category's amount, or by nothing when the id is unknown |
| Ledger.DeleteAtShape | server/src/services/MonthDataService.ts:488-504 | deleting a category's last entry removes the category; otherwise only that entry goes and the category's amount and comment are recomputed |
| Ledger.DeleteAtTotal | server/src/services/MonthDataService.ts:488-504 | the side's sum drops by the deleted entry's amount |
| Ledger.DeleteAtOk | server/src/services/MonthDataService.ts:287-311 | deleting an entry keeps the side well formed and its category and entry ids below the counter |
| MonthRules.Predecessor | server/src/services/MonthDataService.ts:65-71 | for months 0 to 11 it is the calendar's previous month (December of the previous year for January); below 0 it is December of the previous year, and from 12 up it is month minus one |
| MonthRules.FindSlot | server/src/services/MonthDataService.ts:59-62 | the first month of that user, year and month, or -1 exactly when there is none |
| MonthRules.FindMonth | server/src/services/MonthDataService.ts:44-52 | the first month with that id, or -1 exactly when there is none |
| MonthRules.GetMonth | server/src/services/MonthDataService.ts:44-52 | a stored month with that id, or MONTH_NOT_FOUND exactly when no month has it |
| MonthRules.StoreWriteBack | server/src/services/MonthDataService.ts:208-210 | saving a changed month in its place keeps the store invariant |
| MonthRules.CarryIn | server/src/services/MonthDataService.ts:73-83 | the carried amount is never negative; it is positive only if the previous month exists and is 0 when it does not |
| MonthRules.CarryInFromPredecessor | server/src/services/MonthDataService.ts:73-83 | with one month per slot, the carried amount is the previous month's carry-forward when that is positive and 0 otherwise |
| MonthRules.SeedExpenses | server/src/services/MonthDataService.ts:103-124 | one category per template |
| MonthRules.SeedExpensesAt | server/src/services/MonthDataService.ts:106-124 | the i-th seeded category is built from the i-th template with the i-th pair of ids |
| MonthRules.SeedExpensesAppend | server/src/services/MonthDataService.ts:106-124 | seeding one more template appends one category and uses the next two ids |
| MonthRules.SeedExpensesTotal | server/src/services/MonthDataService.ts:106-124 | the seeded categories add up to the templates' amounts |
| MonthRules.SeedExpensesOk | server/src/services/MonthDataService.ts:106-124 | the seeded side is well formed, and its category and entry ids lie from the first id up to below the first id plus two per template |
| MonthRules.NewMonthIncome | server/src/services/MonthDataService.ts:85-101 | a new month's income is one "Carry Forward" category with the carried amount and the "From <Month> <year>" note exactly when the carry is positive, and empty otherwise |
| MonthRules.NewMonthExpenses | server/src/services/MonthDataService.ts:103-124 | the new month's expenses are the templates one for one, with their names, amounts, notes and tags, and add up to their sum |
| MonthRules.NewMonthSpec | server/src/services/MonthDataService.ts:126-141 | the new month is well formed and sits in its slot under the name "<Month> <year>"; total income is the carry, total expense the templates' sum and the carry-forward their difference |
| MonthRules.SeededComments | server/src/services/MonthDataService.ts:90-117 | the carried category's comment is its breakdown; a seeded category's comment is its breakdown iff the template has a note, because the fallback reads "Recurring expense" instead of "No note" |
| MonthRules.StoreAppend | server/src/services/MonthDataService.ts:127-137 | appending a month with fresh ids in an empty slot keeps the store invariant |
| MonthRules.NewMonthIssued | server/src/services/MonthDataService.ts:86-141 | every category and entry id in a new month is at least the counter it started from and below the month's own id, which comes last |
| MonthRules.IssuedIdsFresh | server/src/services/MonthDataService.ts:173-200 | the two ids adding an entry hands out, the counter and the one after it, differ from every category and entry id already in the month |
| MonthRules.CreateMonthOk | server/src/services/MonthDataService.ts:57-148 | creation fails with MONTH_EXISTS iff the slot is taken, and then the store and the id counter are unchanged; otherwise it appends the new month; either way the store invariant holds |
| MonthRules.CreateMonthCarries | server/src/services/MonthDataService.ts:73-101 | when the previous month exists, a created month's income is one "Carry Forward" category holding that month's carry-forward if it is positive, and empty otherwise; total income follows |
| MonthRules.CreateMonthWithoutPredecessor | server/src/services/MonthDataService.ts:73-101 | when there is no previous month, a created month has no income |
| MonthRules.WithSideMoves | server/src/services/MonthDataService.ts:208 | replacing one side with a well-formed side that sums delta more keeps the month well formed and moves that side's total and the carry-forward by delta |
| MonthRules.NewEntry | server/src/services/MonthDataService.ts:370-375 | a new entry fits its side: an expense entry always has a tag, an income entry never has one |
| MonthRules.AddEntryOk | server/src/services/MonthDataService.ts:153-218 | adding fails only for an unknown month, and then the store and the counter are unchanged; otherwise only that month changes and its side total and carry-forward move by the amount; the invariant holds |
| MonthRules.AddedMonthOk | server/src/services/MonthDataService.ts:165-208 | the changed month uses only issued ids, stays in its slot and moves by the entry's amount |
| MonthRules.UpdateEntryOk | server/src/services/MonthDataService.ts:223-275 | it fails with MONTH_NOT_FOUND or ENTRY_NOT_FOUND exactly in those cases, leaving the store unchanged; no id is issued; otherwise the side total moves by the new amount minus the old one; the invariant holds |
| MonthRules.DeleteEntryOk | server/src/services/MonthDataService.ts:280-324 | it fails with MONTH_NOT_FOUND or ENTRY_NOT_FOUND exactly in those cases, leaving the store unchanged; no id is issued; otherwise the side total drops by the entry's amount; the invariant holds |
| MonthRules.DeleteCategoryOk | server/src/services/MonthDataService.ts:329-343 | it fails only for an unknown month, leaving the store unchanged; otherwise exactly the categories with other ids remain and the side total drops by the removed amount |
| Months.SeedFrom | server/src/services/MonthDataService.ts:106-124 | the loop builds exactly the seeded categories, one per template with its name and amount |
| Months.FindHolder | server/src/services/MonthDataService.ts:235-239 | the loop stops at the first category holding an entry with that id, or answers -1 exactly when none does |
| Months.RewriteEntry | server/src/services/MonthDataService.ts:235-262 | the loop finds the entry iff some category holds it, and then rewrites exactly that entry; otherwise it leaves the categories unchanged |
| Months.SpliceEntry | server/src/services/MonthDataService.ts:486-510 | the loop finds the entry iff some category holds it, and then deletes exactly that entry; otherwise it leaves the categories unchanged |
| Months.BuildMonth | server/src/services/MonthDataService.ts:64-137 | the record built before the totals are recalculated: the carried amount as income when positive, one seeded expense per template, and the id issued after all of theirs |
| Months.MonthDataService.GetMonthById | server/src/services/MonthDataService.ts:44-52 | returns a stored month with that id, or MONTH_NOT_FOUND exactly when there is none |
| Months.MonthDataService.CreateMonth | server/src/services/MonthDataService.ts:57-148 | the result and new state are the creation rule applied to the old store and the user's templates, newest first; the invariant is kept |
| Months.MonthDataService.AddEntry | server/src/services/MonthDataService.ts:153-218 | the result and new state are the add rule applied to the old store |
| Months.MonthDataService.AddIncomeEntry | server/src/services/MonthDataService.ts:153-218 | as AddEntry on the income side, with no tag |
| Months.MonthDataService.AddExpenseEntry | server/src/services/MonthDataService.ts:348-417 | as AddEntry on the expense side |
| Months.MonthDataService.UpdateEntry | server/src/services/MonthDataService.ts:223-275 | the result and new state are the update rule applied to the old store |
| Months.MonthDataService.UpdateIncomeEntry | server/src/services/MonthDataService.ts:223-275 | as UpdateEntry on the income side |
| Months.MonthDataService.UpdateExpenseEntry | server/src/services/MonthDataService.ts:422-474 | as UpdateEntry on the expense side |
| Months.MonthDataService.DeleteEntry | server/src/services/MonthDataService.ts:280-324 | the result and new state are the delete rule applied to the old store |
| Months.MonthDataService.DeleteIncomeEntry | server/src/services/MonthDataService.ts:280-324 | as DeleteEntry on the income side |
| Months.MonthDataService.DeleteExpenseEntry | server/src/services/MonthDataService.ts:479-523 | as DeleteEntry on the expense side |
| Months.MonthDataService.DeleteCategory | server/src/services/MonthDataService.ts:329-343 | the result and new state are the category-removal rule applied to the old store |
| Months.MonthDataService.DeleteIncomeCategory | server/src/services/MonthDataService.ts:329-343 | as DeleteCategory on the income side |
| Months.MonthDataService.DeleteExpenseCategory | server/src/services/MonthDataService.ts:528-542 | as DeleteCategory on the expense side |
| Recurring.OwnedBy | server/src/services/RecurringExpenseService.ts:9 | every selected template belongs to the user |
| Recurring.OwnedByOldestFirst | server/src/services/RecurringExpenseService.ts:9-11 | selecting a user's templates keeps them in creation order |
| Recurring.ListForSpec | server/src/services/RecurringExpenseService.ts:8-14 | the listing is newest first and holds a template iff it is stored and belongs to the user |
| Recurring.ApplyUpdate | server/src/services/RecurringExpenseService.ts:53-63 | each field the update carries is replaced and every other field is kept; the id, owner and creation time never change |
| Recurring.IndexOfId | server/src/services/RecurringExpenseService.ts:61 | the position of the template with that id, or -1 exactly when there is none |
| Recurring.RecurringExpenseService.GetRecurringExpenses | server/src/services/RecurringExpenseService.ts:8-14 | returns exactly the user's templates, newest first, and changes nothing |
| Recurring.RecurringExpenseService.CreateRecurringExpense | server/src/services/RecurringExpenseService.ts:19-39 | appends a template with a fresh id, the note defaulting to "" and the tag to neutral |
| Recurring.RecurringExpenseService.UpdateRecurringExpense | server/src/services/RecurringExpenseService.ts:44-72 | updates the template with that id in place, or fails with RECURRING_NOT_FOUND and changes nothing |
| Recurring.RecurringExpenseService.DeleteRecurringExpense | server/src/services/RecurringExpenseService.ts:77-87 | removes exactly the template with that id and answers success, or fails with RECURRING_NOT_FOUND and changes nothing |
| TableControls.SearchSpec | client/src/hooks/useTableControls.ts:71-89 | a blank query or an empty field list keeps every row; otherwise a row stays iff it matches; the result keeps the input order |
| TableControls.SearchIgnoresCase | client/src/hooks/useTableControls.ts:71-84 | searching for a query or for its lower-cased form keeps the same rows |
| TableControls.ApplyFiltersSpec | client/src/hooks/useTableControls.ts:92-109 | a row survives iff it passes every active filter; with no filters every row survives |
| TableControls.EntriesFallBackToTag | client/src/hooks/useTableControls.ts:98-101 | entries with no value under the filter key are matched on their tag, and an untagged entry counts as neutral |
| TableControls.ComparatorAntisymmetric | client/src/hooks/useTableControls.ts:113-125 | swapping two rows negates the comparison, for strings, numbers and mixed types alike |
| TableControls.Insert | client/src/hooks/useTableControls.ts:113 | insertion adds exactly one row, and the result begins with either the inserted row or the old first row |
| TableControls.SortRows | client/src/hooks/useTableControls.ts:113 | the sort keeps the number of rows |
| TableControls.InsertSorted | client/src/hooks/useTableControls.ts:113-125 | inserting a row into a sorted sequence keeps it sorted |
| TableControls.InsertPermutes | client/src/hooks/useTableControls.ts:113 | insertion adds exactly that row and keeps every other row |
| TableControls.SortRowsSpec | client/src/hooks/useTableControls.ts:112-126 | the sort returns a permutation of its input in which no row compares after its successor |
| TableControls.KeptRows | client/src/hooks/useTableControls.ts:71-109 | search and then filters keep exactly the rows satisfying both, in input order |
| TableControls.ProcessSpec | client/src/hooks/useTableControls.ts:67-129 | the shown rows are exactly the input rows that match the search and pass the filters; without a sort they keep their input order, and with one they are sorted by the comparator |
| TableControls.InactiveShowsData | client/src/hooks/useTableControls.ts:67-132 | with no query, no filters and no sort the table shows the data unchanged |
| TableControls.SortStep | client/src/hooks/useTableControls.ts:23-37 | a new column sorts ascending; the sort clears iff the current column is clicked while descending |
| TableControls.SortStepCycle | client/src/hooks/useTableControls.ts:23-37 | clicking one column repeatedly cycles through ascending, descending and unsorted |
| TableControls.Toggle | client/src/hooks/useTableControls.ts:39-58 | only the value's membership under the key flips, other keys are untouched, a key stays only while its set is non-empty, and no key is ever left with an empty set |
| TableControls.ToggleTwice | client/src/hooks/useTableControls.ts:39-58 | toggling the same value twice restores the filters |
| TableControls.InitialSort | client/src/hooks/useTableControls.ts:19 | a missing or empty initial column means no sort |
| TableControls.TableState.constructor | client/src/hooks/useTableControls.ts:18-21 | the hook starts with an empty query and no filters, using the initial sort column and order |
| TableControls.TableState.SetSearchQuery | client/src/hooks/useTableControls.ts:18 | only the query changes |
| TableControls.TableState.HandleSort | client/src/hooks/useTableControls.ts:23-37 | the sort column and order become the sort step of the old ones; the query and filters are unchanged |
| TableControls.TableState.ToggleFilter | client/src/hooks/useTableControls.ts:39-58 | the filters become the toggle of the old ones and never hold an empty set |
| TableControls.TableState.ClearFilters | client/src/hooks/useTableControls.ts:60-65 | the query, sort and filters are reset, after which nothing is active |
| TableControls.TableState.ProcessedData | client/src/hooks/useTableControls.ts:67-129 | the rows shown for the current state: exactly the matching rows, sorted when a column is set, otherwise in input order |
| Validation.ValidateAmount | client/src/utils/validation.ts:6-20 | NaN gets "Please enter a valid number"; any other value is accepted iff it is greater than 0, and rejected with "Amount must be greater than 0" otherwise |
| Validation.ValidateWholeAmount | client/src/utils/validation.ts:9-19 | a typed whole number is accepted iff it is positive |
| Validation.ValidateRequired | client/src/utils/validation.ts:22-31 | invalid, with "<field> is required", exactly for an empty or whitespace-only value |
| Validation.ValidateMinLength | client/src/utils/validation.ts:33-46 | valid iff the length reaches the minimum, otherwise "<field> must be at least <n> characters" |
| Validation.ValidatePassword | client/src/utils/validation.ts:48-50 | exactly the minimum-length check with 4 and "Password", so it is valid iff there are at least 4 characters |
| Validation.ShortPasswordMessage | client/src/utils/validation.ts:38-50 | a short password gets "Password must be at least 4 characters" |
| Validation.ValidatePasswordMatch | client/src/utils/validation.ts:52-61 | valid iff the two strings are equal, otherwise "Passwords do not match" |
| Validation.ValidateUsername | client/src/utils/validation.ts:63-76 | a blank name gets "Username is required" first; otherwise the name is valid iff its untrimmed length is at least 3 |
| Validation.UsernameCountsWhitespace | client/src/utils/validation.ts:68 | " a " passes although it trims to one character, and "ab" fails the length check |
| TransactionForm.FirstProblem | client/src/hooks/useTransactionForm.ts:22-37 | the checks run in the order category, amount, note, and the first failure's message is reported |
| TransactionForm.ValidateAndSubmit | client/src/hooks/useTransactionForm.ts:20-55 | onSubmit is called iff every check passes, with the trimmed category, the parsed amount and the trimmed note; the result is true iff neither onSubmit nor onSuccess throws; onSuccess runs only after a successful save; a failed save shows "Failed to save. Please try again." |
| TransactionForm.AmountCheckIsValidateAmount | client/src/hooks/useTransactionForm.ts:28-32 | the form's amount check rejects exactly the texts that validateAmount rejects |
| TransactionForm.SubmissionIsClean | client/src/hooks/useTransactionForm.ts:39-45 | what onSubmit receives has a non-empty category and note, both already trimmed, and a positive amount |
| JsText.TrimEmptyIffBlank | client/src/utils/validation.ts:26 | a string trims to "" iff it is made of whitespace only |
| JsText.TrimIdempotent | client/src/hooks/useTransactionForm.ts:41-43 | trimming a trimmed string changes nothing |
| JsText.ToLowerCaseBlank | client/src/hooks/useTableControls.ts:71-72 | lower-casing does not change whether a query is blank |
| JsText.LocaleCompareAntisymmetric | client/src/hooks/useTableControls.ts:119 | comparing b with a is the negation of comparing a with b |
| JsText.NatToStringSpec | server/src/services/MonthDataService.ts:194-196 | a whole amount is written as decimal digits without leading zeros, and those digits read back as the amount |
| JsText.ParseIntToString | client/src/utils/validation.ts:9 | parsing a whole number's text gives back that number |
| JsArray.RemoveAtSlices | server/src/services/RecurringExpenseService.ts:78 | removing position k leaves the elements before k followed by those after it |
| JsArray.FilterIsSubsequence | client/src/hooks/useTableControls.ts:73 | `filter` keeps the surviving rows in their original order |
| JsArray.FilterMembership | client/src/hooks/useTableControls.ts:93 | an element survives `filter` iff it was present and satisfies the predicate |

## Left out

- Persistence, logging and HTTP routes are not modelled.
  - The database becomes a sequence of values held by the service.
  - Calls to `markModified` and `save` become writing the changed month back into its place.
  - Listing all of a user's months and deleting a month are outside this model.
- The month service changes the loaded document in place. The model instead reads the month, computes the new value and writes it back. No other code holds a reference to the document, so the outcome is the same; aliasing is not modelled.
- Ledger.RecalculateTotals: the body of `recalculateMonthTotals` (in `server/src/utils/monthCalculations.ts`) is not part of this model. The end-to-end tests (`server/src/__tests__/e2e.test.ts`:482-507, 594-623) observe that the totals become the sums and the carry-forward their difference. That nothing else in the month changes is an assumption of this model, not something those tests observe.
- Concurrent requests are not modelled. Service calls run one at a time. `createMonth` checks the slot with `findOne` and creates the record later, so two interleaved calls for the same slot could both succeed; the invariant that no two months share a slot holds only for calls that do not overlap.
- `generateId` is a counter. Its prefixes ("entry", "inc", "exp") are dropped and ids are natural numbers.
- MongoDB's `createdAt` timestamp is modelled by the same counter, so "newest first" is by creation order.
- Amounts are whole numbers.
  - `Number(amount)` conversion, floating-point rounding and decimal amounts are not modelled.
  - Number-to-text conversion covers whole numbers only.
  - The table comparator's NaN and infinite values are not modelled.
- Legacy records whose `income`, `expenses` or `entries` arrays are missing are not modelled. The source guards against them; every record built by this model has its arrays.
- The JavaScript primitives are simplified.
  - `toLowerCase` folds only A to Z.
  - `length` counts code points, not UTF-16 code units.
  - `localeCompare` is code-point order, not locale collation.
  - `parseFloat` covers signs, digits, a fraction, an exponent and "Infinity", but not hexadecimal or other special spellings.
- TableControls.ProcessSpec: array elements that are `null` or `undefined`, and `note` values that are not strings, make the source throw during a search or filter. The model treats them as non-matching.
- TableControls.EntriesFallBackToTag: property lookup on a primitive array element (for example a string's `length`) reads as `undefined` here.
- TableControls.SortRows: the model sorts by stable insertion. For a comparator that is a consistent order on the rows, this gives the same result as the engine's stable `Array.prototype.sort`. For a sort column holding a mix of types, the comparator is not transitive and the engine's order is implementation-defined; the model proves only that the result is a permutation and that each row does not compare after its successor.
- TableControls.Toggle: the source copies the map but mutates the previous state's `Set` in place. The model works on values and does not capture that aliasing. Set membership uses structural equality, not object identity.
- React's state batching, `useMemo` caching and the render cycle are not modelled. `handleSort` is modelled by its net effect once the queued updaters have run.
- Toasts, `console.error`, and the `onSubmit` and `onSuccess` callbacks are inputs or outputs of `ValidateAndSubmit`: whether saving throws, whether a success hook exists and whether it throws. Asynchrony is not modelled.
