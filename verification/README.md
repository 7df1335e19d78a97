# Expense tracker core in Dafny

This project models the core logic of a small expense tracker:

- **Parser.** It turns a free-text utterance such as "paid electricity bill 500" or "uber 150 yesterday" into an expense. The amount is the first decimal numeral. The description is what remains once that numeral and a leading filler word are removed, with its first letter capitalised. The category comes from a fixed keyword table, and the date is now, or one calendar day earlier when the text says "yesterday".
- **Schema.** Description required and stored trimmed, amount at least 0, category one of ten names with "Other" as the default, and the date.
- **Controller.**
  - Create takes either a text to parse or manual fields.
  - Update merges the request into the stored expense.
  - The list query treats the category "all" as no constraint.
  - Summary totals are over the expenses dated from midnight today (or from the first of the month) on, with no upper bound.
  - Analytics totals are per category and per day over the expenses dated from thirty days ago on, with no upper bound.
- **Dashboard filter.** A category pass, then a case-insensitive search on the description.

Modules:

| file | module | contents |
|---|---|---|
| wrappers.dfy | `Wrappers` | `Option`, `Result` |
| text.dfy | `Text` | ASCII whitespace, case mapping, `trim`, `indexOf`, `includes`, `replace`, `split(/\s+/)` |
| calendar.dfy | `Calendar` | civil dates, instants, one day earlier, summary and analytics windows |
| expense_model.dfy | `ExpenseModel` | categories, the stored expense, schema validation |
| grouping.dfy | `Grouping` | the `reduce` into a per-key `Record`, as an insertion-ordered list of entries |
| expense_parser.dfy | `ExpenseParser` | `parseExpenseInput` and its stages |
| expense_controller.dfy | `ExpenseController` | create, update, the list category rule, summary, analytics |
| dashboard.dfy | `Dashboard` | the category choices and `filterExpenses` |

The database, the HTTP layer and the clock are parameters:

- a lookup result is an `Option<Expense>`;
- the stored expenses are a sequence;
- saving is schema validation (`ValidateExpense`);
- the current instant is `now`.

Amounts are exact reals.

Two behaviours of the code a reader may not expect:

- **Filler words.** The filler pattern is `^(paid|for|spent on|bought)\s*`, so it matches a prefix and not a word: stripping the filler from "forest" leaves "est" (`ExpenseParser.ForestLosesFor`).
- **Blank descriptions.** A manual description made only of blanks passes the controller's falsy check. The schema's trim setter then empties it, so the create answers 500 rather than 400 (`ExpenseController.BlankDescriptionIsServerError`).

## Model

| member | source | states |
|---|---|---|
| Text.Trim | server/src/utils/expenseParser.ts:22 | the result has no blank at either end and is no longer than the input |
| Text.TrimIsSlice | server/src/utils/expenseParser.ts:22 | the trimmed text is a contiguous piece of the input: character i of the result is character LeadingSpaces+i of the input, only whitespace comes before it and only whitespace after it |
| Text.TrimOfPadded | server/src/utils/expenseParser.ts:35-37 | a text with no blank at either end, padded with whitespace on both sides, trims back to itself |
| Text.TrimIdempotent | server/src/utils/expenseParser.ts:35-37 | trimming twice is trimming once |
| Text.TrimKeepsDigits | server/src/utils/expenseParser.ts:22-26 | trimming neither adds nor loses a digit, so the amount test gives the same answer before and after |
| Text.LowerKeepsDigits | server/src/utils/expenseParser.ts:22-26 | lower-casing neither adds nor loses a digit |
| Text.Lower | server/src/utils/expenseParser.ts:22 | same length, and every character is mapped to its lower-case form in place |
| Text.IndexOf | server/src/utils/expenseParser.ts:34 | the index returned is an occurrence and no earlier index is one; None exactly when the text occurs nowhere |
| Text.ContainsIff | server/src/utils/expenseParser.ts:49 | `includes` holds exactly when the text occurs at some index |
| Text.RemoveFirst | server/src/utils/expenseParser.ts:34 | the input is unchanged when the text does not occur; otherwise putting the text back at its first index rebuilds the input, so exactly that one occurrence was removed |
| Text.SplitOnSpaces | server/src/utils/expenseParser.ts:45 | at least one piece, and no piece holds whitespace |
| Text.SplitRebuilds | server/src/utils/expenseParser.ts:45 | the pieces, joined by the whitespace runs that separated them, rebuild the text; the runs are non-empty and only the first and last piece can be empty |
| Text.SplitUnique | server/src/utils/expenseParser.ts:45 | any pieces without whitespace joined by non-empty whitespace runs, with non-empty middle pieces, split back into exactly those pieces |
| Text.SplitTrimmedHasNoEmptyWord | server/src/utils/expenseParser.ts:45 | a non-empty text with no blank at either end splits into non-empty words only |
| Calendar.PrevDay | server/src/utils/expenseParser.ts:62 | the result is a valid day, earlier than the given one, and no valid day lies between them |
| Calendar.NextDay | server/src/utils/expenseParser.ts:62 | the result is a valid day, later than the given one, and no valid day lies between them |
| Calendar.NextOfPrev | server/src/utils/expenseParser.ts:62 | a day back and a day forward return to the same day |
| Calendar.OneDayEarlier | server/src/utils/expenseParser.ts:62 | the same time of day on the calendar day before: valid, earlier, and one day forward returns to the original day |
| Calendar.DaysEarlierThenLater | server/src/controllers/expenseController.ts:198-199 | going n days back and then n days forward returns to the start |
| Calendar.SummaryWindowStart | server/src/controllers/expenseController.ts:158-163 | midnight at or before now; today's date for "daily", the first of the current month for any other period |
| Calendar.DailyWindowIsToday | server/src/controllers/expenseController.ts:158-159 | with "daily", an instant is in the window exactly when it falls today or later |
| Calendar.MonthlyWindowIsThisMonth | server/src/controllers/expenseController.ts:160-163 | with any other period, an instant is in the window exactly when it falls in the current month or later |
| Calendar.AnalyticsWindowStart | server/src/controllers/expenseController.ts:198-199 | a valid instant earlier than now, at the same time of day |
| Calendar.AnalyticsWindowIsThirtyDays | server/src/controllers/expenseController.ts:198-199 | the window starts thirty calendar days back: thirty days forward from its start reach now |
| Calendar.DaysEarlier | server/src/controllers/expenseController.ts:198-199 | n days back is valid, at the same time of day, and strictly earlier when n is positive |
| ExpenseModel.CategoryFromName | server/src/models/Expense.ts:29-45 | a name is accepted exactly when it is the spelling of some category, and then it names that category |
| ExpenseModel.CategoryEnumComplete | server/src/models/Expense.ts:32-43 | the enum lists every category exactly once, ten in all |
| ExpenseModel.NameRoundTrip | server/src/models/Expense.ts:32-43 | reading back the spelling of a category gives that category |
| ExpenseModel.NameInjective | server/src/models/Expense.ts:32-43 | different categories have different spellings |
| ExpenseModel.ValidateExpense | server/src/models/Expense.ts:19-49 | accepted exactly when the trimmed description is non-empty, the amount is present and at least 0, the category (if given) is in the enum and the date (if given) is valid; the stored record has the trimmed description, the amount, the category ("Other" if omitted) and the date (now if omitted) |
| ExpenseModel.ValidateValid | server/src/models/Expense.ts:19-49 | re-validating the fields of a valid stored expense gives back that expense |
| ExpenseModel.ValidatedIsStable | server/src/models/Expense.ts:19-49 | whatever validation admits re-validates to itself |
| ExpenseModel.ValidFieldsAdmitted | server/src/models/Expense.ts:19-49 | a trimmed non-empty description, an amount at least 0, a category spelling and a valid date always pass |
| Grouping.AddTo | server/src/controllers/expenseController.ts:173-179 | keys stay distinct, the new key is added, the key's total grows by the amount and other keys are unchanged, and the grand total grows by the amount |
| Grouping.GroupFrom | server/src/controllers/expenseController.ts:173-179 | folding entries into the accumulator adds each key's sum to its total and keeps keys distinct |
| Grouping.GroupSums | server/src/controllers/expenseController.ts:173-179 | one entry per key that occurs, each holding that key's sum, absent keys read as 0, and the entries add up to the sum of all amounts |
| Grouping.LookupAt | server/src/controllers/expenseController.ts:173-179 | with distinct keys, looking up an entry's key finds that entry's value |
| ExpenseParser.MatchAmount | server/src/utils/expenseParser.ts:25-28 | None exactly when there is no digit; otherwise the span is a numeral, nothing before it is a digit, no numeral starts earlier, and it cannot be extended |
| ExpenseParser.NumeralEnd | server/src/utils/expenseParser.ts:25 | the longest numeral starting at the given digit: one digit run with at most one point followed by digits |
| ExpenseParser.NumeralValue | server/src/utils/expenseParser.ts:30 | the value is the numeral's digits read as a whole number divided by ten to the number of fraction digits; it lies between the integer part and the next integer, and is exactly the integer when there is no fraction |
| ExpenseParser.NatValueAppend | server/src/utils/expenseParser.ts:30 | reading digits a followed by digits b gives a's value shifted by |b| places plus b's value |
| ExpenseParser.DecimalOf | server/src/utils/expenseParser.ts:30 | an integer part and a fraction part read as the whole digit string over ten to the fraction's length, below the next integer |
| ExpenseParser.NatValueBound | server/src/utils/expenseParser.ts:30 | n digits read below 10^n, so the fraction adds less than one |
| ExpenseParser.Lowered | server/src/utils/expenseParser.ts:22 | the trimmed, lower-cased input has no blank at either end and has a digit exactly when the input does |
| ExpenseParser.AmountText | server/src/utils/expenseParser.ts:25 | the matched text is a numeral: digits, then optionally a point followed by digits |
| ExpenseParser.AmountOccursAtMatch | server/src/utils/expenseParser.ts:25-34 | the matched amount text is first found in the original input exactly where it was matched (offset by the leading blanks), so `replace` cuts out the matched number |
| ExpenseParser.FirstOccurrence | server/src/utils/expenseParser.ts:34 | a text found at p whose first character appears nowhere before p is first found at p |
| ExpenseParser.FillerLength | server/src/utils/expenseParser.ts:36 | zero exactly when no filler starts the text ignoring case; otherwise the lower-cased prefix is a filler |
| ExpenseParser.StripFiller | server/src/utils/expenseParser.ts:36 | unchanged without a filler; otherwise a suffix from which the filler and all the blanks after it are gone |
| ExpenseParser.Remainder | server/src/utils/expenseParser.ts:33-37 | the description candidate has no blank at either end |
| ExpenseParser.RemainderShape | server/src/utils/expenseParser.ts:33-37 | the description is one contiguous piece of the text left after the amount is cut out; before it there is only whitespace, or whitespace, one filler and whitespace; after it only whitespace |
| ExpenseParser.DigitsKeptInDescription | server/src/utils/expenseParser.ts:33-37 | every digit left after the amount is cut out is kept in the description, at its place |
| ExpenseParser.LaterDigitsSurvive | server/src/utils/expenseParser.ts:33-37 | only the first occurrence of the amount is removed: a later number in the input stays in the description, digit for digit |
| ExpenseParser.Capitalize | server/src/utils/expenseParser.ts:66 | same length and tail, the first letter is upper case and agrees with the original ignoring case, and trimmed text stays trimmed |
| ExpenseParser.CategoryKeywordsOrder | server/src/utils/expenseParser.ts:8-18 | the table has nine entries, in the enum's order, and never names Other |
| ExpenseParser.InputWordsNonEmpty | server/src/utils/expenseParser.ts:45 | once an amount was found, every word of the input is non-empty |
| ExpenseParser.InputWords | server/src/utils/expenseParser.ts:45 | the words of the trimmed, lower-cased input, joined by the whitespace runs between them, rebuild it; no word holds whitespace |
| ExpenseParser.FirstMatchFrom | server/src/utils/expenseParser.ts:47-55 | the index of the first table entry from m on that has a matching keyword, or None when none has |
| ExpenseParser.Classify | server/src/utils/expenseParser.ts:44-55 | Other exactly when no entry has a keyword matching a word; otherwise the category of the first entry that has one |
| ExpenseParser.SomeWordMatches | server/src/utils/expenseParser.ts:49 | the loop answers whether some word contains the keyword or is contained in it |
| ExpenseParser.EntryMatchesLoop | server/src/utils/expenseParser.ts:48-53 | the loop with its early break answers whether some keyword of the entry matches |
| ExpenseParser.ClassifyLoop | server/src/utils/expenseParser.ts:44-55 | the nested loops with their two breaks compute the same category as the first-match definition |
| ExpenseParser.EarlierEntryWins | server/src/utils/expenseParser.ts:47-55 | when an earlier entry matches, a later entry's category is never chosen |
| ExpenseParser.GasIsNeverABill | server/src/utils/expenseParser.ts:11-13 | "gas" is listed under both Transportation and Bills & Utilities; an input with the word "gas" is never Bills & Utilities |
| ExpenseParser.WordInsideTeaIsFood | server/src/utils/expenseParser.ts:8-55 | a word contained in "tea" matches the first entry, so the input is Food & Drinks |
| ExpenseParser.ParseExpenseInput | server/src/utils/expenseParser.ts:20-70 | rejected exactly when there is no digit or nothing remains of the description; otherwise the amount is the numeral's value (at least 0), the description is the remainder capitalised, the category is the classification of the input's words, and the date is one day before now exactly when the lower-cased input contains "yesterday" |
| ExpenseParser.ParsedSatisfiesSchema | server/src/utils/expenseParser.ts:65-70 | every record the parser produces passes schema validation and is stored unchanged |
| ExpenseParser.OnlyOneFraction | server/src/utils/expenseParser.ts:25 | in "1.2.3" the amount is "1.2", read as 1.2 |
| ExpenseParser.ForestLosesFor | server/src/utils/expenseParser.ts:36 | the filler strip removes "for" from "forest", leaving "est" |
| ExpenseParser.OnlyOneFillerStripped | server/src/utils/expenseParser.ts:36 | the anchored pattern is applied once: "paid for lunch" loses only "paid " and keeps "for lunch" |
| ExpenseParser.PaidIsTheFiller | server/src/utils/expenseParser.ts:36 | the filler matched at the start of "paid for lunch" is the four-character "paid" |
| ExpenseController.CreateFromText | server/src/controllers/expenseController.ts:13-18 | 400 "Could not parse expense input" when the parser rejects, otherwise 201 with exactly the parsed record for the user |
| ExpenseController.CreateFromFields | server/src/controllers/expenseController.ts:20-42 | the answer is 201, the 400 "Description and amount are required", or the 500 "Server error while creating expense"; the 400 exactly when the description is falsy or the amount is absent; otherwise 201 exactly when the fields pass the schema, storing the trimmed description, the amount, the category or "Other", and the date or now |
| ExpenseController.CreateExpense | server/src/controllers/expenseController.ts:13-42 | with a truthy input: 400 when the parser rejects it, otherwise 201 with exactly the parsed record for the user, whatever the manual fields say; without one: 400 exactly when the description is falsy or the amount absent, otherwise 201 exactly when the fields pass the schema, storing the trimmed description, the amount, the category or "Other" and the date or now, and 500 otherwise; never 404 |
| ExpenseController.ZeroAmountIsAccepted | server/src/controllers/expenseController.ts:21 | an amount of 0 is present, so it is stored, with category Other and date now |
| ExpenseController.BlankDescriptionIsServerError | server/src/controllers/expenseController.ts:21-33 | a description of blanks is not rejected with 400 but fails the schema with 500 |
| ExpenseController.UpdateExpense | server/src/controllers/expenseController.ts:107-128 | the answer is 200, the 404 "Expense not found" or the 500 "Server error while updating expense"; the 404 exactly when not found; for a valid stored expense, 200 exactly when the supplied values pass the schema, and then only the truthy description, category and date and any present amount change |
| ExpenseController.Merge | server/src/controllers/expenseController.ts:114-117 | the user is kept; description, category and date come from the request only when truthy, the amount whenever present, and otherwise from the stored record |
| ExpenseController.EmptyUpdateKeepsExpense | server/src/controllers/expenseController.ts:114-119 | an update that supplies nothing returns the stored expense unchanged |
| ExpenseController.ZeroAmountOverwrites | server/src/controllers/expenseController.ts:114-115 | an empty description is ignored but an amount of 0 overwrites |
| ExpenseController.UpdateIdempotent | server/src/controllers/expenseController.ts:114-119 | applying the same update twice gives what applying it once gives |
| ExpenseController.CategoryConstraint | server/src/controllers/expenseController.ts:64-66 | a constraint exactly when the category is truthy and not "all" |
| ExpenseController.SelectSince | server/src/controllers/expenseController.ts:165-168 | every selected expense is the user's and dated at or after the start, and every such stored expense is selected |
| ExpenseController.SelectSinceCounts | server/src/controllers/expenseController.ts:165-168 | each matching expense is selected as many times as it is stored, any other not at all |
| ExpenseController.TotalFrom | server/src/controllers/expenseController.ts:170 | the running-sum fold started from acc gives acc plus the sum of the amounts |
| ExpenseController.EntriesKeepAmounts | server/src/controllers/expenseController.ts:207-228 | keying amounts by category or by day keeps their sum |
| ExpenseController.CategoryTotals | server/src/controllers/expenseController.ts:207-213 | one entry per category that occurs, holding its sum, and the entries add up to the total |
| ExpenseController.DailyTotals | server/src/controllers/expenseController.ts:221-228 | one entry per day that occurs, holding its sum, and the entries add up to the total |
| ExpenseController.ExpenseSummary | server/src/controllers/expenseController.ts:150-186 | the count is the number of the user's expenses in the window, the total is their sum, and the breakdown adds up to the total |
| ExpenseController.GetAnalytics | server/src/controllers/expenseController.ts:193-239 | over the user's expenses dated from thirty days ago on (no upper bound), the category data and the trend data each add up to the total |
| Dashboard.CategoryFiltersAreAllAndNames | client/src/pages/Dashboard.tsx:22-34 | the choices are "all" followed by the ten category spellings in the schema's order |
| Dashboard.ByCategory | client/src/pages/Dashboard.tsx:43-45 | an order-preserving selection holding exactly the expenses of the chosen category |
| Dashboard.ByCategoryCounts | client/src/pages/Dashboard.tsx:43-45 | each expense of the chosen category is kept as many times as it is listed, any other not at all |
| Dashboard.BySearch | client/src/pages/Dashboard.tsx:47-51 | an order-preserving selection holding exactly the expenses whose lower-cased description contains the lower-cased query |
| Dashboard.BySearchCounts | client/src/pages/Dashboard.tsx:47-51 | each expense whose lower-cased description contains the lower-cased query is kept as many times as it is listed, any other not at all |
| Dashboard.KeepPassing | client/src/pages/Dashboard.tsx:40-54 | the one-pass reference: an order-preserving selection of exactly the expenses meeting both conditions |
| Dashboard.KeepPassingCounts | client/src/pages/Dashboard.tsx:40-54 | the one-pass reference keeps every copy of an expense meeting both conditions and no copy of any other |
| Dashboard.FilterExpenses | client/src/pages/Dashboard.tsx:40-54 | no longer than the list; each expense passing the category pass (unless "all") and the search pass (unless the query is empty) is kept as many times as it is listed, any other not at all |
| Dashboard.TwoPassesAreOnePass | client/src/pages/Dashboard.tsx:40-54 | the two passes, each skipped for "all" or an empty query, select the same list as the one-pass reference |
| Dashboard.FilteredAreThePassing | client/src/pages/Dashboard.tsx:40-54 | the shown list keeps the order, holds exactly the expenses passing both conditions, and keeps every copy of each |
| Dashboard.CategoryPassAgreesWithServer | client/src/pages/Dashboard.tsx:43-45 | for every non-empty choice, the client's category pass and the server's list query admit the same expenses |
| Dashboard.EmptyChoiceDisagrees | client/src/pages/Dashboard.tsx:43-45 | with an empty choice the server applies no constraint but the client keeps nothing |

## Left out

- Floating point: amounts are exact reals. `parseFloat` rounding, sums of binary fractions, and `toFixed` display are not modelled.
- Text handling covers ASCII only:
  - whitespace is space and tab to carriage return;
  - case mapping covers A-Z only;
  - JavaScript's Unicode whitespace and case tables are not modelled.
- Dates and time zones:
  - An instant is a civil calendar day plus milliseconds of the day.
  - Time zones and daylight-saving shifts are not modelled.
  - The trend key `toISOString().split('T')[0]` is the UTC day; the model keys by the civil day.
- Grouping.GroupSums: the order of the entries is not stated. The code's objects list string keys in insertion order, which is first appearance; the model builds the entries in that order but promises only one entry per key with its sum.
- ExpenseController.GetAnalytics: the query's `sort({date: 1})` is not modelled. Expenses keep their stored order, so only the order of the entries could differ; the totals do not depend on it.
- The database queries: `find`, `findOne`, `findOneAndDelete` and `sort` are values or parameters.
  - `getExpenses` is left out apart from its category rule, including its date range and its regex search.
  - `getExpense` and `deleteExpense` are lookups with a 404, and are left out.
- Request values of other JSON types are not modelled: a number given as `input`, a `null` amount, a non-string description, or an empty-string date. The `try/catch` around a thrown error is modelled only as the schema's 500.
- ExpenseController.UpdateExpense: the postconditions speak of a valid stored expense only, since every stored record passed validation when it was saved. Save validates the whole merged record, not only the changed paths.
- Authentication, routes, the other client pages and components, the services, the seeding scripts and the Tailwind configuration are outside the modelled core.
- The parser's concrete examples over whole sentences (for instance "paid uber 150" giving "Uber") are not stated as lemmas. Their stages are covered by the general contracts above.
