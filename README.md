# Yardstick finance tracker: model of the core

Yardstick is a personal finance tracker. It records transactions and
monthly budgets per category, and for a month it reports spending against
budget. This project models its core in Dafny:

- the shared types and the twelve categories (`src/types/index.ts`);
- the month-key and month-range helpers, the budget-status classifier
  and the status colours (`src/lib/utils.ts`);
- the JSON-file store: add, update and delete a transaction, upsert a
  budget (`src/lib/fileStorage.ts`);
- the file-backed transaction list, with its month filter and its in-place
  newest-first sort (`src/app/api/transactions-file/route.ts`);
- the database-backed transaction list, with its month query, and its
  `POST` (`src/app/api/transactions/route.ts`);
- the monthly analytics: the 400 answer without a month, the month's
  budgets, `$group` by category, the twelve summary lines, the totals and
  the ten most recent transactions (`src/app/api/analytics/route.ts`);
- the budget comparison chart rows and the insight cards derived from the
  analytics summary (`src/components/BudgetComparisonChart.tsx`,
  `src/components/InsightCards.tsx`).

How the model represents things:

- Amounts and percentages are exact `real`s.
- Instants are integer milliseconds of naive local time. The JavaScript
  `Date` constructor is modelled after ECMAScript (MakeDay, MakeTime,
  MakeDate, TimeClip, and years 0 to 99 read as 1900 to 1999). An Invalid
  Date is `None`. In the file route every JavaScript comparison with it is
  false. The two database routes hand their bounds to the MongoDB driver;
  the model chooses to treat an Invalid Date bound there the same way, so
  it matches nothing.
- `Number(part)` of a month-key piece is its decimal value for a string
  of digits, 0 for the empty string, and NaN (`None`) otherwise.
- The database is a sequence. `find` and `$match` are filters.
  `.sort({ date: -1 })` is the stable newest-first order `SortByDateDesc`.
- The file store is a class `Store` whose two sequence fields are the two
  JSON files. Its methods update them in place.
- The file route's `Array.prototype.sort` is stable, so any correct
  implementation gives the same order. The model uses an insertion sort on
  an `array`, proved to produce `SortByDateDesc` of its input.
- Ids (`Date.now().toString()`, `insertedId`) and the current time
  (`new Date()`) are parameters. Each `new Date()` read is its own
  parameter: `upsertBudget` reads the clock twice, for `createdAt` and
  `updatedAt`, and these may differ.

The zero budget follows the code as written. `getBudgetStatus` has no
zero-budget guard: `spent / 0` is +Infinity for positive spending, so an
unbudgeted category with spending is 'over'. With no spending, `0 / 0` is
NaN, which fails both thresholds, so the category is 'safe'
(`Utils.StatusWithZeroBudget`, `Analytics.UnbudgetedStatus`,
`Analytics.ExampleMonth`).

## Model

| member | source | states |
|---|---|---|
| Types.CategoriesShape | src/types/index.ts:27-40 | twelve categories, no repeats, Food first, Transportation second, Other last |
| Utils.MonthDateRange | src/lib/utils.ts:24-31 | `getMonthDateRange`: parses the key, then takes the range of that year and month; both bounds are Invalid Dates when the key does not parse (properties: `MonthKeyRange`, `MonthRangeIsMonth`, `TwoDigitYearKey`) |
| Utils.MonthRangeOf | src/lib/utils.ts:26-29 | `startOfMonth`/`endOfMonth` of `new Date(year, month - 1, 1)` (properties: `MonthRangeCarried`, `MonthRangeStart`, `MonthRangeIsMonth`, `MonthRangeOfYear`) |
| Utils.MonthRangeCarried | src/lib/utils.ts:24-31 | the range equals the bounds that date-fns builds from the normalised year and month |
| Utils.MonthRangeStart | src/lib/utils.ts:26-28 | the start of the range is `new Date(year, month - 1, 1)` itself |
| Utils.MonthRangeIsMonth | src/lib/utils.ts:24-31 | an instant is in the range iff it lies from day 1 of the month at midnight up to, not including, day 1 of the next month |
| Utils.MonthKeyRange | src/lib/utils.ts:24-31 | for the key of a month of a year from 100 to 9999, the range is day 1 at 00:00:00.000 to the last day at 23:59:59.999 |
| Utils.MonthRangeOfYear | src/lib/utils.ts:26-29 | the same bounds for a parsed year and month |
| Utils.TwoDigitYearKey | src/lib/utils.ts:25-26 | the key "0024-03" selects March 1924, not March of year 24 |
| Utils.BudgetStatus | src/lib/utils.ts:33-38 | `getBudgetStatus` as written, with the unguarded zero budget (properties: `StatusWithPositiveBudget`, `StatusWithZeroBudget`, `StatusMonotone`) |
| Utils.StatusWithPositiveBudget | src/lib/utils.ts:33-38 | with a positive budget: 'over' iff spent >= budget; 'warning' iff 0.8 * budget <= spent < budget; 'safe' iff spent < 0.8 * budget |
| Utils.StatusWithZeroBudget | src/lib/utils.ts:33-38 | with budget 0, any positive spending is 'over', and otherwise 'safe' |
| Utils.StatusMonotone | src/lib/utils.ts:33-38 | for a fixed positive budget, spending more never lowers the status |
| Utils.QuotientAtLeast | src/lib/utils.ts:34-36 | `x / c >= t` iff `x >= t * c` for positive `c`, the step behind each threshold |
| Utils.StatusColor | src/lib/utils.ts:40-51 | `getStatusColor`: red, yellow and green classes; the `default` branch cannot be reached for a status (property: `StatusColorDistinct`) |
| Utils.StatusColorDistinct | src/lib/utils.ts:40-51 | each status has its own colour classes |
| MonthKeys.NumberOf | src/lib/utils.ts:25 | `Number(part)`: the decimal value of a digit string, 0 for "", NaN otherwise (used by `MonthKeyRoundTrip`) |
| MonthKeys.ParseMonthKey | src/lib/utils.ts:25 | `monthStr.split('-').map(Number)`: year and month, or NaN when either piece is not a number (property: `MonthKeyRoundTrip`) |
| MonthKeys.Split | src/lib/utils.ts:25 | `split('-')` always gives at least one piece (property: `SplitJoin`) |
| MonthKeys.SplitJoin | src/lib/utils.ts:25 | no piece of `split('-')` holds a `-`, and joining the pieces with `-` gives the string back |
| MonthKeys.PadDigits | src/lib/utils.ts:20-22 | the `yyyy`/`MM` fields have exactly the given number of digits |
| MonthKeys.PadDigitsValue | src/lib/utils.ts:20-22 | a padded number reads back as itself |
| MonthKeys.SplitAround | src/lib/utils.ts:25 | a key `a-b` with no `-` inside `a` or `b` splits into exactly `[a, b]` |
| MonthKeys.MonthKeyRoundTrip | src/lib/utils.ts:25 | the `yyyy-MM` key of a month has the key shape, and parsing it gives back the year and month |
| Dates.NewDate | src/lib/utils.ts:26 | `new Date(y, m, d, h, min, s, ms)` in naive local time, after ECMAScript's MakeDay/MakeTime/MakeDate/TimeClip (properties: `NewDateIsMonthStart`, `NewDateLastDay`, `DayZeroIsLastDay`) |
| Dates.StartOfMonth | src/lib/utils.ts:28 | date-fns `startOfMonth`: day 1 at 00:00:00.000 (property: `MonthBounds`) |
| Dates.EndOfMonth | src/lib/utils.ts:29 | date-fns `endOfMonth`: the last day at 23:59:59.999 (properties: `MonthBounds`, `DayZeroBeforeEndOfMonth`) |
| Dates.MakeDayCarry | src/lib/utils.ts:26 | the Date constructor carries an out-of-range month into the year |
| Dates.MonthBounds | src/lib/utils.ts:28-29 | `startOfMonth` is day 1 at midnight; `endOfMonth` is one millisecond before day 1 of the next month |
| Dates.NewDateIsMonthStart | src/lib/utils.ts:26-28 | `new Date(year, m, 1)` is already `startOfMonth` of itself |
| Dates.ValidDay | src/lib/utils.ts:26 | every day of the years 100 to 9999 is a valid time value |
| Dates.DayFromYearBounds | src/lib/utils.ts:26 | January 1 of a year lies 365 to 366 days per year away from 1970 |
| Dates.MonthsFillYear | src/lib/utils.ts:26 | the twelve months add up to the year's length |
| Dates.NextMonthStart | src/app/api/transactions/route.ts:16 | day 1 of the next month comes `DaysInMonth` days after day 1, also across a year end |
| Dates.DayZeroIsLastDay | src/app/api/transactions/route.ts:16 | day 0 of month `m + 1` is the last day of month `m` |
| Dates.LastDayOfMonth | src/app/api/transactions/route.ts:16 | within a year, day 0 of month `m + 1` is day `DaysInMonth(y, m)` of month `m` |
| Dates.DayZeroBeforeEndOfMonth | src/app/api/transactions/route.ts:16 | `new Date(year, month, 0, 23, 59, 59)` is 999 ms before `endOfMonth` of month `month - 1` |
| Dates.NewDateLastDay | src/app/api/transactions/route.ts:16 | for a year from 100 on, that date is the last day of the month at 23:59:59 |
| FileStorage.Stamped | src/lib/fileStorage.ts:40-45 | the new record keeps the caller's own `_id` if it has one, and otherwise gets the fresh id; `createdAt` is new; all other fields are the caller's |
| FileStorage.Patched | src/lib/fileStorage.ts:55 | `{ ...t, ...p }`: every key of the patch wins (property: `PatchComposes`) |
| FileStorage.Updated | src/lib/fileStorage.ts:51-60 | the list after `updateTransaction`: the first record with the id patched, or the list unchanged (properties: `UpdateAbsent`, `UpdateFirstOnly`) |
| FileStorage.RemoveId | src/lib/fileStorage.ts:62-67 | the list after `deleteTransaction`: the records without the id (properties: `DeleteRemovesAll`, `DeleteAbsent`, `DeleteIdempotent`, `DeleteKeepsOrder`) |
| FileStorage.PatchComposes | src/lib/fileStorage.ts:55 | two spreads in a row are one spread of the merged body; an empty body changes nothing |
| FileStorage.UpdateAbsent | src/lib/fileStorage.ts:51-60 | an update for an id that no record has leaves the list unchanged |
| FileStorage.UpdateFirstOnly | src/lib/fileStorage.ts:53-55 | an update patches the first record with the id, and no other record |
| FileStorage.DeleteRemovesAll | src/lib/fileStorage.ts:62-67 | after a delete no record has the id; every other record stays, as often as before |
| FileStorage.DeleteAbsent | src/lib/fileStorage.ts:62-67 | deleting an id that no record has leaves the list unchanged |
| FileStorage.DeleteIdempotent | src/lib/fileStorage.ts:62-67 | a second delete of the same id changes nothing |
| FileStorage.DeleteKeepsOrder | src/lib/fileStorage.ts:64 | delete distributes over concatenation, so the kept records keep their order |
| FileStorage.UpsertedRecord | src/lib/fileStorage.ts:80-85 | the stored budget has the caller's category, month and amount, and `updatedAt` is the second clock reading |
| FileStorage.Upserted | src/lib/fileStorage.ts:74-95 | the list after `upsertBudget`: the first record of the key replaced, or the new record appended (properties: `UpsertExisting`, `UpsertNew`, `UpsertKeepsUnique`, `UpsertKeyOnce`, `UpsertTwice`) |
| FileStorage.UpsertExisting | src/lib/fileStorage.ts:76-88 | an existing key's first record is replaced in place and keeps its `_id` and `createdAt`; the other records and the length stay |
| FileStorage.UpsertNew | src/lib/fileStorage.ts:80-91 | a new key appends one record with the fresh id, `createdAt` from the first `new Date()` and `updatedAt` from the second |
| FileStorage.UpsertKeepsUnique | src/lib/fileStorage.ts:74-95 | the upsert keeps at most one budget per (category, month) |
| FileStorage.UpsertKeyOnce | src/lib/fileStorage.ts:74-95 | after an upsert its key has exactly one budget |
| FileStorage.UniqueKeyCount | src/lib/fileStorage.ts:76-78 | in a list with unique keys, a key that occurs occurs exactly once |
| FileStorage.UpsertTwice | src/lib/fileStorage.ts:74-95 | upserting one key twice adds at most one record |
| FileStorage.Store.constructor | src/lib/fileStorage.ts:18-25 | the store holds the two arrays read from the files |
| FileStorage.Store.AddTransaction | src/lib/fileStorage.ts:38-49 | pushes the stamped record and returns it; the budgets are unchanged |
| FileStorage.Store.UpdateTransaction | src/lib/fileStorage.ts:51-60 | the list becomes `Updated`; `null` iff no record has the id; otherwise it returns the patched first record with the id, which is now in the list |
| FileStorage.Store.DeleteTransaction | src/lib/fileStorage.ts:62-67 | the list becomes the records without the id, which are also returned |
| FileStorage.Store.UpsertBudget | src/lib/fileStorage.ts:74-95 | the budgets become `Upserted` and the stored record is returned; unique keys stay unique |
| Ordering.SortByDateDesc | src/app/api/transactions-file/route.ts:24 | the stable newest-first order, of the same length as its input (properties: `SortSorted`, `SortPermutes`, `SortStable`) |
| Ordering.InsertPermutes | src/app/api/transactions-file/route.ts:24 | an insertion adds exactly `x` to the multiset |
| Ordering.InsertSorted | src/app/api/transactions-file/route.ts:24 | inserting into a newest-first list keeps it newest first |
| Ordering.InsertKeepsTies | src/app/api/transactions-file/route.ts:24 | insertion never reorders transactions of equal date |
| Ordering.SortSorted | src/app/api/transactions-file/route.ts:24 | the sort orders newest first |
| Ordering.SortPermutes | src/app/api/transactions-file/route.ts:24 | the sort is a permutation of its input |
| Ordering.SortStable | src/app/api/transactions-file/route.ts:24 | the sort is stable: the transactions of each date keep their relative order |
| Ordering.SortInPlace | src/app/api/transactions-file/route.ts:24 | sorting the array in place leaves exactly the stable newest-first order of its old contents |
| Ordering.InsertAt | src/app/api/transactions-file/route.ts:24 | one in-place step inserts `a[i]` into the sorted prefix and leaves the rest alone |
| TransactionsFileRoute.MonthFiltered | src/app/api/transactions-file/route.ts:12-21 | without a month every stored transaction, otherwise those within the month's inclusive bounds (properties: `GetAll`, `GetMonth`, `GetMonthKey`) |
| TransactionsFileRoute.Get | src/app/api/transactions-file/route.ts:5-34 | the answer is the month filter of the stored list, stably sorted newest first |
| TransactionsFileRoute.GetAll | src/app/api/transactions-file/route.ts:12-24 | without a month, every stored transaction is answered, newest first |
| TransactionsFileRoute.GetMonth | src/app/api/transactions-file/route.ts:12-24 | with a month, the answer is newest first and holds each in-range transaction as often as the store does, and no other |
| TransactionsFileRoute.GetMonthKey | src/app/api/transactions-file/route.ts:13-20 | for a month's key, the filter keeps exactly the instants from day 1 at midnight up to, not including, the next month |
| TransactionsFileRoute.Post | src/app/api/transactions-file/route.ts:36-60 | answers 201 with the fresh id, and appends exactly the new record to the store |
| TransactionsRoute.QueryFor | src/app/api/transactions/route.ts:12-23 | `{}` without a month, otherwise the date bounds of the parsed key (properties: `QueryForKey`, `QueryMissesLastMilliseconds`) |
| TransactionsRoute.QueryOfKey | src/app/api/transactions/route.ts:15-16 | `new Date(year, monthNum - 1, 1)` to `new Date(year, monthNum, 0, 23, 59, 59)` (properties: `QueryStartsWithRange`, `QueryEndsBeforeRange`, `QueryForKey`) |
| TransactionsRoute.Matches | src/app/api/transactions/route.ts:17-22 | `$gte`/`$lte` on the date; an Invalid Date bound matches nothing (property: `GetMatching`) |
| TransactionsRoute.Get | src/app/api/transactions/route.ts:25-29 | `find(query).sort({ date: -1 })` (properties: `GetAll`, `GetMatching`, `PostedIsListed`) |
| TransactionsRoute.GetAll | src/app/api/transactions/route.ts:12-29 | without a month, every stored transaction is answered, newest first |
| TransactionsRoute.GetMatching | src/app/api/transactions/route.ts:12-29 | the answer is newest first and holds each matching transaction as often as the collection does, and no other |
| TransactionsRoute.QueryForKey | src/app/api/transactions/route.ts:13-16 | for a month's key, the query runs from day 1 at 00:00:00.000 to the last day (28, 29, 30 or 31) at 23:59:59.000 |
| TransactionsRoute.FebruaryEnds | src/app/api/transactions/route.ts:16 | day 0 of March is the 29th in 2024 and 2000, and the 28th in 2023 and 1900 |
| TransactionsRoute.QueryStartsWithRange | src/app/api/transactions/route.ts:15 | the query starts where `getMonthDateRange` starts |
| TransactionsRoute.QueryEndsBeforeRange | src/app/api/transactions/route.ts:16 | the query ends 999 ms before the end of `getMonthDateRange` |
| TransactionsRoute.QueryMissesLastMilliseconds | src/app/api/transactions/route.ts:13-16 | the same for any `month` parameter that parses: the same start, and an end 999 ms earlier |
| TransactionsRoute.NewTransaction | src/app/api/transactions/route.ts:46-52 | the new document has no id, the new `createdAt`, and the posted fields |
| TransactionsRoute.Post | src/app/api/transactions/route.ts:41-67 | answers 201 with the inserted id; the collection gains exactly the new document, with that id |
| TransactionsRoute.PostedIsListed | src/app/api/transactions/route.ts:41-67 | a posted transaction is listed for every month whose query its date matches |
| Analytics.Get | src/app/api/analytics/route.ts:12-17 | a missing or empty month is a 400 "Month parameter is required", and nothing else is; otherwise the report has twelve lines |
| Analytics.Summaries | src/app/api/analytics/route.ts:48-64 | one line per category, in the categories' order |
| Analytics.Percentage | src/app/api/analytics/route.ts:54 | 0 without a positive budget, otherwise `percentage * budget == spent * 100` |
| Analytics.GroupByCategory | src/app/api/analytics/route.ts:28-45 | `$match` then `$group` by category summing amounts (properties: `GroupedSpent`, `GroupsUnique`, `GroupedTotal`) |
| Analytics.AddToSpent | src/app/api/analytics/route.ts:35-38 | adding a transaction raises its own category's sum by its amount, and no other sum |
| Analytics.AddToKeepsUnique | src/app/api/analytics/route.ts:35-38 | adding a transaction keeps one group per category |
| Analytics.AddToTotal | src/app/api/analytics/route.ts:35-38 | adding a transaction raises the sum of all groups by its amount |
| Analytics.GroupedSpent | src/app/api/analytics/route.ts:35-38 | a category's group holds the sum of the amounts of its transactions, and 0 stands for a category with none |
| Analytics.GroupsUnique | src/app/api/analytics/route.ts:35-38 | `$group` outputs one document per category |
| Analytics.GroupedTotal | src/app/api/analytics/route.ts:35-38 | the groups together hold every amount once |
| Analytics.BudgetAmount | src/app/api/analytics/route.ts:49-52 | the amount of the first of the month's budgets with the category, or 0 without one (properties: `SummaryBudget`, `SummaryNoBudget`) |
| Analytics.Summarize | src/app/api/analytics/route.ts:48-64 | one summary line (property: `SummaryLine`) |
| Analytics.MonthReport | src/app/api/analytics/route.ts:19-85 | the response body for a month (properties: `SummaryLine`, `TotalSpentIsMonthTotal`, `TotalSpentCoversSummary`, `TotalBudgetIsColumn`, `RecentList`, `EmptyMonth`, `ExampleMonth`) |
| Analytics.Recent | src/app/api/analytics/route.ts:71-78 | the ten newest of the month (properties: `RecentList`, `RecentFromMonth`, `RecentInRange`, `RecentIsNewest`) |
| Analytics.SummaryLine | src/app/api/analytics/route.ts:48-64 | line `i` is category `i`; its spent is the month's sum for that category; its percentage and status follow from spent and budget |
| Analytics.SummaryBudget | src/app/api/analytics/route.ts:49-52 | with one budget per key, as the store keeps them, a category's budget column is its budget's amount for the month |
| Analytics.SummaryNoBudget | src/app/api/analytics/route.ts:52-54 | without a budget for the month, the budget and percentage columns are 0 |
| Analytics.UnbudgetedStatus | src/app/api/analytics/route.ts:52-55 | a category without a budget is 'over' iff anything was spent on it, and 'safe' otherwise |
| Analytics.TotalSpentIsMonthTotal | src/app/api/analytics/route.ts:67 | `totalSpent` is the sum of every transaction of the month |
| Analytics.SummariesSpent | src/app/api/analytics/route.ts:48-64 | the spent column adds up to the per-category sums |
| Analytics.CategoryTotalIsListed | src/app/api/analytics/route.ts:48-64 | over distinct categories, the per-category sums add up to the sum of the transactions in those categories |
| Analytics.SumSplits | src/app/api/analytics/route.ts:67 | the month's sum is its listed part plus its unlisted part |
| Analytics.TotalSpentCoversSummary | src/app/api/analytics/route.ts:67 | `totalSpent` is the spent column plus spending on categories outside the twelve, and so at least the column when no amount is negative |
| Analytics.SummariesBudget | src/app/api/analytics/route.ts:48-64 | the budget column adds up to the budget amounts found per category |
| Analytics.BudgetTotalIsAll | src/app/api/analytics/route.ts:68 | budgets with distinct categories, all listed, add up to the amounts found per category |
| Analytics.MonthBudgetsUnique | src/app/api/analytics/route.ts:22-25 | one month's budgets from a store with unique keys have distinct categories |
| Analytics.TotalBudgetIsColumn | src/app/api/analytics/route.ts:68 | with unique keys and listed categories, `totalBudget` equals the sum of the budget column |
| Analytics.RecentList | src/app/api/analytics/route.ts:71-78 | the recent list holds at most ten transactions, newest first, and is a prefix of the month's newest-first list |
| Analytics.RecentFromMonth | src/app/api/analytics/route.ts:71-78 | the recent list is a sub-multiset of the month's transactions, and all of them when there are ten or fewer |
| Analytics.RecentInRange | src/app/api/analytics/route.ts:73-75 | every listed transaction lies in the month's range |
| Analytics.RecentIsNewest | src/app/api/analytics/route.ts:76-77 | with more than ten, the list has ten, and nothing cut is newer than the last listed |
| Analytics.EmptyMonth | src/app/api/analytics/route.ts:48-78 | a month with no transactions and no budgets has twelve zero lines, all 'safe', zero totals and no recent transactions |
| Analytics.ExampleMonth | src/app/api/analytics/route.ts:48-68 | Food 500 + 300 with budget 1000 is 800, 80%, 'warning'; Transportation 200 without a budget is 0% and 'over'; both totals are 1000 |
| BudgetComparisonChart.AtLeastZero | src/components/BudgetComparisonChart.tsx:19 | `Math.max(0, x)` is at least 0 and at least x, and is one of them |
| BudgetComparisonChart.RowOf | src/components/BudgetComparisonChart.tsx:15-20 | a row copies category, budget and spent; remaining is at least 0, is 0 iff spent reaches the budget, and otherwise is budget minus spent |
| BudgetComparisonChart.ChartData | src/components/BudgetComparisonChart.tsx:13-20 | one row per budgeted line, in order |
| BudgetComparisonChart.ChartRows | src/components/BudgetComparisonChart.tsx:13-20 | every row has a positive budget, and every budgeted line has a row |
| BudgetComparisonChart.ChartOrder | src/components/BudgetComparisonChart.tsx:13-20 | charting a concatenation gives the two charts concatenated |
| BudgetComparisonChart.ShowsEmptyMessage | src/components/BudgetComparisonChart.tsx:45-46 | "No budget data available" is shown iff no line has a positive budget |
| BudgetComparisonChart.TooltipLabel | src/components/BudgetComparisonChart.tsx:29-30 | 'Budget' iff the key is budget, 'Spent' iff spent, 'Remaining' for any other key |
| InsightCards.OverBudget | src/components/InsightCards.tsx:17 | the 'over' lines, in order (properties: `ListMembers`, `ListsDisjoint`, `ListsSplitData`) |
| InsightCards.CloseToLimit | src/components/InsightCards.tsx:18 | the 'warning' lines, in order (same properties) |
| InsightCards.OnTrack | src/components/InsightCards.tsx:19 | the 'safe' lines with a positive budget, in order (same properties) |
| InsightCards.ListsSplitData | src/components/InsightCards.tsx:17-19 | the over, close-to-limit and on-track lists and the unbudgeted 'safe' lines together count the data exactly |
| InsightCards.ListsDisjoint | src/components/InsightCards.tsx:17-19 | no line is in two lists, so together they hold at most the data |
| InsightCards.ListMembers | src/components/InsightCards.tsx:17-19 | a line is in the over list iff 'over', in close-to-limit iff 'warning', and in on-track iff 'safe' with a positive budget |
| InsightCards.Badges | src/components/InsightCards.tsx:56 | the badges are the first two lines of a list, and a list of at most two is shown whole |
| InsightCards.CountNoun | src/components/InsightCards.tsx:52 | "category" iff the count is 1, and "categories" for every other count (the same noun at lines 77 and 102) |
| InsightCards.TotalBudgetUsedRange | src/components/InsightCards.tsx:21 | the share of the total budget used (the percentage formula applied to the totals) is at least 100% iff spending reaches the budget; between 0 and 100 while spending is between 0 and the budget |
| InsightCards.StatusLabel | src/components/InsightCards.tsx:124-125 | 'Over', 'Warning' and 'Safe' iff the status is over, warning and safe |
| InsightCards.CardOf | src/components/InsightCards.tsx:136-143 | progress is `Math.min(100, percentage)`: the percentage up to 100, and 100 from 100 on; the overspend note appears iff the percentage exceeds 100, and shows spent minus budget |
| InsightCards.DetailCards | src/components/InsightCards.tsx:119 | one card per budgeted line, in order |
| InsightCards.CardsOfBudgeted | src/components/InsightCards.tsx:119 | every card has a positive budget, and every budgeted line has a card |
| InsightCards.CardOfLine | src/components/InsightCards.tsx:136-143 | on a consistent budgeted line, the overspend note appears iff spent exceeds the budget and is then positive; the bar is full iff the line is 'over' |
| InsightCards.CardOfSummaryLine | src/components/InsightCards.tsx:136-143 | the same holds for every budgeted line of the analytics summary |

## Left out

- File I/O (`fs.readFile`/`writeFile`, `ensureDataDir`) is not modelled. Each store operation reads and writes its whole file, and the model treats that as one step, so the lost update between two concurrent requests is not modelled.
- The `Store` constructor stands for reading the two files. A missing or unreadable file reads as `[]`, which a caller models by passing `[]`.
- The MongoDB and Postgres connections (`src/lib/mongodb.ts`, `src/lib/postgres.ts`) are not part of this model: a collection is a sequence.
- The 500 answers of the catch blocks, and JSON parsing of request bodies, are not modelled.
- Floating point is not modelled: amounts are exact reals. NaN and Infinity enter only as the zero-budget case of `getBudgetStatus`, which is modelled by its outcome.
- `parseFloat(body.amount)` and `new Date(body.date)` of a request body are not modelled: the parsed number and instant are parameters.
- Time zones are not modelled: local time is naive time with no offset.
- `Number()` of a month-key piece is modelled for digit strings and the empty string only. Whitespace, signs, decimals and exponents are read as NaN.
- The database's order for equal dates is left open by `.sort({ date: -1 })`. The model uses the stable order of the collection.
- `$group` output order is unspecified in MongoDB. The model uses first appearance. No lemma about all inputs depends on that order; only the worked example `Analytics.ExampleGroups` fixes it.
- `Analytics.SummaryBudget`: with two budgets for one category and month, `find` takes the first. The lemma assumes unique keys, as `upsertBudget` keeps them (`FileStorage.UpsertKeepsUnique`).
- `Analytics.TotalBudgetIsColumn`: stated only for a store with unique keys whose budgets are all for listed categories. Otherwise `totalBudget` also counts the other budgets.
- A patch body is modelled with the six keys of a transaction. Extra keys of the spread are not modelled.
- Formatting and display are not modelled: `formatCurrency`, `formatDate`, `toFixed`, the badge text, the chart's axis formatter and the markup.
- `cn` (class-name merging) is not modelled.
- `getCurrentMonth` reads the clock and is not modelled; `MonthKeys.FormatMonthKey` is the key it produces.
- `src/components/Dashboard.tsx`, `BudgetForm.tsx` and `TransactionForm.tsx` are not part of this model.
- `src/app/api/budgets/route.ts` and `src/app/api/transactions/[id]/route.ts` are not part of this model.
