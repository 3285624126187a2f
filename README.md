# finance_app ledger core in Dafny

This project models the ledger core of finance_app. That is a small personal-finance application: an Express server over MySQL, plus a React client. Its entities are:

- **finance records**: an amount, a type, a transaction date, a category and a settled flag.
- **reports**: a name, a date range and a starting amount.
- **report_records**: link rows that put records into reports.
- **recurring templates**: records without a date, carrying an optional day of the month.

The model covers these parts of the application.

- **Server.** `app.js` holds the store operations and the report figures. `total_income`, `total_expense`, `net_amount` and `total_balance` are SQL aggregates, and so is the per-row `running_balance`. `authenticateApiKey` decides who gets in.
  - Dafny: modules `Ledger` (figures, views, authentication) and `Store` (the class `LedgerStore`, whose maps and link list the operations update in place).
- **Report page.** `ReportDetails.js` projects a template's day onto the report's start month (`calculateTransactionDate`). It maps the selected templates to a batch, toggles a selection, totals amounts per category and merges those totals into chart bars.
  - Dafny: module `ReportDetails`.
- **Dashboard.** `Dashboard.js` computes the monthly widgets (`getMonthTotal`, `calculateNetAmount` and the percentage change). It also builds the six-month chart: the month window, the sorted categories and the month × category matrix.
  - Dafny: module `Dashboard`.
- **Reports list.** `Reports.js` groups reports by month, newest month first, and shows each report's final balance.
  - Dafny: module `ReportsPage`.
- **Recurring page.** `RecurringTransactions.js` guards the day-of-month input with JavaScript `parseInt`, and shows an unset day as "Any".
  - Dafny: module `Recurring`.

Supporting modules:

- `Calendar`: the JavaScript `Date` constructor's month and day normalisation, and `setDate`.
- `Sorting`: an insertion sort used for the array sorts, with sortedness and permutation proofs.
- `Wrappers`: `Option`, `Result` and the error kinds.

How values are represented:

- Amounts are integer cents.
- Dates are (year, month 1..12, day).
- The category totals of the report page (`{ income: {...}, expense: {...} }`) become association lists (`seq<Entry>`), which keep insertion order. The dashboard's month × category object becomes a Dafny `map`. The reports page's `grouped` object becomes a `map` plus the sequence of its keys in insertion order.

Two behaviours of the code differ from what a reader might expect; the model follows the code:

- **`calculateTransactionDate` with a day past the last day of the month.** The comment at `ReportDetails.js:417` says such a day is clamped to the last day of the month. The code first builds `new Date(y, m, day)`, which has already rolled into the next month, and only then calls `setDate(lastDay)`. So day 31 on an April start gives May 30, not April 30. `ReportDetails.ProjectionExamples` states these cases.
- **Running balance without a tie-break.** The code has no comment on this; the surprise is only against the idea of a per-row running total. `running_balance` counts every member dated on or before the row's date. Two members on the same day therefore show the same balance (`Ledger.SameDayMembersShareBalance`), and it is not the prefix sum up to the row.

## Model

| member | source | states |
|---|---|---|
| Calendar.DaysInMonth | client/src/pages/ReportDetails.js:418-422 | `new Date(y, m, 0).getDate()`: 28..31, with exactly February of a common year 28, February of a leap year 29, and April/June/September/November 30 |
| Calendar.ShiftMonth | client/src/pages/Dashboard.js:36 | `new Date(y, m - k, 1)` lands on a valid month whose linear month index is the original index plus the shift |
| Calendar.MonthIndexInjective | client/src/pages/Dashboard.js:148-151 | two valid months with the same linear index are the same month |
| Calendar.AddDays | client/src/pages/ReportDetails.js:411-415 | day normalisation of the `Date` constructor always yields a valid calendar date |
| Calendar.AddDaysDayNumber | client/src/pages/ReportDetails.js:411-415 | for every day offset `d`, however large or negative, the normalised date is the one `d − 1` days after the first of the month |
| Calendar.DayNumberInjective | client/src/pages/ReportDetails.js:411-415 | different valid dates have different day numbers, so the date AddDaysDayNumber describes is unique |
| Calendar.YearStep | client/src/pages/ReportDetails.js:411-415 | the day count grows by 366 over a leap year and 365 over any other year |
| Calendar.NextMonthStart | client/src/pages/ReportDetails.js:411-415 | the first of the next month is the month's length after the first of this one, across year ends too |
| Calendar.JsDate | client/src/pages/ReportDetails.js:411-415 | `new Date(y, m0, d)` with a zero-based month of any size yields a valid date |
| Calendar.SetDate | client/src/pages/ReportDetails.js:425 | `setDate(n)` on a valid month yields a valid date |
| Calendar.DayZeroOfNextMonth | client/src/pages/ReportDetails.js:418-422 | day 0 of the following month is the last day of the month |
| Calendar.InRangeDayUnchanged | client/src/pages/ReportDetails.js:411-415 | an in-range day is kept as given |
| Calendar.OverflowLandsInNextMonth | client/src/pages/ReportDetails.js:411-415 | a day past the end of the month (by less than the next month's length) lands in the next month at day − length |
| Sorting.SortSorted | client/src/pages/Dashboard.js:164-168 | sorting distinct elements by a strict total order yields a sorted permutation of them |
| Sorting.InsertSorted | client/src/pages/Dashboard.js:164-168 | inserting a new element into a sorted sequence keeps it sorted |
| Ledger.Members | app.js:337-340 | the members of a report are at most its link rows |
| Ledger.MembersAreLinkRows | app.js:313-314 | a stored record occurs among a report's members exactly as often as a link row joins it to the report |
| Ledger.MembersFromRecords | app.js:337-338 | every member is a stored finance record |
| Ledger.SumOfPermutation | app.js:286-288 | SQL SUM does not depend on the order of the joined rows |
| Ledger.EmptyReport | app.js:286-291 | a report with no members has income, expense and net 0 (COALESCE) and its starting amount as balance |
| Ledger.NetAmountSplit | app.js:288 | net_amount is total_income − total_expense − the amounts of every record of any other type (ELSE −amount) |
| Ledger.NetIsIncomeMinusExpense | app.js:286-288 | when every member is income or expense, net_amount and the balance from 0 are income − expense |
| Ledger.FiguresOrderIndependent | app.js:305-342 | totals, net, total_balance and every running_balance are equal over any reordering of the members |
| Ledger.LatestRunningBalanceIsTotalBalance | app.js:305-336 | a member dated no earlier than all others shows the report's total_balance |
| Ledger.RunningBalanceIsPrefixSum | app.js:328-341 | in date order, the running_balance of the last member of a day is starting amount + net of the prefix up to it |
| Ledger.SameDayMembersShareBalance | app.js:334 | two same-day members show the same running_balance although their prefix sums differ |
| Ledger.ViewConsistent | app.js:305-350 | one row per member, in member order; total_balance = starting amount + net_amount; every row dated no earlier than all members shows total_balance |
| Ledger.Authenticate | app.js:44-61 | 401 exactly when the header is missing or empty, 403 exactly when it is non-empty and differs from the configured key, proceed exactly when it equals it |
| Ledger.OnlyConfiguredKeyProceeds | app.js:48-56 | a request proceeds only with a non-empty header equal to the configured key; an unset key admits nobody |
| Store.LedgerStore.constructor | app.js:66-75 | an empty store satisfying the store invariant |
| Store.LedgerStore.CreateCategory | app.js:96-108 | a fresh id; the category is added under it and nothing else changes |
| Store.LedgerStore.CreateRecord | app.js:159-171 | a fresh id; the record is stored unsettled, no report's members change |
| Store.LedgerStore.UpdateRecord | app.js:209-224 | NotFound exactly for an unknown id; otherwise every column but id and settled is replaced |
| Store.LedgerStore.DeleteRecord | app.js:227-241 | NotFound exactly for an unknown id; the record is removed and every report loses exactly that record from its members |
| Store.LedgerStore.SetSettled | app.js:244-259 | NotFound exactly for an unknown id; only the settled flag of that record changes |
| Store.LedgerStore.CreateReport | app.js:264-278 | a fresh id; a missing starting amount is stored as 0 (`starting_amount \|\| 0`); the report is returned |
| Store.LedgerStore.UpdateReport | app.js:358-376 | NotFound and no change for an unknown id; otherwise all four columns are replaced and the updated report is returned |
| Store.LedgerStore.DeleteReport | app.js:379-393 | NotFound exactly for an unknown id; the report is removed and nothing else changes |
| Store.LedgerStore.AddRecordToReport | app.js:396-425 | a failed insert changes nothing; a failed link leaves the new record unlinked; on success the report gains exactly the new record as last member, the record comes back with its category name, and every other report is unchanged |
| Store.LedgerStore.GetReport | app.js:303-355 | NotFound exactly for an unknown id. Otherwise the result is the view over the report's current members: the report; income, expense and net (the signed sum) over its members; total_balance = starting amount + net. It has one row per member, carrying the member, its joined category name and its running balance (starting amount + signed sum of the members dated on or before it) |
| Store.LedgerStore.ListReports | app.js:281-300 | one summary per report; income and expense are member sums and net_amount = income − expense − other-type amounts |
| Store.WithoutRecord | app.js:229-232 | the members left after a delete are exactly those with another id |
| Store.UnlinkedRecordInvisible | app.js:162-165 | a stored record with no link row changes no report's members |
| Store.LinkAppendsMember | app.js:407-410 | a new link row appends its record to the report's members |
| Store.LinkElsewhereInvisible | app.js:407-410 | a link row to one report leaves every other report's members unchanged |
| Store.DeleteDropsMember | app.js:229-232 | deleting a record removes every copy of it from every report's members and keeps the rest in order |
| Store.SettledLeavesSums | app.js:247-250 | flipping settled leaves every sum that ignores settled unchanged |
| Store.SettledLeavesFigures | app.js:244-259 | the settled patch moves no total, net or running balance |
| Recurring.TrimStart | client/src/pages/RecurringTransactions.js:264 | `parseInt` starts at a suffix of the input that does not begin with white space |
| Recurring.DigitRun | client/src/pages/RecurringTransactions.js:264 | the length of the maximal digit run at the start |
| Recurring.ParseIntOfUnsigned | client/src/pages/RecurringTransactions.js:264 | a string starting with a digit parses as its unsigned number |
| Recurring.ParseIntOfNegated | client/src/pages/RecurringTransactions.js:264 | a leading minus negates the number after it |
| Recurring.ParseIntRoundTrip | client/src/pages/RecurringTransactions.js:264 | `parseInt` of a rendered integer is that integer |
| Recurring.ParseIntAfterTrim | client/src/pages/RecurringTransactions.js:264 | only the text after leading white space decides the result |
| Recurring.ParseUnsignedDecimal | client/src/pages/RecurringTransactions.js:264 | digits followed by non-digit text read as the digits alone |
| Recurring.ParseUnsignedHex | client/src/pages/RecurringTransactions.js:264 | a `0x` prefix makes the digits read in base 16 |
| Recurring.OnNewDayInput | client/src/pages/RecurringTransactions.js:262-267 | an accepted value is stored exactly as typed; a refused one leaves the form unchanged |
| Recurring.OnEditDayInput | client/src/pages/RecurringTransactions.js:332-337 | the edit dialog applies the same guard to the selected template |
| Recurring.AcceptedDays | client/src/pages/RecurringTransactions.js:264 | the empty value is accepted; a written integer is accepted exactly when it lies in 1..31 |
| Recurring.AcceptedValueIsDay | client/src/pages/RecurringTransactions.js:264 | every accepted non-empty value reads as a day in 1..31 |
| Recurring.TrailingTextAccepted | client/src/pages/RecurringTransactions.js:264-265 | a day number followed by text ("7th") is accepted and stored with the text |
| Recurring.LeadingSpaceAccepted | client/src/pages/RecurringTransactions.js:264-265 | leading white space does not change the verdict and is stored |
| Recurring.NoDigitsRejected | client/src/pages/RecurringTransactions.js:264 | a non-empty value with no digit is refused |
| Recurring.ExponentFormAccepted | client/src/pages/RecurringTransactions.js:256-267 | "1e1", which a number field can deliver, is accepted as day 1 and stored as typed |
| Recurring.FractionFormAccepted | client/src/pages/RecurringTransactions.js:256-267 | "31.9" is accepted as day 31 and stored as typed |
| Recurring.HexPrefixAccepted | client/src/pages/RecurringTransactions.js:264-265 | "0x1f" is accepted as day 31 |
| Recurring.DayDisplay | client/src/pages/RecurringTransactions.js:197 | "Any" exactly when the day is null or 0 |
| Recurring.DayDisplayRoundTrip | client/src/pages/RecurringTransactions.js:197 | a displayed day number reads back as the day |
| ReportDetails.CalculateTransactionDate | client/src/pages/ReportDetails.js:407-429 | the computed date is the projection: today for a falsy day, else the constructor-normalised date in the start month, reset by `setDate(last)` when the day exceeds the month |
| ReportDetails.NextMonthNotShorter | client/src/pages/ReportDetails.js:424-426 | after a month shorter than 31 days comes one at least as long, so `setDate(last)` stays in that month |
| ReportDetails.ProjectionDayNumber | client/src/pages/ReportDetails.js:407-429 | for every set day, including days below 1 and above 31: the constructor's date lies `day − 1` days after the first of the start month. That date is the result when the day fits the month; otherwise the result is day `lastDay` (normalised) of the month the constructor landed in |
| ReportDetails.ProjectionOfGuardedDay | client/src/pages/ReportDetails.js:407-429 | for a guarded day 1..31 the date is valid, in the start month exactly when the day fits, otherwise in the next month, with day min(d, last) |
| ReportDetails.ProjectionExamples | client/src/pages/ReportDetails.js:407-429 | April 15 → April 15; April 31 → May 30; 2024-02 day 30 → March 29; 2023-02 day 29 → March 28; December 31 kept; April day 100 → July 30; April day −5 → March 26; null or 0 → today |
| ReportDetails.RecurringBatch | client/src/pages/ReportDetails.js:431-439 | one record per selected template in order, fields copied and the date projected |
| ReportDetails.BatchDistributes | client/src/pages/ReportDetails.js:433 | the batch of a concatenation is the concatenation of the batches |
| ReportDetails.WithoutId | client/src/pages/ReportDetails.js:400 | exactly the templates with another id remain |
| ReportDetails.WithoutIdDistributes | client/src/pages/ReportDetails.js:400 | the filter keeps relative order |
| ReportDetails.Toggle | client/src/pages/ReportDetails.js:396-405 | a selected id is filtered out, an unselected template appended; afterwards the id is selected exactly when it was not before |
| ReportDetails.ToggleTwiceRestores | client/src/pages/ReportDetails.js:396-405 | selecting then deselecting a template restores the selection |
| ReportDetails.ToggleExtendsBatch | client/src/pages/ReportDetails.js:396-439 | toggling a template in appends exactly its record to the batch |
| ReportDetails.AddToLookup | client/src/pages/ReportDetails.js:300-303 | adding to a key raises its total by the amount and leaves other keys alone |
| ReportDetails.AddToHasKey | client/src/pages/ReportDetails.js:300-303 | the keys after adding are the old ones plus the added key |
| ReportDetails.AddToDistinct | client/src/pages/ReportDetails.js:300-303 | a key is never entered twice |
| ReportDetails.AccumulateStep | client/src/pages/ReportDetails.js:295-304 | filing one more row keeps the totals equal to the per-category sums of the rows so far |
| ReportDetails.CalculateCategoryTotals | client/src/pages/ReportDetails.js:289-307 | fails (TypeError) exactly when some row's type is neither income nor expense; otherwise each type's keys are exactly the categories (or "null") with a row of that type, with distinct keys, and each total is the sum of those rows' amounts |
| ReportDetails.ChartLabels | client/src/pages/ReportDetails.js:311-314 | the labels are exactly the keys of the income or expense totals |
| ReportDetails.ChartBars | client/src/pages/ReportDetails.js:317-326 | one bar per label: the income total if nonzero, else the expense total; drawn as income exactly when the income total is positive |
| ReportDetails.ChartOfReport | client/src/pages/ReportDetails.js:289-326 | a category gets a bar exactly when some income or expense row is filed under it, and one with no income rows shows its expense total |
| Dashboard.TargetLabel | client/src/pages/Dashboard.js:35-37 | the target month label is that of the month `offset` months before today |
| Dashboard.GetMonthTotal | client/src/pages/Dashboard.js:34-58 | the loop total is the sum of the amounts of the given type over the reports whose start month is the target month |
| Dashboard.CalculateNetAmount | client/src/pages/Dashboard.js:272-292 | income total minus expense total of the reports starting in the month |
| Dashboard.MonthTotalAppend | client/src/pages/Dashboard.js:44-55 | month totals add up over concatenated report lists |
| Dashboard.OtherMonthReportIgnored | client/src/pages/Dashboard.js:48 | a report starting in another month does not move the total |
| Dashboard.PercentageChange | client/src/pages/Dashboard.js:68-71 | 100 for growth from 0, else 0 from 0; otherwise change × abs(previous) = (current − previous) × 100 |
| Dashboard.PercentageArrow | client/src/pages/Dashboard.js:68-71 | the change is non-negative exactly when the previous total is 0 or the current one is at least the previous one |
| Dashboard.MonthlyWidget | client/src/pages/Dashboard.js:60-74 | current at the offset, previous at offset + 1, the change between them, shown exactly for a type widget at offset 0 |
| Dashboard.WindowShape | client/src/pages/Dashboard.js:148-151 | six labels, oldest first, consecutive months ending with today's month, all distinct |
| Dashboard.WindowAcrossYearEnd | client/src/pages/Dashboard.js:148-151 | in February 2024 the window runs from September 2023 to February 2024 |
| Dashboard.CollectCategories | client/src/pages/Dashboard.js:154-161 | the collected names are distinct and are exactly the non-empty category names of any record |
| Dashboard.SortedCategoriesShape | client/src/pages/Dashboard.js:164-168 | after the sort "Salary" comes first when present and the rest are in ascending string order, a permutation of the input |
| Dashboard.InitMatrix | client/src/pages/Dashboard.js:182-188 | every month × category cell starts at 0 |
| Dashboard.FillMatrix | client/src/pages/Dashboard.js:191-202 | each cell becomes its start plus the amounts, of any type, of the records in that category of the reports starting in that month |
| Dashboard.BuildDatasets | client/src/pages/Dashboard.js:205-213 | one dataset per category with one value per month, read from the matrix |
| Dashboard.PrepareChartData | client/src/pages/Dashboard.js:145-213 | labels are the window; datasets are exactly the categories present, Salary first then ascending; each value is the month's category sum |
| Dashboard.BucketByReportStart | client/src/pages/Dashboard.js:192-195 | a record is counted in its report's start month, not its own date's month |
| Dashboard.CellIgnoresType | client/src/pages/Dashboard.js:196-198 | income and expense amounts of a category add into the same cell |
| ReportsPage.NewerIsLaterMonth | client/src/pages/Reports.js:135-140 | the group order is descending by calendar month |
| ReportsPage.InMonth | client/src/pages/Reports.js:124-132 | a group holds only reports of its month |
| ReportsPage.InMonthNonEmpty | client/src/pages/Reports.js:128-131 | a month's group is non-empty exactly when some report starts in it |
| ReportsPage.BuildGroups | client/src/pages/Reports.js:122-132 | the keys are distinct and exactly the months that occur, and each group is its month's reports in input order |
| ReportsPage.GroupReportsByMonth | client/src/pages/Reports.js:121-141 | every group is its month's reports in input order and is non-empty; groups are strictly newest first; the months are exactly those that occur |
| ReportsPage.EachReportInOneGroup | client/src/pages/Reports.js:121-141 | every report appears in a group, and only in its own month's group |
| ReportsPage.FinalBalanceIsTotalBalance | client/src/pages/Reports.js:192-193 | the list's final balance equals the single-report total_balance: starting amount + income − expense − other-type amounts |

## Left out

- Time zones: `new Date(startDate)` parses in UTC, `toISOString` prints in UTC, and the other getters use local time. The model treats all dates as plain calendar dates in a single zone, and "today" is a parameter.
- Amounts: `parseFloat`, `toFixed(2)` and floating-point sums are modelled as exact integer cents. The running balance's string formatting is not modelled.
- Labels: `toLocaleString` labels ('short' and '2-digit', 'long' and 'numeric') become a (year, month) pair. Parsing those labels back with `new Date(monthA)` becomes a comparison of the pairs.
- `localeCompare`: modelled as plain lexicographic ordering of code points (`Sorting.StrLess`). This differs from `localeCompare` on letter case and punctuation even for ASCII names (`"Banana"` sorts before `"apple"` here).
- SQL `ORDER BY`:
  - `ORDER BY f.transaction_date` (report rows) and `ORDER BY r.created_at` (report list) are not modelled.
  - Report rows keep link order, and the report list is a map keyed by id.
  - Every figure is proved independent of row order.
- Server routes: `/api/reports/:id/records/batch`, `/api/recurring` and the dashboard data route have no server code among the files. The batch is modelled as the value it sends, and templates carry an optional day.
- Categories: listing, reading, updating and deleting categories, and the record list and read routes, are plain queries outside the ledger core. `Categories.js` is not part of this model.
- Foreign keys: `ON DELETE` cascades are not visible in the code. Deleting a report leaves its link rows, and deleting a record leaves link rows that no longer join.
- Links to report ids not yet issued: `AddRecordToReport` links to any report id, as the source's `INSERT` does when no foreign key rejects it. A link row whose report id is issued later is inherited by the report that `CreateReport` then makes, so the model does not promise that a new report has no members.
- A missing transaction date: `AddRecordToReport` takes a `Date`. In the source (`app.js:398-404`) a missing `date` is passed to SQL as `NULL`. That row then gets a `NULL` running balance and drops out of the other rows' balances, or the insert fails if the column is `NOT NULL`. Neither outcome is modelled.
- The `500` catch paths are modelled only in part:
  - Database failures appear only as the two outcomes `insertOk` and `linkOk` of `Store.LedgerStore.AddRecordToReport`.
  - Store.LedgerStore.CreateReport, Store.LedgerStore.UpdateReport and Store.LedgerStore.AddRecordToReport promise the success result. In the source each of them writes first and then runs a further `SELECT` (app.js:272, app.js:370, app.js:413-418). If that `SELECT` fails, the client gets 500 while the write stays committed. The model does not have that outcome.
  - In the other handlers the failing statement is the only write, and `authenticateApiKey`'s catch writes nothing.
- Record types are compared as exact strings. The SQL `f.type = 'income'` and `f.type = 'expense'` compare under the column's collation. MySQL's default collations ignore letter case, so a record typed 'Income' counts as income in SQL. The model counts it under the other types, as an outflow. Ledger.NetAmountSplit and ReportsPage.FinalBalanceIsTotalBalance are stated under exact comparison. The client code (`record.type === type`) does compare exactly.
- Calendar.JsDate: does not model the JavaScript rule that maps years 0..99 in `new Date(y, m, d)` to 1900 + y. It also does not model the finite range of JavaScript dates (±8.64·10^15 ms), because report dates are ordinary four-digit years.
- Recurring.LeadingSpaceAccepted, Recurring.TrailingTextAccepted and Recurring.HexPrefixAccepted: these describe `parseInt` on any string. The day fields are `type="number"` inputs (RecurringTransactions.js:257, 327), so a browser delivers only "" or a valid floating-point string. Inputs such as " 31", "7th" and "0x1f" therefore never reach the guard. The forms that do reach it are covered by Recurring.ExponentFormAccepted and Recurring.FractionFormAccepted. The browser's own input filtering is outside the model.
- Concurrency: concurrent requests and connection pooling are not modelled.
- Display details: colours, `Math.abs` in the amount display, snackbars, dialogs and fetch plumbing are not modelled.
- JavaScript object edge cases: object keys that collide with `Object.prototype` members (for example a record type named `constructor`) and numeric-looking keys, which JavaScript enumerates first, are not modelled.
- `Infinity` and `NaN` from `parseFloat` are not modelled.
- ReportDetails.ChartLabels: states which labels appear, not their first-appearance order.
- Dashboard.MonthlyWidget: `title.includes("Net")` is modelled as the widget's kind (a type widget or the net widget).
- Dashboard.CollectCategories: states membership and distinctness, not the `Set`'s insertion order. That order is lost afterwards anyway because the names are sorted.
