# Ledger and budget engine of business-finance-app

business-finance-app is a small-business finance application. It
tracks:

- bank accounts and their transactions, with VAT split at 20% and a
  separate K2 cost component;
- debts;
- recurring transaction templates;
- category budgets, per month or per project;
- cash-flow schedules planned against those budgets.

This project models the arithmetic and the table updates behind those
pages, dialogs and API routes, and proves what they promise:

- account balances and the forecast;
- the period and month pickers;
- the add and edit transaction dialogs;
- the budget table and its roll-ups, the category moves and the category dialogs;
- the project budget table;
- the recurrence generator;
- the cash-flow planning view, the schedule endpoint, the project
  cash-flow table and the cash-flow summary.

The database is modelled as one `Rows.Store` object whose tables are
sequences of records. Each storage call either succeeds or fails; which
one is a parameter, and so is today's date. Money is a `real`. Parsing a
typed number is a parameter `string -> Option<real>`, where `None`
stands for NaN. JavaScript's `a || b` on numbers and on strings is
written out in `Common`.

The modules follow the source files:

- `Common`, `Calendar` and `Rows` hold the shared values.
- `Balances` and `AccountsList` cover the accounts.
- `Periods` covers the period and month selectors.
- `TransactionForm`, `AddTransaction` and `EditTransaction` cover the transaction dialogs.
- `BudgetPage` covers app/budget.
- `BudgetRows`, `BudgetTable`, `BudgetRollups` and `BudgetCategories` cover components/budget-table.tsx.
- `ProjectBudget` covers the project budget table.
- `AddCategory`, `EditCategory` and `AddExistingCategory` cover the category dialogs.
- `Recurrence` covers the recurring-transaction route.
- `Forecast` covers the forecast page and chart.
- `CashFlowPlanning`, `ScheduleApi`, `ProjectCashFlowTable` and `CashFlowSummary` cover the cash-flow pieces.

Code that changes state step by step is written as methods with loops and
invariants, and those methods are proved equal to specification
functions. Components that only compute are written as functions. Their
lemmas relate each operation to its partner: the inverse of an
operation, the invariant it keeps, or a reference definition.

## Model

| member | source | states |
|---|---|---|
| Common.Or | app/accounts/page.tsx:36 | JS `a \|\| b` on nullable numbers: the first operand when it is present and non-zero, otherwise the second |
| Common.OrZero | app/accounts/page.tsx:36 | `x \|\| 0`: null and zero both read as 0, any other value is kept |
| Common.Filter | components/accounts-list.tsx:21-28 | `filter`: exactly the elements that satisfy the predicate, never more than the input |
| Calendar.DaysInMonth | app/budget/page.tsx:275 | `new Date(y, m, 0).getDate()`: 28 to 31 days, February has 29 exactly in leap years |
| Calendar.LastOf | app/budget/page.tsx:275-276 | the month's last day is a valid date of that month |
| Calendar.AddMonthsToMonth | components/month-selector.tsx:14 | `new Date(y, m + k, 1)`: the month whose index is `k` more, with year rollover |
| Calendar.NextMonth | app/budget/page.tsx:367-370 | the month after, one index later (December rolls into January) |
| Calendar.Settle | app/api/generate-recurring-transactions/route.ts:41 | a day past the end of a month spills into the next month as `Date` does; a day that fits is kept |
| Calendar.AddMonths | app/api/generate-recurring-transactions/route.ts:41 | `setMonth(getMonth() + k)` yields a valid date |
| Calendar.AddMonthsLater | app/api/generate-recurring-transactions/route.ts:41 | advancing by at least one month moves strictly later |
| Calendar.MonthOverflowLeapYear | app/api/generate-recurring-transactions/route.ts:41 | 31 January 2024 plus one month is 2 March 2024 |
| Calendar.MonthOverflowCommonYear | app/api/generate-recurring-transactions/route.ts:41 | 31 January 2023 plus one month is 3 March 2023 |
| Calendar.AddYears | app/api/generate-recurring-transactions/route.ts:43 | `setFullYear(getFullYear() + k)` yields a valid date |
| Calendar.AddYearsLater | app/api/generate-recurring-transactions/route.ts:43 | advancing by at least one year moves strictly later |
| Calendar.LeapDayPlusYear | app/api/generate-recurring-transactions/route.ts:43 | a year after 29 February 2024 is 1 March 2025 |
| Calendar.AddDays | app/api/generate-recurring-transactions/route.ts:39 | `setDate(getDate() + n)` yields a valid date at least `n` days later |
| Calendar.NextDay | app/budget/page.tsx:296-297 | the day after is a valid, strictly later date |
| Calendar.NextDayIsSuccessor | app/budget/page.tsx:296-298 | no valid date lies strictly between a date and the next day |
| Calendar.AddMonthsOfFirst | app/budget/page.tsx:293 | from the first of a month, adding months lands on the first of the target month |
| Calendar.MonthTokenRoundTrip | app/budget/page.tsx:292 | the "YYYY-MM" token of a common-era month reads back as that month |
| Calendar.MonthTokenInjective | components/period-selector.tsx:68 | distinct months have distinct "YYYY-MM" tokens |
| Calendar.DateTokenRoundTrip | app/budget/page.tsx:287-288 | the "YYYY-MM-DD" token of a common-era date reads back as that date |
| Calendar.ParseDateToken | app/budget/page.tsx:287-288 | anything that reads as a date is a valid common-era date |
| Calendar.MonthTokenHasDash | components/add-existing-category-dialog.tsx:51 | a month token always contains "-", so it gets "-01" appended |
| Calendar.YearTokenHasNoDash | components/add-existing-category-dialog.tsx:51 | a year token never contains "-", so it passes unchanged |
| Periods.CustomMonths | app/budget/page.tsx:290-294 | the cursor loop lists exactly the months from the start's through the end's |
| Periods.CustomMonthsCover | app/budget/page.tsx:290-294 | a month is listed by a custom period iff it lies between the start's and the end's months |
| Periods.OneMonthList | app/budget/page.tsx:290-294 | a custom period inside one month lists that month alone |
| Periods.ThreeMonthList | app/budget/page.tsx:290-294 | a custom period spanning three months lists them in order |
| Periods.SplitJoined | app/budget/page.tsx:285 | `split("_")` of two joined date tokens gives the two tokens back |
| Periods.CustomRangeOfSplit | app/budget/page.tsx:284-300 | a token splitting into two dates gives the start text, the day after the end, and the month list |
| Periods.CustomRange | app/budget/page.tsx:284-300 | "S_E" covers every month from S's through E's, and the exclusive end is the day after E |
| Periods.ExclusiveEndIsInclusiveEnd | app/budget/page.tsx:296-298 | a day lies before the exclusive end iff it is on or before E |
| Periods.CustomExample | app/budget/page.tsx:284-300 | "2024-01-15_2024-03-10" lists 2024-01, 2024-02, 2024-03 and ends at "2024-03-11" |
| Periods.MonthlyRange | app/budget/page.tsx:303-306 | "YYYY-MM" runs from its first day to the first of the next month and lists just itself |
| Periods.DecemberRollsOver | app/budget/page.tsx:367-371 | December's exclusive end is 1 January of the next year |
| Periods.AnnualMonths | app/budget/page.tsx:311-313 | the loop builds the twelve tokens of the year text |
| Periods.YearMonthListOfYear | app/budget/page.tsx:311-313 | those twelve tokens are January to December of that year, in order |
| Periods.AnnualRange | app/budget/page.tsx:307-318 | "YYYY" covers [YYYY-01-01, (YYYY+1)-01-01) and the twelve months in order |
| Periods.PeriodRange | app/budget/page.tsx:283-320 | the method with both loops computes the range the three branches define |
| Periods.PageCurrentCustomIsThisMonth | app/budget/page.tsx:273-277 | the page's current custom period resolves to this month, ending on the first of the next |
| Periods.PageCurrentPeriodIsThisMonth | app/budget/page.tsx:266-280 | the current monthly and annual periods resolve to the current month and year |
| Periods.DayBeforeLast | components/period-selector.tsx:38 | east of UTC, `toISOString` names the day before the month's last day |
| Periods.SelectorCustomToken | components/period-selector.tsx:35-39 | the selector's custom token ends on the last day, or the day before it east of UTC |
| Periods.SelectorCustomEastOfUtc | components/period-selector.tsx:38 | east of UTC the selector's custom period leaves out the month's last day |
| Periods.PeriodTypeChange | components/period-selector.tsx:45-48 | a type change navigates to that type's current period |
| Periods.CustomApply | components/period-selector.tsx:54-60 | a custom token is produced iff both dates are picked, as "start_end" |
| Periods.CustomApplyResolves | components/period-selector.tsx:54-60 | the applied token resolves to the months of the picked dates |
| Periods.MonthOptions | components/period-selector.tsx:62-78 | the nested loops give the 36 tokens from January of last year to December of next year |
| Periods.MonthOptionsSpan | components/period-selector.tsx:62-78 | the options start at January of last year, end at December of next year and ascend month by month |
| Periods.MonthWindowTokensDistinct | components/period-selector.tsx:62-78 | no option token repeats |
| Periods.YearOptions | components/period-selector.tsx:80-89 | the five years year-2 to year+2, ascending |
| Periods.MonthSelectorOptions | components/month-selector.tsx:13-23 | thirteen tokens for the offsets -6 to +6 from the current month |
| Periods.MonthSelectorCentred | components/month-selector.tsx:13-17 | the options are consecutive months and the one at index 6 is the current month |
| Periods.MonthWindowSpan | components/month-selector.tsx:14 | a month is in a window iff its index is in the window's span; the window strictly ascends |
| Rows.SignedTotal | app/accounts/page.tsx:35-36 | the source leg: the gross amount when truthy, else the net amount (null as 0), plus K2 (null as 0) |
| Balances.Effect | app/accounts/page.tsx:38-46 | the source adds the signed total, a transfer's destination adds its magnitude, anything else adds 0 |
| Balances.CalculatedBalance | app/accounts/page.tsx:28-47 | the filter-then-accumulate loop equals the replay of all transactions from the initial balance |
| Balances.AccountsWithCalculatedBalances | app/accounts/page.tsx:27-53 | the same accounts in the same order, only `current_balance` replaced by the computed balance |
| Balances.CurrentTotalBalance | app/forecast/page.tsx:15-40 | the reduce over the computed balances is the sum of every account's balance |
| Balances.BalanceOrderIndependent | app/accounts/page.tsx:34-47 | replaying the same transactions in any order gives the same balance |
| Balances.Conservation | app/forecast/page.tsx:20-40 | the total balance is the initial balances plus each transaction's flow into the listed accounts |
| Balances.TransferConserves | app/forecast/page.tsx:26-34 | a non-positive transfer between two listed accounts adds nothing to the total |
| Balances.CurrentBalanceWithClosedTransfers | app/forecast/page.tsx:15-40 | with such transfers only, the total is the initial balances plus the income and expense booked on listed accounts |
| Balances.PositiveTransferCreatesMoney | app/accounts/page.tsx:38-46 | a transfer with a positive total is credited to both sides |
| Balances.SelfTransfer | app/cash-flow-summary/page.tsx:49-55 | a transfer to its own account adds total + \|total\|, which is 0 when the total is not positive |
| Balances.WorkedExample | app/accounts/page.tsx:32-46 | initial 1000, an expense of -120 and a -200 transfer out leave 680; the receiving account holds 200 |
| BudgetPage.RelevantIffOverlap | app/budget/page.tsx:46-58 | a dated project is relevant iff it starts on or before the period end and ends on or after its start |
| BudgetPage.StartOnExclusiveEndIsRelevant | app/budget/page.tsx:57 | a project starting on the exclusive end, the day after the period, still counts |
| BudgetPage.RelevantIds | app/budget/page.tsx:60 | exactly the ids of the relevant projects |
| BudgetPage.MonthDays | app/budget/page.tsx:67 | each month token with "-01" appended, in order |
| BudgetPage.WindowBudgets | app/budget/page.tsx:62-79 | exactly the rows of the period's months whose project is relevant (the nil id when none is) |
| BudgetPage.WindowTransactions | app/budget/page.tsx:70-79 | the rows with `pl_date` in [start, end) and a relevant project; no rows when a bound is not a date |
| BudgetPage.MonthlyWindowIsTheMonth | app/budget/page.tsx:70 | a monthly period loads exactly the transactions booked in that month |
| BudgetPage.AggregateOfStep | app/budget/page.tsx:325-351 | one more row changes only its own category's entry |
| BudgetPage.AggregateOfMeaning | app/budget/page.tsx:322-354 | an entry exists iff its category has a row, takes the first row's id, and each column is the category's sum with null as 0 |
| BudgetPage.AggregateKeys | app/budget/page.tsx:353 | one key per category with rows, none twice |
| BudgetPage.AggregateBudgets | app/budget/page.tsx:322-354 | the loop returns one entry per category, in first-appearance order, each the category's aggregate |
| BudgetPage.NoRowsNoSum | app/budget/page.tsx:343-350 | a category without rows sums to 0 in every column |
| BudgetPage.AggregationKeepsTotals | app/budget/page.tsx:130-136 | a type's column summed over the aggregates equals that column summed over the stored rows |
| BudgetPage.KeysTotalIsRowsTotal | app/budget/page.tsx:322-354 | summing category by category, over the categories met, is summing the rows |
| BudgetPage.TypeActual | app/budget/page.tsx:138-144 | a type's actual, \|amount_with_vat\| + \|k2\| over its transactions, is never negative |
| BudgetPage.SummaryOf | app/budget/page.tsx:122-159 | available today is the total balance; end of month = today + (income budget - actual) - (expense budget - actual); VAT to pay = income VAT - expense VAT |
| BudgetPage.SummaryOfRows | app/budget/page.tsx:130-159 | the budget cards are the summed stored `total_with_vat` and the VAT card the summed `vat` of the rows |
| BudgetPage.ActualHasNoVatGate | app/budget/page.tsx:142-144 | a transaction without VAT counts towards the page's actual but not the budget table's VAT-gated actual |
| AccountsList.Members | components/accounts-list.tsx:21-28 | a group lists exactly the accounts that meet its condition |
| AccountsList.MembersKeepOrder | components/accounts-list.tsx:21-28 | grouping a concatenation gives the concatenation of the groups, so members keep list order |
| AccountsList.MembersStep | components/accounts-list.tsx:21-32 | one more account adds its balance to the subtotal of each group it is in |
| AccountsList.PartitionedTotals | components/accounts-list.tsx:30-34 | when every account is in exactly one group, the four subtotals add up to the grand total |
| AccountsList.OverlappingGroups | components/accounts-list.tsx:21-34 | an untyped credit card at a bank is in Payment Bank and Credit, so the subtotals count it twice |
| AccountsList.MissedAndDoubled | components/accounts-list.tsx:21-26 | a legacy bank account located in cash is in both payment groups |
| AccountsList.NewAccount | components/add-account-dialog.tsx:45 | the dialog's row: the legacy type derived from type and location, balance equal to the initial balance |
| AccountsList.CreatedAccountInOneGroup | components/accounts-list.tsx:21-28 | an account created by the dialog is in exactly one group |
| AccountsList.TypeLabel | components/accounts-list.tsx:43-51 | Credit, Savings, "Payment - Bank"/"Payment - Cash" for payment or untyped, else Unknown |
| AccountsList.LabelNamesGroup | components/accounts-list.tsx:43-51 | a created account's label names the group it is listed in |
| AccountsList.Without | components/accounts-list.tsx:64 | exactly the accounts with another id |
| AccountsList.WithoutKeepsOrder | components/accounts-list.tsx:64 | removal distributes over concatenation, so the rest keep their order |
| AccountsList.AfterDelete | components/accounts-list.tsx:53-66 | unchanged unless confirmed and deleted; then exactly the accounts with another id |
| Recurrence.Templates | app/api/generate-recurring-transactions/route.ts:9-13 | exactly the transactions that are recurring and have no parent |
| Recurrence.IntervalOf | app/api/generate-recurring-transactions/route.ts:34 | `recurrence_interval \|\| 1`: a missing or zero interval is 1, any other is kept |
| Recurrence.Advance | app/api/generate-recurring-transactions/route.ts:38-44 | a step of 7·interval days, interval months or interval years moves the cursor strictly later |
| Recurrence.Occurrence | app/api/generate-recurring-transactions/route.ts:58-74 | the generated row copies the template, carries the cursor as both dates, is not recurring and names the template as parent |
| Recurrence.Step | app/api/generate-recurring-transactions/route.ts:47-83 | the count rises by one exactly when the cursor is due, no child exists on that date and the insert succeeds |
| Recurrence.Generate | app/api/generate-recurring-transactions/route.ts:4-96 | a failed fetch answers 500 and no templates answer 0 generated; a template that never advances leaves no response; otherwise every template's loop runs |
| Recurrence.RunTemplate | app/api/generate-recurring-transactions/route.ts:28-86 | one template's `while` loop computes the run its step function defines |
| Recurrence.DueDatesBounds | app/api/generate-recurring-transactions/route.ts:36-47 | every date tried lies after the cursor, not after today and not after the end date |
| Recurrence.TemplateDateNotDue | app/api/generate-recurring-transactions/route.ts:36-47 | the cursor advances before the check, so the template's own date is never generated |
| Recurrence.AdvanceFirstMonthly | app/api/generate-recurring-transactions/route.ts:40-41 | a monthly step from the first of a month lands on the first of the next |
| Recurrence.DueFromFirst | app/api/generate-recurring-transactions/route.ts:36-47 | a monthly template from a first day tries the following first day, then continues from it |
| Recurrence.NoneDueOnFirst | app/api/generate-recurring-transactions/route.ts:36-47 | on the template's own day nothing is due |
| Recurrence.ThreeMonthsDue | app/api/generate-recurring-transactions/route.ts:36-47 | monthly from 2024-01-01 with today 2024-04-01 generates exactly 02-01, 03-01 and 04-01 |
| Recurrence.StepChildren | app/api/generate-recurring-transactions/route.ts:49-76 | a step adds at most one child, for its own template and date |
| Recurrence.RunFromKeeps | app/api/generate-recurring-transactions/route.ts:36-85 | children of other templates, and on dates up to the cursor, are left alone |
| Recurrence.RunFromFills | app/api/generate-recurring-transactions/route.ts:47-83 | after a failure-free run every due date has exactly one child, and no date has two |
| Recurrence.RunFromIdle | app/api/generate-recurring-transactions/route.ts:49-56 | when every due date already has its child, the loop inserts nothing |
| Recurrence.RunTwice | app/api/generate-recurring-transactions/route.ts:49-56 | rerunning one template with the same today after a failure-free run inserts nothing |
| Recurrence.RunFromKeepsTemplates | app/api/generate-recurring-transactions/route.ts:72-73 | generated rows are never templates, so the template list is unchanged |
| Recurrence.RunAllKeeps | app/api/generate-recurring-transactions/route.ts:28-86 | the whole run leaves children of templates outside the list alone |
| Recurrence.RunAllFills | app/api/generate-recurring-transactions/route.ts:28-86 | after a failure-free run every template has exactly one child on each due date |
| Recurrence.RunAllIdle | app/api/generate-recurring-transactions/route.ts:28-86 | when all due dates are filled, the whole run inserts nothing |
| Recurrence.GenerateTwice | app/api/generate-recurring-transactions/route.ts:9-86 | running twice with the same today: the second run finds the same templates and inserts nothing |
| Forecast.FloorDiv | components/forecast-chart.tsx:56-58 | `Math.floor(a / b)` for either sign of b: the greatest q with q·b at most a (or at least, for b < 0) |
| Forecast.OccurrencesMeaning | components/forecast-chart.tsx:52-61 | weekly ⌊30i/(7k)⌋, monthly ⌊i/k⌋, yearly 1 iff i ≥ 12k, else 0, with k the interval or 1 |
| Forecast.MonthlyCountsMonths | components/forecast-chart.tsx:52-58 | a monthly template with null or zero interval counts i occurrences at month i |
| Forecast.NegativeIntervalNeverCounts | components/forecast-chart.tsx:52-58 | with a negative interval a weekly or monthly count is never positive |
| Forecast.NegativeYearlyCountsAtOnce | components/forecast-chart.tsx:59-60 | with a negative interval a yearly template counts 1 from the first month |
| Forecast.OccurrencesGrow | components/forecast-chart.tsx:52-61 | with a positive interval, counts never decrease as the horizon grows |
| Forecast.TemplateFlow | components/forecast-chart.tsx:44-73 | an ended template or a count ≤ 0 adds nothing; otherwise \|total\| × count as income or expense by type; transfers add nothing |
| Forecast.MonthFlow | components/forecast-chart.tsx:43-74 | a month's income and expense are never negative |
| Forecast.Points | components/forecast-chart.tsx:23-32 | n+1 points, the first dated today with the current balance and no flow |
| Forecast.PointsShape | components/forecast-chart.tsx:35-84 | point i is dated i months ahead, carries month i's flow, and balance_i = balance_(i-1) + income_i - expense_i |
| Forecast.PointsPrefix | components/forecast-chart.tsx:35-85 | a longer horizon extends the shorter chart |
| Forecast.FinalBalance | components/forecast-chart.tsx:76 | the last balance is the current balance plus all income less all expense |
| Forecast.ChainedFinal | components/forecast-chart.tsx:76 | a run of points whose balance moves by each income less each expense ends at the first balance plus the totals |
| Forecast.NoTemplatesFlat | components/forecast-chart.tsx:43-76 | with no templates every point keeps the current balance |
| Forecast.ProjectionIgnoresDates | components/forecast-chart.tsx:44 | the templates' start dates have no effect on the chart |
| Forecast.MonthTotals | components/forecast-chart.tsx:39-74 | the inner loop computes the month's flow |
| Forecast.ForecastData | components/forecast-chart.tsx:17-88 | the loops produce the projection; a horizon below one yields only the first point |
| Forecast.SummaryOf | components/forecast-chart.tsx:90-93 | totals are sums over the points; a last balance of 0, or none, falls back to the current balance; net change = final - current |
| Forecast.NetChangeIsTotalFlow | components/forecast-chart.tsx:90-93 | the net change is total income less total expense when the last projected balance is nonzero, and 0 when that balance is exactly 0 |
| Forecast.PageForecast | app/forecast/page.tsx:40-47 | the chart of the page starts at the total computed balance |
| Forecast.ChildNotProjected | app/forecast/page.tsx:43-47 | a generated child is not a template, so it never enters the chart |
| ScheduleApi.ActualPart | app/api/cash-flow-schedule/route.ts:53 | \|amount_with_vat \|\| amount_without_vat \|\| 0\| is never negative |
| ScheduleApi.Actual | app/api/cash-flow-schedule/route.ts:46-55 | the pair's actual amount is never negative |
| ScheduleApi.BudgetedAppend | app/api/cash-flow-schedule/route.ts:38-44 | a budget row adds its K1 amount to its own pair and nothing to others |
| ScheduleApi.BudgetedIgnoresK2 | app/api/cash-flow-schedule/route.ts:44 | changing K2 on budget rows never moves the budgeted amount |
| ScheduleApi.Snapshot | app/api/cash-flow-schedule/route.ts:35-68 | the constant user id, the item's pair, month and amount copied; remaining = budgeted - actual |
| ScheduleApi.Snapshots | app/api/cash-flow-schedule/route.ts:34-69 | one row per item, in item order |
| ScheduleApi.Post | app/api/cash-flow-schedule/route.ts:22-79 | 400 and nothing stored when rejected; 500 and nothing stored on an insert error; otherwise every snapshot row stored at once |
| ScheduleApi.Applied | app/api/cash-flow-schedule/route.ts:85-89 | only the supplied fields change, plus `updated_at` |
| ScheduleApi.Patched | app/api/cash-flow-schedule/route.ts:87-90 | every row with the id is updated, and no other row changes |
| ScheduleApi.PatchIdempotent | app/api/cash-flow-schedule/route.ts:85-91 | applying the same PATCH twice changes nothing more |
| ScheduleApi.RowWithId | app/api/cash-flow-schedule/route.ts:92 | `.single()` finds a row with the id, or there is none |
| ScheduleApi.PatchRow | app/api/cash-flow-schedule/route.ts:81-99 | 500 on an error; otherwise the update runs, and the answer is the row only when exactly one row had the id; a 200 answers the stored row with the patch and `updated_at` applied |
| ScheduleApi.RowWithIdPatched | app/api/cash-flow-schedule/route.ts:81-99 | after the update, the row found with the id is the old row with the patch applied, and there is none when there was none |
| ScheduleApi.Deleted | app/api/cash-flow-schedule/route.ts:107 | exactly the rows with another id remain |
| ScheduleApi.DeleteIdempotent | app/api/cash-flow-schedule/route.ts:107 | deleting twice removes no more than once |
| ScheduleApi.DeleteRow | app/api/cash-flow-schedule/route.ts:101-114 | 500 and nothing removed on an error; otherwise the rows with the id are gone |
| CashFlowPlanning.ProjectBudgets | components/project-cash-flow-planning.tsx:44-45 | exactly the budget rows of the project |
| CashFlowPlanning.CategoryRemaining | components/project-cash-flow-planning.tsx:43-72 | gross K1 and the gross actual when gross K1 sums above zero, else net K1 plus K2 and the net actual; remaining is budgeted minus actual minus what is already scheduled |
| CashFlowPlanning.SchedulingLowersRemaining | components/project-cash-flow-planning.tsx:61-65 | one more schedule lowers its own pair's remaining by its amount and leaves every other pair's remaining unchanged |
| CashFlowPlanning.PlanningDiffersFromSnapshot | components/project-cash-flow-planning.tsx:46-51 | a row with net K1 100 and K2 50 leaves 150 to plan, while the schedule endpoint records a budget of 100 |
| CashFlowPlanning.ListedCategories | components/project-cash-flow-planning.tsx:196-203 | exactly the child categories with more than 0.01 left either way |
| CashFlowPlanning.ProjectShownIff | components/project-cash-flow-planning.tsx:205-207 | a project is shown if and only if one of its child categories is listed |
| CashFlowPlanning.NothingLeftToPlanIff | components/project-cash-flow-planning.tsx:334-346 | the empty-state message is shown if and only if no child category of any project has more than 0.01 left |
| CashFlowPlanning.ScheduledInFullNotListed | components/project-cash-flow-planning.tsx:203 | scheduling exactly the remaining amount takes the category off the list |
| CashFlowPlanning.InstallmentCount | components/project-cash-flow-planning.tsx:93 | `parseInt(installments) \|\| 1`: an unreadable or zero count is 1, any other count is kept |
| CashFlowPlanning.InstallmentMonth | components/project-cash-flow-planning.tsx:108-116 | each installment falls on a valid first of a month |
| CashFlowPlanning.Batch | components/project-cash-flow-planning.tsx:102-119 | n requests for a positive count, none for a negative count |
| CashFlowPlanning.BatchSumsToTotal | components/project-cash-flow-planning.tsx:102-119 | the equal parts add up to the total amount |
| CashFlowPlanning.BatchMonthsConsecutive | components/project-cash-flow-planning.tsx:108-116 | installment i falls on the first of the month i months after the start |
| CashFlowPlanning.NegativeCountRejected | components/project-cash-flow-planning.tsx:105 | a negative count posts an empty batch, which the endpoint rejects |
| CashFlowPlanning.BuildBatch | components/project-cash-flow-planning.tsx:105-119 | the loop builds exactly the batch |
| CashFlowPlanning.WithField | components/project-cash-flow-planning.tsx:170 | only the named field of the draft changes |
| CashFlowPlanning.Flipped | components/project-cash-flow-planning.tsx:32-40 | the id's membership flips and every other id's is kept |
| CashFlowPlanning.FlipTwice | components/project-cash-flow-planning.tsx:32-40 | toggling twice restores the expanded set |
| CashFlowPlanning.MonthOptions | components/project-cash-flow-planning.tsx:174-185 | twelve month options |
| CashFlowPlanning.MonthOptionsStartNow | components/project-cash-flow-planning.tsx:174-185 | the first option is the current month and no two options are the same |
| CashFlowPlanning.Planner.ToggleProject | components/project-cash-flow-planning.tsx:32-40 | the expanded set becomes its flip at the id |
| CashFlowPlanning.Planner.UpdateScheduleField | components/project-cash-flow-planning.tsx:166-172 | only the key's draft changes, starting from the empty draft when there is none |
| CashFlowPlanning.Planner.DeleteSchedule | components/project-cash-flow-planning.tsx:154-164 | a success removes the rows with the id; a failure leaves the table as it was |
| CashFlowPlanning.Planner.AddSchedule | components/project-cash-flow-planning.tsx:79-152 | a missing field or a non-positive amount posts nothing; with a readable month and at least one installment the batch is posted and succeeds unless the insert fails; an unreadable month with at least one installment throws before posting; a negative count posts an empty batch that is rejected; a stored batch clears the draft and advances the id counter by the installment count; otherwise the drafts, the table and the counter stay as they were |
| ProjectCashFlowTable.BudgetedAsWrittenIsZero | components/project-cash-flow-table.tsx:41 | as written the budgeted amount is 0 whatever the budget rows hold |
| ProjectCashFlowTable.BudgetIgnoredAsWritten | components/project-cash-flow-table.tsx:41 | one budget row of 100 shows 0 as written and 100 when read from K1 |
| ProjectCashFlowTable.BudgetedIsSnapshot | components/project-cash-flow-table.tsx:41 | on the project's own budget rows the corrected budgeted amount equals the endpoint's snapshot |
| ProjectCashFlowTable.Actual | components/project-cash-flow-table.tsx:43-47 | the category's actual amount is never negative |
| ProjectCashFlowTable.SchedulesOf | components/project-cash-flow-table.tsx:51 | exactly the category's schedules |
| ProjectCashFlowTable.DataOf | components/project-cash-flow-table.tsx:39-60 | the corrected entry (budget read from K1, see Findings): remaining is budgeted minus a non-negative actual; the entry carries the category's schedules |
| ProjectCashFlowTable.DataOfAsWritten | components/project-cash-flow-table.tsx:39-60 | the entry as written: budgeted is 0 and remaining is minus the actual; otherwise it is the corrected entry |
| ProjectCashFlowTable.KeptAsWrittenIffSpent | components/project-cash-flow-table.tsx:39-63 | as written an entry is shown exactly when its actual is not 0 |
| ProjectCashFlowTable.CategoryDataOf | components/project-cash-flow-table.tsx:39-60 | one corrected entry (`DataOf`) per category, in category order |
| ProjectCashFlowTable.Kept | components/project-cash-flow-table.tsx:63 | exactly the entries whose remaining is not 0 |
| ProjectCashFlowTable.Parents | components/project-cash-flow-table.tsx:66 | exactly the entries without a parent |
| ProjectCashFlowTable.ChildrenOf | components/project-cash-flow-table.tsx:67-74 | exactly the entries filed under the parent id |
| ProjectCashFlowTable.ChildrenOfSnoc | components/project-cash-flow-table.tsx:67-74 | one more entry extends only its own parent's list |
| ProjectCashFlowTable.GroupChildren | components/project-cash-flow-table.tsx:67-74 | a key is present exactly when it has children, and maps to those children in order |
| ProjectCashFlowTable.GroupsOf | components/project-cash-flow-table.tsx:132-133 | one group per parent, holding that parent's children |
| ProjectCashFlowTable.RenderedIsGroups | components/project-cash-flow-table.tsx:132-133 | rendering from the filed dictionary, with an empty list for a missing key, gives each kept parent exactly its kept children |
| ProjectCashFlowTable.Table | components/project-cash-flow-table.tsx:39-133 | the table builds exactly the groups of the kept corrected entries (budget read from K1, see Findings) |
| ProjectCashFlowTable.OrphanNotRendered | components/project-cash-flow-table.tsx:66-74 | a kept child whose parent is not rendered appears in no group |
| ProjectCashFlowTable.RenderedRowsHaveRemaining | components/project-cash-flow-table.tsx:63-74 | every rendered row has a remaining other than 0, and every kept child of a rendered parent is shown under it |
| ProjectCashFlowTable.Replaced | components/project-cash-flow-table.tsx:106 | same length; exactly the rows with the id are replaced |
| ProjectCashFlowTable.ReplacedMirrorsPatch | components/project-cash-flow-table.tsx:94-108 | replacing by the returned row keeps the list in step with the patched table |
| ProjectCashFlowTable.ScheduleList.AddScheduleAsWritten | components/project-cash-flow-table.tsx:76-92 | as written the request is answered 400, and neither the table nor the list changes |
| ProjectCashFlowTable.ScheduleList.AddSchedule | components/project-cash-flow-table.tsx:76-92 | the full remaining amount is posted for the current month; on success the stored rows are appended to the list |
| ProjectCashFlowTable.ScheduleList.UpdateSchedule | components/project-cash-flow-table.tsx:94-108 | the update succeeds exactly when the request does not fail and one stored row has the id, and otherwise reports a server error; on success the stored row with the id, patched, is both in the database and the replacement of the row with the id in the list; on failure the list is kept |
| ProjectCashFlowTable.ScheduleList.DeleteSchedule | components/project-cash-flow-table.tsx:110-120 | on success the rows with the id leave both the list and the table, other rows keeping their order |
| CashFlowSummary.SchedulesIn | components/cash-flow-summary-table.tsx:13-19 | exactly the schedules of the month |
| CashFlowSummary.SchedulesInSnoc | components/cash-flow-summary-table.tsx:13-19 | one more schedule extends only its own month's list |
| CashFlowSummary.GroupByMonth | components/cash-flow-summary-table.tsx:13-19 | a month is a key exactly when it has schedules, and maps to them in order |
| CashFlowSummary.Insert | components/cash-flow-summary-table.tsx:22 | inserting keeps the list ascending and adds exactly the new month |
| CashFlowSummary.MonthsOf | components/cash-flow-summary-table.tsx:22 | the months that have schedules, ascending |
| CashFlowSummary.AscendingDistinct | components/cash-flow-summary-table.tsx:22 | each month is listed only once |
| CashFlowSummary.NoSchedulesNoMonths | components/cash-flow-summary-table.tsx:110 | there are no months to show if and only if there are no schedules |
| CashFlowSummary.TypeOf | components/cash-flow-summary-table.tsx:33-34 | a side, when found, is the type of a listed category |
| CashFlowSummary.ExpensePart | components/cash-flow-summary-table.tsx:38-39 | what one schedule adds to expenses is never negative |
| CashFlowSummary.Expenses | components/cash-flow-summary-table.tsx:28-41 | expenses are never negative |
| CashFlowSummary.NetSnoc | components/cash-flow-summary-table.tsx:36-47 | one more schedule moves the net by its income part minus its expense part |
| CashFlowSummary.UntypedAddNothing | components/cash-flow-summary-table.tsx:36-40 | schedules of unknown side change neither total |
| CashFlowSummary.MonthTotals | components/cash-flow-summary-table.tsx:28-41 | the loop computes the month's income and expenses |
| CashFlowSummary.DataFor | components/cash-flow-summary-table.tsx:25-49 | the month's schedules, non-negative expenses, and a net flow of income minus expenses |
| CashFlowSummary.MonthlyData | components/cash-flow-summary-table.tsx:25-50 | one entry per month, in ascending month order |
| CashFlowSummary.MonthlyDataOf | components/cash-flow-summary-table.tsx:25-50 | the method builds exactly the monthly data |
| CashFlowSummary.NetFlows | components/cash-flow-summary-table.tsx:47 | the months' net flows, in month order |
| CashFlowSummary.WithBalances | components/cash-flow-summary-table.tsx:53-60 | each month ends at the current balance plus every net flow up to and including it |
| CashFlowSummary.NetOverInsert | components/cash-flow-summary-table.tsx:22 | a new month adds its own net to the total |
| CashFlowSummary.NetOverAgree | components/cash-flow-summary-table.tsx:47 | months with equal nets give equal totals |
| CashFlowSummary.NetOverBump | components/cash-flow-summary-table.tsx:47 | raising one month's net raises the total by as much |
| CashFlowSummary.MonthNetSnoc | components/cash-flow-summary-table.tsx:13-19 | one more schedule changes only its own month's net |
| CashFlowSummary.NetByMonth | components/cash-flow-summary-table.tsx:13-47 | the months' net flows add up to the net flow of all schedules |
| CashFlowSummary.NetByMonthStep | components/cash-flow-summary-table.tsx:13-47 | adding one schedule keeps that equality |
| CashFlowSummary.SeenMonthStep | components/cash-flow-summary-table.tsx:13-47 | a schedule in a month that already has schedules adds its net to that month |
| CashFlowSummary.NewMonthStep | components/cash-flow-summary-table.tsx:13-47 | a schedule in a new month adds that month with its net |
| CashFlowSummary.NetOverIsSum | components/cash-flow-summary-table.tsx:53-60 | the total of the months equals the sum of their net flows |
| CashFlowSummary.FinalBalance | components/cash-flow-summary-table.tsx:53-60 | the last month ends at the current balance plus the net of every schedule |
| CashFlowSummary.SummaryTable | components/cash-flow-summary-table.tsx:11-60 | one row per month, none exactly when there are no schedules, and the last row ends at the balance plus the total net |
| CashFlowSummary.SchedulesFrom | app/cash-flow-summary/page.tsx:64 | a response that is not an array gives no schedules |
| TransactionForm.NumberOrZero | components/add-transaction-dialog.tsx:74 | `parseFloat(value) \|\| 0`: an unreadable or zero entry reads as 0, any other as its number (also the entries of components/project-budget-table.tsx:77) |
| TransactionForm.GrossEntered | components/add-transaction-dialog.tsx:73-84 | the gross stays as typed, the net is gross / 1.2, net plus VAT is the gross, and K2 is untouched |
| TransactionForm.NetEntered | components/add-transaction-dialog.tsx:86-93 | the net stays as typed, gross and VAT are blanked, and K2 is untouched |
| TransactionForm.NetOverridesGross | components/edit-transaction-dialog.tsx:88-108 | typing the net after the gross gives the same form as typing the net alone |
| TransactionForm.UnparsableGross | components/edit-transaction-dialog.tsx:89-97 | a gross that does not parse leaves net and VAT at 0 |
| TransactionForm.Signed | components/add-transaction-dialog.tsx:178-188 | income is kept; for expenses and transfers a strictly positive amount is negated and every other amount is kept |
| TransactionForm.SignedIdempotent | components/edit-transaction-dialog.tsx:123-128 | applying the sign rule twice is applying it once |
| TransactionForm.SignedNotPositive | components/edit-transaction-dialog.tsx:123-128 | an expense or transfer amount is never positive after the rule |
| TransactionForm.NegatePositive | components/edit-transaction-dialog.tsx:124-127 | one re-signing step computes the sign rule |
| TransactionForm.NullIfEmpty | components/add-transaction-dialog.tsx:197-199 | `field \|\| null` is null exactly for the empty string and otherwise the string |
| TransactionForm.FormRow | components/add-transaction-dialog.tsx:192-210 | the row copies the form; a destination only for transfers; the three recurrence fields only when recurring; blank ids and notes stored as null |
| TransactionForm.FindCategory | components/add-transaction-dialog.tsx:65 | a found category is listed with that id; none is returned only when no listed category has it |
| TransactionForm.IncomeChoices | components/add-transaction-dialog.tsx:63-67 | exactly the children whose parent is income, untyped or missing |
| TransactionForm.ExpenseChoices | components/add-transaction-dialog.tsx:68-71 | exactly the children whose parent is expense |
| TransactionForm.Choose | components/add-transaction-dialog.tsx:63-71 | the list shown for the form's type |
| TransactionForm.ChoicesPartitionChildren | components/add-transaction-dialog.tsx:63-71 | a top-level category is offered in neither list, and a child in exactly one |
| AddTransaction.AddValue | components/add-transaction-dialog.tsx:173-176 | a blank field stores 0; a filled one stores its parse |
| AddTransaction.SignedFormAmounts | components/add-transaction-dialog.tsx:173-188 | the parse and re-sign steps compute exactly the stored amounts |
| AddTransaction.BlankIsZeroHere | components/add-transaction-dialog.tsx:173-176 | here a blank stores 0, where the edit dialog stores null |
| AddTransaction.DebtReduction | components/add-transaction-dialog.tsx:226 | the debt is reduced by \|gross, else net\| plus \|K2\|, which is never negative |
| AddTransaction.RepairBalance | components/add-transaction-dialog.tsx:117-125 | the account's null balance is set to its initial balance (`initial_balance` is a non-null number in lib/types.ts:5, so the `?? 0` fallback never applies); every other row is untouched |
| AddTransaction.RepairBalanceFills | components/add-transaction-dialog.tsx:117-135 | after the repair the account has a balance, rows that had one are unchanged, and repairing again changes nothing |
| AddTransaction.ReduceDebt | components/add-transaction-dialog.tsx:227-233 | only the debt with the id changes, by the reduction |
| AddTransaction.CheckAccount | components/add-transaction-dialog.tsx:103-135 | the check passes exactly when the fetch succeeds and any needed repair succeeds; the accounts are repaired only on success |
| AddTransaction.Submit | components/add-transaction-dialog.tsx:95-234 | the transaction is added exactly when the source check, the destination check (for transfers and account-to-account payments) and the insert succeed; a failed check or insert stores no transaction, allocates no id and moves no debt, and leaves the accounts as they were before the failing step (untouched, or the source repaired); a stored expense with a debt reduces it; other types never touch debts |
| EditTransaction.ReplaceFirst | components/edit-transaction-dialog.tsx:21 | only the first occurrence of the character is replaced |
| EditTransaction.Num | components/edit-transaction-dialog.tsx:19-23 | null and non-finite values read as 0; a string is read with its first comma as a dot |
| EditTransaction.AccountAmount | components/edit-transaction-dialog.tsx:26-33 | the total with VAT when a gross is given, else the total without VAT |
| EditTransaction.ZeroGrossIsNoGross | components/edit-transaction-dialog.tsx:31 | a gross of "0,0" or of spaces charges the account the total without VAT |
| EditTransaction.EditValue | components/edit-transaction-dialog.tsx:117-120 | a blank field stores null; a filled one stores its parse |
| EditTransaction.OpenField | components/edit-transaction-dialog.tsx:66-69 | the form opens with the magnitude of a stored amount and a blank for zero or null |
| EditTransaction.SubmitAmounts | components/edit-transaction-dialog.tsx:116-128 | the parse and re-sign steps compute exactly the stored amounts |
| EditTransaction.ExpenseTotalsNotPositive | components/edit-transaction-dialog.tsx:131-132 | both totals of an expense or transfer are never positive |
| EditTransaction.ResaveExpenseAmount | components/edit-transaction-dialog.tsx:66-69 | re-saving an expense reproduces a stored non-positive amount, except that 0 comes back as null |
| EditTransaction.ResaveIncomeAmount | components/edit-transaction-dialog.tsx:66-69 | re-saving an income with a negative stored amount stores the magnitude |
| EditTransaction.OpenForm | components/edit-transaction-dialog.tsx:57-75 | the form carries the stored type, account and opened amounts |
| EditTransaction.OrEmpty | components/edit-transaction-dialog.tsx:62-65 | `x \|\| ""` is the string when filled and otherwise empty |
| EditTransaction.ReplaceTransaction | components/edit-transaction-dialog.tsx:163 | exactly the rows with the id are replaced, keeping their parent link |
| EditTransaction.Submit | components/edit-transaction-dialog.tsx:110-170 | a storage error leaves the table; otherwise the row gets the form's fields, and the account amount follows the gross rule |
| BudgetRows.SumFiguresAppend | components/budget-table.tsx:639-662 | the sum of two lists of figures is the sum of their sums |
| BudgetRows.SumOfConsistent | components/budget-table.tsx:639-662 | a sum of rows whose totals include K2 again has totals that include K2 |
| BudgetRows.ActualWithVat | components/budget-table.tsx:77-82 | the VAT-gated actual is never negative |
| BudgetRows.ActualWithoutVat | components/budget-table.tsx:83 | the net actual is never negative |
| BudgetRows.NoVatNoActual | components/budget-table.tsx:77-83 | a transaction without VAT never moves the VAT-gated actual, but its net magnitude is still counted |
| BudgetRows.MonthColumn | components/budget-table.tsx:161 | "-01" is appended exactly when the month token contains "-" |
| BudgetRows.MonthColumnOfTokens | components/add-existing-category-dialog.tsx:51 | a monthly token is stored under its first day and a yearly token as it is |
| BudgetRows.Written | components/budget-table.tsx:158-171 | the row keeps its key; a K2 write keeps K1 and VAT, a K1 write keeps K2, and only a full write touches the totals |
| BudgetRows.UpsertRows | components/budget-table.tsx:158-171 | under a conflict the conflicting row is updated in place; without one a new row is appended |
| BudgetRows.UpsertKeepsKeysUnique | components/budget-table.tsx:170 | upserting keeps at most one row per key and, with a project, leaves a row under the written key |
| BudgetRows.RemoveBudgetsOf | components/budget-table.tsx:354 | exactly the category's budget rows are removed |
| BudgetRows.ClearCategory | components/budget-table.tsx:363-366 | every transaction is kept; exactly those of the category lose their category |
| BudgetRows.RemoveCategory | components/budget-table.tsx:386 | exactly the rows with the id are removed |
| BudgetRows.ChildIds | components/budget-table.tsx:375 | exactly the ids of the category's direct children |
| BudgetTable.RowFor | components/budget-table.tsx:65-95 | the category's row has non-negative actuals |
| BudgetTable.RowForConsistent | components/budget-table.tsx:91-92 | each row's totals are its K1 sums plus its K2 sum |
| BudgetTable.RowForAddBudget | components/budget-table.tsx:69-75 | a new budget row adds its columns to its own category's row and to no other |
| BudgetTable.RowForAddTransaction | components/budget-table.tsx:70-83 | a transaction moves only its own category's actuals and never a budget figure |
| BudgetTable.EnteredValue | components/budget-table.tsx:102 | an empty entry is 0, any other is its parse |
| BudgetTable.WithGross | components/budget-table.tsx:101-117 | the gross is split at 20%, the totals include K2, and K2 and the actuals are kept |
| BudgetTable.WithNet | components/budget-table.tsx:119-133 | gross and VAT become 0, the total with VAT is K2 alone, and K2 and the actuals are kept |
| BudgetTable.WithK2 | components/budget-table.tsx:135-147 | only K2 and the two totals change |
| BudgetTable.EditsCommute | components/budget-table.tsx:101-147 | a K2 edit commutes with either K1 edit, and a net entry overrides an earlier gross entry |
| BudgetTable.FullWrite | components/budget-table.tsx:158-169 | a save writes every column |
| BudgetTable.WrittenHolds | components/budget-table.tsx:158-169 | a fully written row holds exactly the row's six figures |
| BudgetTable.RowForFirstBudget | components/budget-table.tsx:69-75 | with no earlier budget rows the category's figures are those of its one row |
| BudgetTable.SaveThenLoad | components/budget-table.tsx:149-171 | saving a row and loading the table again gives back its figures, when the category had no other budget rows |
| BudgetTable.BudgetSumOfOthers | components/budget-table.tsx:72-75 | a category without budget rows sums to 0 |
| BudgetTable.FirstAppearance | components/budget-table.tsx:186 | the keys of `budgetData` in insertion order: every category id, once each |
| BudgetTable.FirstAppearanceStep | components/budget-table.tsx:66-96 | one more category adds its id only when it is new |
| BudgetTable.CategoryIds | components/budget-table.tsx:68 | the ids of the categories, in order |
| BudgetTable.UpsertAllStep | components/budget-table.tsx:186-208 | one more key is one more upsert |
| BudgetTable.SaveWithoutProjectAppends | components/budget-table.tsx:186-200 | without a project nothing conflicts: each save appends one new row per category and keeps the old rows |
| BudgetTable.SaveKeepsKeysUnique | components/budget-table.tsx:186-208 | saving keeps at most one row per key |
| BudgetTable.UpsertKeepsOtherKey | components/budget-table.tsx:158-171 | an upsert under one key keeps what another key stores |
| BudgetTable.SavedRowsHoldFigures | components/budget-table.tsx:186-208 | after saving under a project every key stores its category's figures |
| BudgetTable.SaveRow | components/budget-table.tsx:158-171 | one successful upsert, the new row taking the next id |
| BudgetTable.BuildRows | components/budget-table.tsx:65-99 | a row per category id, keyed in first-appearance order |
| BudgetTable.SaveKeys | components/budget-table.tsx:182-212 | upserts run in key order and the first failure stops the loop, keeping the earlier writes |
| BudgetTable.Table.constructor | components/budget-table.tsx:47 | the table starts empty |
| BudgetTable.Table.Load | components/budget-table.tsx:65-99 | after loading, every key holds its category's row, in first-appearance order |
| BudgetTable.Table.GrossChanged | components/budget-table.tsx:101-117 | only the category's row changes, by the gross edit |
| BudgetTable.Table.NetChanged | components/budget-table.tsx:119-133 | only the category's row changes, by the net edit |
| BudgetTable.Table.K2Changed | components/budget-table.tsx:135-147 | only the category's row changes, by the K2 edit |
| BudgetTable.Table.SaveCategory | components/budget-table.tsx:149-180 | nothing is written and the id counter is kept when read-only, without a project, without a row or on failure; otherwise one full upsert, which draws one id |
| BudgetTable.Table.SaveAll | components/budget-table.tsx:182-212 | every row in key order under the table's project; the first failing upsert stops the loop |
| BudgetRollups.BudgetsIn | components/budget-table.tsx:421-429 | exactly the budget rows whose month starts with the token |
| BudgetRollups.TransactionsIn | components/budget-table.tsx:434 | exactly the transactions whose month key starts with the token |
| BudgetRollups.Cell | components/budget-table.tsx:432-459 | a cell's actuals are never negative |
| BudgetRollups.CellConsistent | components/budget-table.tsx:454-455 | each cell's totals are its K1 sums plus its K2 sum |
| BudgetRollups.CellReadsOwnMonth | components/budget-table.tsx:434 | when keyed on the P&L date, a transaction is read by the cell of its own month |
| BudgetRollups.AsWrittenFailsWithTransactions | components/budget-table.tsx:434 | as written a cell fails exactly when its category has a transaction, and is otherwise empty |
| BudgetRollups.AsWrittenExample | components/budget-table.tsx:434 | a category with one expense fails as written, while the keyed cell counts the expense |
| BudgetRollups.PlusInterchange | components/budget-table.tsx:1326-1374 | sums of figures may be regrouped |
| BudgetRollups.ChildrenPeriodTotalsStep | components/budget-table.tsx:1326-1374 | one more month adds the parent's cell of that month to the children's period totals |
| BudgetRollups.ParentPeriodIsSumOfChildren | components/budget-table.tsx:1326-1374 | a parent's period total equals the sum of its children's period totals |
| BudgetRollups.ZeroTotals | components/budget-table.tsx:1326-1374 | over no months every total is 0 |
| BudgetRollups.TopLevel | components/budget-table.tsx:402-403 | exactly the top-level categories of the type |
| BudgetRollups.GrandTotalIsSumOfTotalCells | components/budget-table.tsx:809-965 | the TOTAL row's period total is the sum of its monthly cells, each income minus expense |
| BudgetRollups.MinusOfPlus | components/budget-table.tsx:742 | a difference of sums is the sum of the differences |
| BudgetRollups.ChildrenCellConsistent | components/budget-table.tsx:639-662 | every roll-up's totals are its K1 sums plus its K2 sum |
| BudgetRollups.MultiMonthWrite | components/budget-table.tsx:484-503 | a gross edit writes the K1 pair and VAT split at 20%, a net edit zeroes gross and VAT, and a K2 edit writes K2 alone; no edit writes a total |
| BudgetRollups.MultiMonthEdit | components/budget-table.tsx:471-520 | nothing is written when read-only or on failure; otherwise one upsert of the edited columns under month + "-01" |
| BudgetRollups.MultiMonthEditLeavesTotals | components/budget-table.tsx:484-513 | the stored totals are kept, so after a K2 change they no longer agree with the row's K1 and K2 |
| BudgetRollups.MultiMonthEditNewRow | components/budget-table.tsx:505-513 | a row created by a multi-month edit has no stored totals |
| BudgetRollups.TypedIds | components/budget-table.tsx:2457 | exactly the ids of the categories whose own type is the type |
| BudgetRollups.RowsSumConsistent | components/budget-table.tsx:2458-2483 | a sum of consistent rows is consistent |
| BudgetRollups.UntypedChildDropsOut | components/budget-table.tsx:2134-2163 | a child adds its row to its parent's row; an untyped child is in no subtotal, a typed child in its type's subtotal |
| BudgetCategories.CategoriesWithBudgets | app/budget/page.tsx:182-250 | exactly the categories with a loaded budget row, the list the table is given as `categories` |
| BudgetCategories.Siblings | components/budget-table.tsx:252-255 | a child's siblings share its parent; a top-level category's siblings are top-level |
| BudgetCategories.InsertPermutes | components/budget-table.tsx:258 | insertion adds exactly the element |
| BudgetCategories.InsertSorted | components/budget-table.tsx:258 | insertion keeps the list sorted by `order_index \|\| 0` |
| BudgetCategories.PrependSorted | components/budget-table.tsx:258 | an element no greater than the rest can go first |
| BudgetCategories.SortByOrderSorts | components/budget-table.tsx:258 | the sorted siblings are sorted and a permutation of the siblings |
| BudgetCategories.InsertAtEnd | components/budget-table.tsx:258 | an element no smaller than the rest goes last |
| BudgetCategories.SortedUnchanged | components/budget-table.tsx:258 | on sorted input the sort is stable and changes nothing |
| BudgetCategories.SetOrder | components/budget-table.tsx:271-274 | exactly the rows with the id take the new order index |
| BudgetCategories.MoveUp | components/budget-table.tsx:247-289 | the stored categories after the swap with the previous sibling in the sorted group of the table's list; the table reloads exactly when both writes succeed |
| BudgetCategories.MoveSkipsHiddenSibling | components/budget-table.tsx:247-289 | with a sibling that has no budget between two that do, moving the last up swaps it with the first and leaves the hidden one alone |
| BudgetCategories.MoveDown | components/budget-table.tsx:291-339 | the stored categories after the swap with the next sibling in the sorted group of the table's list; the table reloads exactly when both writes succeed |
| BudgetCategories.MoveUpNeighbours | components/budget-table.tsx:253-261 | a move picks two siblings that are neighbours in the sorted group, the earlier with the smaller or equal key |
| BudgetCategories.SwapWritesEffect | components/budget-table.tsx:270-279 | when both writes succeed the two categories exchange order indexes and nothing else changes |
| BudgetCategories.SwapBackRestores | components/budget-table.tsx:270-279 | swapping back undoes a successful swap |
| BudgetCategories.DeleteCategory | components/budget-table.tsx:341-400 | cancelling changes nothing; a failed budget or transaction step stops the delete; the unchecked steps run for the children in the table's list |
| BudgetCategories.ChildStepsClear | components/budget-table.tsx:375-383 | when no child step fails, every child and every row that refers to it is gone, and the rest is kept |
| BudgetCategories.DeleteClearsSubtree | components/budget-table.tsx:341-400 | after a complete delete nothing refers to the category or its children in the table's list, and every other budget and category is kept |
| BudgetCategories.BudgetlessChildSurvives | components/budget-table.tsx:375-386 | a child with no budget row is not in the table's list, so a complete delete keeps it stored with its parent id naming the deleted category |
| BudgetCategories.KeepsClear | components/budget-table.tsx:375-383 | the children's steps never bring back a row of the category |
| ProjectBudget.FirstBudget | components/project-budget-table.tsx:42 | a found row is listed with the category's id; none is returned only when no row has it |
| ProjectBudget.RowOf | components/project-budget-table.tsx:41-70 | K1 with and without VAT, VAT and K2 are the first budget row's figures (absent ones as 0); without a row every budget figure is 0 and the deviation is minus the actual; totals include K2 and the deviation is the total with VAT less the actual |
| ProjectBudget.FirstRowNotSum | components/project-budget-table.tsx:42 | with two budget rows the project row shows the first, where the budget table shows their sum |
| ProjectBudget.WithGross | components/project-budget-table.tsx:76-93 | the gross is split at 20% and both totals and the deviation are recomputed |
| ProjectBudget.WithK2 | components/project-budget-table.tsx:95-108 | K1 is kept and both totals and the deviation are recomputed |
| ProjectBudget.TotalDeviation | components/project-budget-table.tsx:141-148 | the total deviation is the total budget less the total actual |
| ProjectBudget.SaveMonth | components/project-budget-table.tsx:118 | a save writes under the first day of the current month |
| ProjectBudget.Table.constructor | components/project-budget-table.tsx:34 | the table starts empty |
| ProjectBudget.Table.Load | components/project-budget-table.tsx:38-74 | after loading, every key holds the row of the last category with that id, in first-appearance order |
| ProjectBudget.Table.GrossChanged | components/project-budget-table.tsx:76-93 | only the category's row changes, by the gross edit |
| ProjectBudget.Table.K2Changed | components/project-budget-table.tsx:95-108 | only the category's row changes, by the K2 edit |
| ProjectBudget.Table.TotalRow | components/project-budget-table.tsx:141-148 | the TOTAL row's deviation is its total budget less its total actual |
| ProjectBudget.Table.Save | components/project-budget-table.tsx:110-139 | every row in key order under the current month; the first failing upsert stops the loop |
| AddCategory.MaxOrder | components/add-category-dialog.tsx:54-61 | the highest non-null order index of the type, or none when the type has none |
| AddCategory.NewOrderIndex | components/add-category-dialog.tsx:54-67 | the new index is above every non-null index of its type, and 1 for the first |
| AddCategory.AsWrittenAgreesWithoutNulls | components/add-category-dialog.tsx:54-61 | without null indexes of the type the code as written gives the same index |
| AddCategory.NullOrderSortsFirst | components/add-category-dialog.tsx:58-61 | with a null index beside index 3 the code as written picks 1 |
| AddCategory.ParentChoices | components/add-category-dialog.tsx:87 | exactly the top-level categories |
| AddCategory.NewCategory | components/add-category-dialog.tsx:54-68 | the inserted row always stores the type; its order index is the corrected `NewOrderIndex` (see Findings), or 1 when the order read fails |
| AddCategory.CreatedKeepsTwoLevels | components/add-category-dialog.tsx:87 | a category created with no parent or a parent choice keeps the tree at two levels |
| AddCategory.Create | components/add-category-dialog.tsx:48-85 | a failed insert changes nothing; otherwise the new category is appended, with the corrected order index, or 1 after a failed order read |
| EditCategory.EditParentChoices | components/edit-category-dialog.tsx:176 | exactly the top-level categories other than the edited one |
| EditCategory.Updated | components/edit-category-dialog.tsx:87-94 | exactly the rows with the id get the new name, type and parent |
| EditCategory.SaveMakesThreeLevels | components/edit-category-dialog.tsx:81-105 | giving a parent that has a child a parent makes a third level |
| EditCategory.SaveKeepsTwoLevels | components/edit-category-dialog.tsx:81-105 | saving a category without children under no parent or a parent choice keeps two levels |
| EditCategory.Dialog.constructor | components/edit-category-dialog.tsx:25-30 | the dialog opens on the category's name, type (expense if none) and parent |
| EditCategory.Dialog.Save | components/edit-category-dialog.tsx:81-105 | a failed update changes nothing; otherwise the edited fields are written |
| EditCategory.Dialog.CreateParent | components/edit-category-dialog.tsx:44-79 | a blank name or a failed insert changes nothing; otherwise a top-level category of the dialog's type is added and chosen as parent |
| EditCategory.CreatedParentIsChoice | components/edit-category-dialog.tsx:66-75 | the created parent is offered as a parent choice |
| EditCategory.RemoveChildren | components/edit-category-dialog.tsx:145 | exactly the direct children are removed |
| EditCategory.Delete | components/edit-category-dialog.tsx:107-174 | cancelling changes nothing; each of the four steps runs in order and a failure stops at once, keeping the earlier steps |
| EditCategory.DeleteKeepsChildRows | components/edit-category-dialog.tsx:120-156 | after a complete delete the children are gone but their budgets and transactions still point at them |
| AddExistingCategory.Available | components/add-existing-category-dialog.tsx:31 | exactly the categories without a budget |
| AddExistingCategory.AvailableKeepsOrder | components/add-existing-category-dialog.tsx:31 | filtering a concatenation gives the concatenation of the filtered parts, so the list keeps category order |
| AddExistingCategory.BudgetCategoryIds | app/budget/page.tsx:180 | the category id of every budget row, in order |
| AddExistingCategory.Removed | components/add-existing-category-dialog.tsx:35 | exactly the selected ids other than the one unticked |
| AddExistingCategory.Toggled | components/add-existing-category-dialog.tsx:33-37 | the id's membership flips and every other id's is kept |
| AddExistingCategory.RemoveAbsentKeepsAll | components/add-existing-category-dialog.tsx:35 | removing an absent id changes nothing |
| AddExistingCategory.ToggleTwiceRestores | components/add-existing-category-dialog.tsx:33-37 | toggling an unselected id twice restores the selection |
| AddExistingCategory.ToggleTwiceSameSet | components/add-existing-category-dialog.tsx:33-37 | toggling a selected id twice keeps the same ids |
| AddExistingCategory.ToggleKeepsNoDuplicates | components/add-existing-category-dialog.tsx:33-37 | toggling keeps the selection free of duplicates |
| AddExistingCategory.RemovedNoDuplicates | components/add-existing-category-dialog.tsx:35 | removing an id keeps a list free of duplicates |
| AddExistingCategory.Entry | components/add-existing-category-dialog.tsx:49-59 | the row for a selected id has every figure 0, the month column and the project |
| AddExistingCategory.Entries | components/add-existing-category-dialog.tsx:49-59 | one entry per selected id, in order |
| AddExistingCategory.ZeroRowsKeepFigures | components/add-existing-category-dialog.tsx:53-58 | the zero rows leave every category's figures as they were |
| AddExistingCategory.Picker.constructor | components/add-existing-category-dialog.tsx:27 | the selection starts empty, so no category is selected twice |
| AddExistingCategory.Picker.Toggle | components/add-existing-category-dialog.tsx:33-37 | the selection becomes its toggle at the id and still holds no category twice |
| AddExistingCategory.Picker.AddCategories | components/add-existing-category-dialog.tsx:39-74 | an empty selection inserts nothing; a failed or conflicting insert stores none; a success stores every entry and clears the selection; no category is ever selected twice |
| AddExistingCategory.AddedCategoriesLeaveOffer | components/add-existing-category-dialog.tsx:31-73 | after a success every selected category has a budget row and is no longer offered, and all figures are kept |
| Calendar.YearToken | app/budget/page.tsx:279 | `String(year)`: a non-empty token, all digits for a common-era year |
| Calendar.MonthTokenParts | app/budget/page.tsx:272 | "YYYY-MM": the year, a dash, and the month padded to two digits |
| Calendar.DateTokenParts | app/budget/page.tsx:274-276 | "YYYY-MM-DD": the month's token, a dash, and the day padded to two digits |
| Calendar.ParseMonthToken | app/budget/page.tsx:304-305 | whatever reads back as a month is a valid common-era month |
| Calendar.DaysInFebruary | app/budget/page.tsx:275 | February has 29 days in a leap year and 28 otherwise |
| Calendar.SettleFebruary31 | app/api/generate-recurring-transactions/route.ts:41 | day 31 of February spills into March, by two days in a leap year and three otherwise |
| Calendar.OrdIsChronological | app/budget/page.tsx:291 | comparing day numbers, as `current <= end` compares dates, orders valid dates chronologically and tells them apart |
| Calendar.MonthIndexInjective | components/month-selector.tsx:14 | the month index tells months apart and orders them chronologically |
| Forecast.TemplateFlowIgnoresDate | components/forecast-chart.tsx:44 | a template's start date does not change its flow in any month |
| Forecast.MonthFlowIgnoresDates | components/forecast-chart.tsx:43-74 | templates that differ only in their start dates give the same monthly flow |
| BudgetPage.EarlierThanNextMonth | app/budget/page.tsx:70 | a date of the month is before the first of the next month |
| BudgetPage.OutsideMonth | app/budget/page.tsx:70 | a date outside the month is not in the range `[first, first of next month)` |
| Balances.ClosedFlowIsExternal | app/forecast/page.tsx:15-40 | when transfers stay between listed accounts, the total flow is the external income and expense |
| Recurrence.RunAllKeepsTemplates | app/api/generate-recurring-transactions/route.ts:58-74 | generated rows are not templates, so a run keeps the template list |
| CashFlowPlanning.Planner.constructor | components/project-cash-flow-planning.tsx:27-30 | nothing expanded and no drafts at first |
| ProjectCashFlowTable.ScheduleList.constructor | components/project-cash-flow-table.tsx:36 | the list starts as the schedules passed in |

## Left out

- Supabase, `fetch`, `NextResponse`, the router, `alert`/`confirm` and console logging are not modelled. They become the in-memory `Store`, an explicit `today`, and an ok-or-error outcome per storage step.
- The re-fetches after `onDataChange` and `router.refresh()` are not modelled; the model keeps only the local state update each handler makes.
- JSX rendering, grid layout, Recharts, `toFixed(2)`, `toLocaleDateString` and the other labels are not modelled. They are presentation. Numbers the program writes into text fields are kept as numbers (`TransactionForm.Field.Shown`), which leaves out decimal rounding.
- IEEE-754 arithmetic and JavaScript number parsing are not modelled. Money is exact over `real`, and `parseFloat`/`parseInt` are abstract parameters that may answer NaN.
- Time zones are not modelled. Dates are calendar days and months follow JavaScript's month-overflow rule. The one exception is the period selector's custom end date, which shifts a day east of UTC; a boolean parameter covers that case.
- Concurrency is not modelled. Every sequence of storage calls runs without interference, including the recurrence generator's check-then-insert, the two writes of a category move, and the read-modify-write of a debt balance.
- The cached `current_balance` column can drift from the transactions; the model does not track that drift.
- The pages compare "YYYY-MM-DD" tokens as strings. The model compares them chronologically, which gives the same order for four-digit years.
- `Object.entries`/`Object.values` and `Map` iteration follow insertion order. The model lists keys in order of first appearance.
- Recurrence.Generate: a due template with a missing or unknown frequency, or a negative interval, makes the source loop forever. The model answers `NoResponse` instead of looping.
- BudgetTable: an edit handler whose category has no row throws in the source. The model leaves the table unchanged.
- ProjectBudget: the same holds for an edit of a category that is not in the table.
- `handleSaveCategoryName` in components/budget-table.tsx is not modelled. It is a single-field rename with no computation.
- The budget table's expand/collapse state and loading flags are not modelled. Form resets after a successful dialog submit are not modelled either.
- The GET handler of app/api/cash-flow-schedule/route.ts is not modelled. It only reads the table. The PATCH fields are taken as already parsed values, so a NaN amount that `JSON.stringify` would send as null is not modelled.
- Failures of `fetch` itself, as opposed to error responses, are not modelled, except in the recurrence generator's template query.
- The account, debt and asset dialogs and lists, the other list pages, the project selector and the generate-recurring button are not modelled. They fetch and render, or submit a form, without computation.
- ProjectCashFlowTable.DataOf: computes the corrected budget, read from the K1 columns, and not the always-0 budget of the code at components/project-cash-flow-table.tsx:41. The as-written entry is `DataOfAsWritten` (see Findings).
- ProjectCashFlowTable.CategoryDataOf: is built on the corrected `DataOf`, so its budget figures are the K1 ones and not the code's 0.
- ProjectCashFlowTable.Table: groups the corrected entries. As written every budget is 0, so a row is shown exactly when it has spending (`KeptAsWrittenIffSpent`).
- AddCategory.Create: stores the corrected order index, which ignores null indexes. The code's descending query gives 1 when a null index is present (`NullOrderSortsFirst`, see Findings).
- AddCategory.NewCategory: carries the same corrected order index as `Create`.
- BudgetTable.Table.GrossChanged: takes the entered number already read. An unreadable entry makes `parseFloat` give NaN, which the handler stores; figures are exact reals, so NaN figures are not modelled.
- BudgetTable.Table.NetChanged: the same holds for a NaN net entry.
- BudgetTable.Table.K2Changed: the same holds for a NaN K2 entry.
- EditTransaction.Submit: the computed `account_amount` is returned beside the write, not stored in the row. No modelled code reads that column, and lib/types.ts does not declare it. The totals read a NaN part as 0 where the source's `?? 0` keeps NaN, because NaN figures are not modelled.
- Recurrence.Step: `.single()`'s own error for zero or several rows is modelled, since the check counts as existing only exactly one row. Any other error of the existence query also leaves `data` null and leads to an insert; that case is not modelled separately.
- The move and delete handlers work on the table's `categories`, which is `CategoriesWithBudgets` on both pages. The buttons exist only on the project page, which is not read-only.
- lib/types.ts is used only for record shapes. Fields the code reads that it does not declare are modelled where they matter. An example is the budget's `amount_with_vat` read in components/project-cash-flow-table.tsx. It always reads as absent in `BudgetedAsWritten`. The corrected `Budgeted` reads the K1 columns instead.

## Findings

| source | as written | input that shows it | evidently intended | confidence | as-written member | corrected member |
|---|---|---|---|---|---|---|
| components/budget-table.tsx:434 | the multi-month cell filters transactions with `t.date.startsWith(month)`, and transactions have no `date` field | any category with one transaction: `undefined.startsWith` throws | compare the transaction's P&L date with the month | high, not executed | BudgetRollups.AsWrittenFailsWithTransactions | BudgetRollups.CellReadsOwnMonth |
| components/add-category-dialog.tsx:54-61 | the highest order index comes from a descending order with `limit(1)`, and Postgres puts NULLs first in descending order | expense categories with order indexes null and 3: the new index is 1 | one above the highest non-null index (4) | medium, not executed | AddCategory.NullOrderSortsFirst | AddCategory.NewOrderIndex |
| components/project-cash-flow-table.tsx:76-92 | `addSchedule` posts one schedule's fields at the top level, with no `schedules` array | any Add Payment click: the endpoint answers 400 and nothing is stored | post `{ schedules: [item] }` and append the stored rows | high, not executed | ProjectCashFlowTable.ScheduleList.AddScheduleAsWritten | ProjectCashFlowTable.ScheduleList.AddSchedule |
| components/project-cash-flow-table.tsx:41 | the budgeted amount reads `amount_with_vat`/`amount_without_vat` from budget rows, which only have K1 columns | one budget row with `k1_with_vat` 100: the budget is 0 | read the K1 columns, as the schedule endpoint does | high, not executed | ProjectCashFlowTable.BudgetIgnoredAsWritten | ProjectCashFlowTable.BudgetedIsSnapshot |
