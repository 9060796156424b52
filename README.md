# Udangku ledger core in Dafny

Udangku is an offline shrimp-trading ledger. A small trader uses it to record:

- stock purchases, kept as gross weight, shrinkage and buy price;
- sales to customers, paid in cash (`tunai`), on credit (`utang`) or in instalments (`cicil`);
- operational costs;
- debts and the payments made against them;
- one settings row with the default shrinkage and daily price.

Everything lives in a browser-side IndexedDB database with auto-increment keys. Data hooks read and write it. A few forms and pages add validation, dispatch and filtering on top.

This project models that ledger logic:

- **The store.** `Db.Store` is a class with one `Tables.Table` per object store. A table is a map from key to row plus the next free key. Its `Valid` invariant keeps every key in `[1, next)`.
- **The hooks.** Each hook operation is a method on the store. It changes only the tables its `modifies` clause names. Its `ensures` tie the new tables to pure functions of the old ones (`Stock.EntryOf`, `Transactions.AfterAddTransaction`, `Debts.AppliedPayment`, `SettingsHook.Merge`, …). Lemmas about those functions state what the source promises.
- **Derived figures.** Stock on hand, dashboard metrics and reports are folds over sequences. They live in `Folds` (sums, filters, grouping into maps) and `Sorting` (a stable insertion sort used for `orderBy` and `Array.prototype.sort`).
- **Pages and form handlers.** The handlers that keep form state are classes:
  - `DebtPage.PaymentForm`;
  - `StockPage.DeleteAlert`;
  - `CustomerPage.CustomerFormState`.

  The schemas are predicates. Each submit handler is a method that calls the hook methods.

Modelling choices:

- Amounts and weights are `real`. `Math.round` is `Floor(x + 1/2)`.
- Dates are `yyyy-MM-dd` strings compared character by character.
- The dashboard's notion of "today" is a parameter: a day with its start and end, and a `timeOf` function from date strings to instants.
- Every operation takes its timestamp `now` as a parameter.
- A list a live query has not delivered yet is `None`.

Modules follow the source files:

| module | source |
|---|---|
| `Wrappers`, `Text`, `Folds`, `Sorting`, `Tables` | helpers: options and results, ASCII case mapping and string order, folds, stable sort, keyed tables |
| `Types` | `src/types/index.ts` |
| `Db` | `src/db.ts` |
| `Stock` | `src/hooks/useStock.ts` |
| `Transactions` | `src/hooks/useTransactions.ts` |
| `Debts` | `src/hooks/useDebts.ts` |
| `Customers` | `src/hooks/useCustomers.ts` |
| `Costs` | `src/hooks/useOperationalCosts.ts` |
| `SettingsHook` | `src/hooks/useSettings.ts` |
| `Dashboard` | `src/hooks/useDashboardData.ts` |
| `Reports` | `src/hooks/useReports.ts` |
| `TransactionForm` | `src/components/TransactionForm.tsx` |
| `DebtPage`, `StockPage`, `TransactionPage`, `CustomerPage`, `SettingsPage` | the pages of the same name under `src/pages/` |

## Model

| member | source | states |
|---|---|---|
| Db.AddCustomerRow | src/db.ts:14 | the unique `&name` index: an insert fails exactly when the same name, case included, is already stored; otherwise the row is added under a fresh key |
| Db.PutCustomerRow | src/db.ts:14 | rewriting a customer row fails exactly when another row holds the same exact name; an absent key changes nothing; otherwise only that row changes |
| Db.InitializeSeedsEmpty | src/db.ts:28-33 | on an empty settings table exactly one row is added, under key 1, with shrinkage 2 and price 25000 and nothing else set |
| Db.InitializeKeepsExisting | src/db.ts:28 | once a settings row exists, seeding changes nothing |
| Db.InitializeIdempotent | src/db.ts:26-35 | seeding twice leaves the same table as seeding once |
| Db.InitializeSettings | src/db.ts:26-35 | the method counts the rows and adds the seed row only when there are none; it touches only the settings table |
| Stock.Round | src/hooks/useStock.ts:28-29 | `Math.round`: the integer nearest x, halves rounded up |
| Stock.EntryOf | src/hooks/useStock.ts:27-37 | the new row copies the input, stores the rounded net weight and cost, and has createdAt = updatedAt = now |
| Stock.EntryOfExample | src/hooks/useStock.ts:28-29 | 100 kg at 2 % and 20000 per kg is stored as 98 kg costing 2,000,000 |
| Stock.PatchedEntry | src/hooks/useStock.ts:46-51 | the merged row takes each supplied field and keeps each absent one; net weight and cost are recomputed from the merged values |
| Stock.EmptyPatchRestamps | src/hooks/useStock.ts:46-58 | an update with no fields still recomputes the derived figures and moves updatedAt |
| Stock.UpdatedEntriesEffect | src/hooks/useStock.ts:41-59 | an absent key gives the error "Stock entry not found" and no change; otherwise only that row is replaced by the merged one |
| Stock.AddKeepsDerived | src/hooks/useStock.ts:27-37 | adding an entry keeps every row's net weight and cost consistent with its gross weight, shrinkage and price |
| Stock.EntriesByDateDescShape | src/hooks/useStock.ts:13 | the listing holds every stored entry exactly once, latest date first |
| Stock.StockDataOf | src/hooks/useStock.ts:16-24 | all three figures are 0 while either list is unloaded; otherwise purchased = Σ net weight, sold = Σ quantity, and stock = their difference |
| Stock.CurrentStockIsDifference | src/hooks/useStock.ts:20-22 | over the stored tables, the stock is Σ stored net weight − Σ sold quantity, in any listing order |
| Stock.StockCanBeNegative | src/hooks/useStock.ts:22 | the stock is not clamped: a sale larger than the purchases gives a negative stock |
| Stock.AddRaisesStock | src/hooks/useStock.ts:27-37 | adding a purchase raises the stock by its stored net weight |
| Stock.DeleteLowersStock | src/hooks/useStock.ts:61-63 | deleting a purchase lowers the stock by its net weight |
| Stock.AddStockEntry | src/hooks/useStock.ts:27-38 | exactly one row is added, `EntryOf` of the input, under a fresh key; other tables are untouched |
| Stock.UpdateStockEntry | src/hooks/useStock.ts:41-59 | fails with "Stock entry not found" and no change on an absent key; otherwise writes `PatchedEntry` over that row only |
| Stock.DeleteStockEntry | src/hooks/useStock.ts:61-63 | removes only the row with that key |
| Transactions.StatusFor | src/hooks/useTransactions.ts:23 | `lunas` iff total − paid ≤ 0; `cicil` iff something remains and something was paid; `utang` otherwise |
| Transactions.TransactionOf | src/hooks/useTransactions.ts:22-31 | the stored sale copies the input, references the customer, stores remainingDebt = total − paid and the status `StatusFor` gives |
| Transactions.AddTransactionReusesCustomer | src/hooks/useTransactions.ts:9-27 | when a stored name equals the sale's ignoring case, no customer is added and the sale takes that customer's key |
| Transactions.AddTransactionCreatesCustomer | src/hooks/useTransactions.ts:10-27 | when no name matches, exactly one customer with that name is added and the sale references its new key |
| Transactions.AddTransactionKeepsInvariants | src/hooks/useTransactions.ts:8-32 | the new sale references a stored customer whose name matches ignoring case, names stay distinct ignoring case, and every sale's derived fields stay consistent |
| Transactions.AddTransaction | src/hooks/useTransactions.ts:8-32 | the customers and sales tables become `AfterAddTransaction` of the old ones; exactly one sale is added and no other table changes |
| Transactions.DeleteTransaction | src/hooks/useTransactions.ts:34-39 | removes only that sale; stock is left to re-derive |
| Transactions.SaleLowersStock | src/hooks/useTransactions.ts:8-32 | recording a sale lowers the current stock by its quantity, whichever customer branch is taken |
| Transactions.DeleteSaleRaisesStock | src/hooks/useTransactions.ts:34-39 | deleting a sale gives its quantity back to the stock |
| Transactions.UpdateTransaction | src/hooks/useTransactions.ts:41-43 | an absent key changes nothing; otherwise only that row is replaced by the patched one |
| Transactions.PatchedTransactionSpec | src/hooks/useTransactions.ts:41-43 | each of the twelve fields takes the patch's value when the patch supplies it and keeps the stored one otherwise; the empty patch leaves the row as it was |
| Transactions.UpdateLeavesDerivedStale | src/hooks/useTransactions.ts:41-43 | changing the paid amount by a patch does not recompute remainingDebt or status, so they can disagree with it |
| Transactions.ByDateRangeSpec | src/hooks/useTransactions.ts:45-47 | keeps exactly the sales with start ≤ date ≤ end; empty while unloaded |
| Transactions.ByDateRangeKeepsOrder | src/hooks/useTransactions.ts:45-47 | the order is kept: a sale appended to the list is appended to the result exactly when it is in range |
| Transactions.ByDateRangeInclusive | src/hooks/useTransactions.ts:45-47 | a sale dated on either bound is kept |
| Transactions.TransactionsByDateDescShape | src/hooks/useTransactions.ts:6 | the listing holds every stored sale exactly once, latest date first |
| Debts.PatchedDebt | src/hooks/useDebts.ts:18-23 | each of the eight patchable fields takes the supplied value or keeps the stored one; updatedAt is the call's time; the empty patch only restamps |
| Debts.AddDebt | src/hooks/useDebts.ts:9-16 | exactly one debt is added under a fresh key, which is returned |
| Debts.UpdateDebt | src/hooks/useDebts.ts:18-23 | an absent key updates 0 rows and changes nothing; otherwise 1 row is patched |
| Debts.StatusAfter | src/hooks/useDebts.ts:34-40 | `paid` iff remaining − amount ≤ 0; `pending` iff positive and equal to the original amount; `partial` iff positive and different from it |
| Debts.AppliedPayment | src/hooks/useDebts.ts:33-52 | the remaining amount is max(0, remaining − amount), never negative, with the new status and time; all other fields are unchanged |
| Debts.PaidIffNothingRemains | src/hooks/useDebts.ts:33-37 | after a payment the status is `paid` exactly when nothing remains |
| Debts.FullPaymentExample | src/hooks/useDebts.ts:36-37 | paying 150000 off a fresh debt of 150000 leaves 0 and `paid` |
| Debts.AppliedPaymentsRemaining | src/hooks/useDebts.ts:33-52 | a run of non-negative payments leaves max(0, remaining − their sum), with the original amount untouched |
| Debts.AddDebtPayment | src/hooks/useDebts.ts:25-53 | an absent debt fails with "Utang tidak ditemukan" and nothing changes; otherwise exactly one payment is added and only that debt is replaced by `AppliedPayment` |
| Debts.PaymentTouchesOnlyItsDebt | src/hooks/useDebts.ts:43-52 | a payment changes only its debt, and that debt keeps its original amount |
| Debts.PaymentsForSpec | src/hooks/useDebts.ts:59-64 | the query returns exactly the stored payments of that debt |
| Debts.DebtsForSpec | src/hooks/useDebts.ts:66-71 | the query returns exactly the stored debts of that customer |
| Debts.ExportDebts | src/hooks/useDebts.ts:73-82 | the export holds every debt and every payment as stored, plus the export time; nothing changes |
| Customers.FirstMatch | src/hooks/useCustomers.ts:11-23 | `equalsIgnoreCase(name).first()`: finds an entry exactly when some name matches ignoring case, and the one found matches |
| Customers.FindCustomerSpec | src/hooks/useCustomers.ts:11-14 | the lookup finds a customer iff some stored name equals the name ignoring case |
| Customers.CaseDistinctIsUnique | src/db.ts:14 | names distinct ignoring case satisfy the case-sensitive unique index |
| Customers.FindCustomerUnique | src/hooks/useCustomers.ts:11-14 | under distinct names the lookup finds the one matching customer |
| Customers.AddKeepsCaseDistinct | src/hooks/useCustomers.ts:15-18 | adding a name that matches none ignoring case keeps all names pairwise distinct ignoring case |
| Customers.AddedCustomerEffect | src/hooks/useCustomers.ts:9-19 | a case-insensitive clash is rejected with the source's message and no change; otherwise exactly one row is added and names stay distinct |
| Customers.RenamedRow | src/hooks/useCustomers.ts:27 | the rewritten row takes the supplied fields and keeps the rest, createdAt included |
| Customers.UpdatedCustomerEffect | src/hooks/useCustomers.ts:21-28 | a rename is rejected iff another key holds the name ignoring case; otherwise only that row changes and names stay distinct |
| Customers.RenameToOwnNameAccepted | src/hooks/useCustomers.ts:23-26 | renaming a customer to its own name in another case is accepted |
| Customers.DeleteKeepsCaseDistinct | src/hooks/useCustomers.ts:30-33 | deleting a customer keeps names distinct |
| Customers.AddCustomer | src/hooks/useCustomers.ts:9-19 | the table becomes `AddedCustomer` of the old one; the outcome passes exactly when that succeeds |
| Customers.UpdateCustomer | src/hooks/useCustomers.ts:21-28 | the table becomes `UpdatedCustomer` of the old one; the outcome passes exactly when that succeeds |
| Customers.DeleteCustomer | src/hooks/useCustomers.ts:30-33 | removes only that customer; its sales stay |
| Customers.CustomersByNameShape | src/hooks/useCustomers.ts:7 | the listing holds every customer exactly once, names ascending |
| Customers.CustomerStatsOf | src/hooks/useCustomers.ts:35-49 | all zeros without an id or before the sales load; otherwise the count, Σ remaining debt and Σ total over that customer's sales |
| Customers.StatsCountMine | src/hooks/useCustomers.ts:37-40 | the sales counted are exactly that customer's: each one counted is theirs and none of theirs is missed |
| Customers.StatsGrowWithSale | src/hooks/useCustomers.ts:44-46 | one more sale for the customer adds 1 to the count and its amounts to the sums |
| Customers.SearchCustomersSpec | src/pages/CustomerPage.tsx:194 | the search keeps exactly the customers whose name contains the term ignoring case; an empty term keeps all |
| Customers.SearchCustomersKeepsOrder | src/pages/CustomerPage.tsx:194 | the order is kept: a customer appended to the list is appended to the result exactly when the name matches |
| Costs.CostOf | src/hooks/useOperationalCosts.ts:11-18 | the new row copies the input with createdAt = updatedAt = now |
| Costs.PatchedCost | src/hooks/useOperationalCosts.ts:20-26 | supplied fields are replaced and the rest kept; updatedAt is set and createdAt kept |
| Costs.AddCost | src/hooks/useOperationalCosts.ts:11-18 | exactly one row is added under a fresh key |
| Costs.UpdateCost | src/hooks/useOperationalCosts.ts:20-26 | an absent key changes nothing; otherwise only that row is patched |
| Costs.DeleteCost | src/hooks/useOperationalCosts.ts:28-30 | removes only the row with that key |
| Costs.AddRaisesTotal | src/hooks/useOperationalCosts.ts:11-18 | adding a cost raises the cost total by its amount |
| Costs.DeleteAndUpdateShiftTotal | src/hooks/useOperationalCosts.ts:20-30 | deleting lowers the total by the row's amount; changing the amount shifts the total by the difference |
| Costs.CostsByDateDescShape | src/hooks/useOperationalCosts.ts:9 | the listing holds every cost exactly once, latest date first, and sums to the same total |
| SettingsHook.DefaultSettings | src/hooks/useSettings.ts:5-46 | the defaults: shrinkage 5, daily price 0, debt due days 30, and the other listed values; createdAt is the load time and updatedAt is unset |
| SettingsHook.MergeLaws | src/hooks/useSettings.ts:56-67 | the empty patch changes nothing, a patch applied twice acts once, and a full record replaces everything |
| SettingsHook.FirstRow | src/hooks/useSettings.ts:50-51 | the current settings are the stored row with the least key; none on an empty table |
| SettingsHook.UpdateSettings | src/hooks/useSettings.ts:53-69 | with a known row it merges the patch and the update time into that row; otherwise it adds one row, the defaults overridden by the patch |
| SettingsHook.UpdateKeepsSingleRow | src/hooks/useSettings.ts:56-60 | with a known row the row count and keys are unchanged and the first row becomes the merged row: each of the 24 other fields takes the patch's value when supplied and keeps the stored one otherwise, and updatedAt is the call's time |
| SettingsHook.UpdateBeforeLoadAddsRow | src/hooks/useSettings.ts:63-67 | an update with no known row adds exactly one row |
| SettingsHook.ResetRow | src/hooks/useSettings.ts:73-78 | a reset writes the defaults but keeps the row's createdAt and sets a new updatedAt |
| SettingsHook.ResetSettings | src/hooks/useSettings.ts:71-80 | with no known row nothing happens; otherwise only that row is replaced by `ResetRow` |
| SettingsHook.ResetIdempotent | src/hooks/useSettings.ts:71-80 | resetting twice gives the row one reset gives, up to the update time |
| SettingsHook.InitializedFirstRow | src/db.ts:28-33 | after seeding an empty table, the current settings are the seed row under key 1 |
| SettingsHook.SeedDiffersFromDefaults | src/hooks/useSettings.ts:13-14 | the seeded row (2 %, 25000) and a reset row (5 %, 0) disagree on both defaults |
| Dashboard.ComputeMetrics | src/hooks/useDashboardData.ts:13-24 | all zeros and an empty recent list, with the sales array untouched, while any list is unloaded; otherwise what `LoadedMetrics` gives |
| Dashboard.LoadedMetrics | src/hooks/useDashboardData.ts:26-67 | the metrics `MetricsOf` gives for the loaded lists, with the sales array reordered in place into `NewestFirst` of its old contents |
| Dashboard.TodaySalesSpec | src/hooks/useDashboardData.ts:30-32 | a sale counts for today exactly when its date falls within the day's start and end, both included |
| Dashboard.NewSaleMoves | src/hooks/useDashboardData.ts:35-45 | a new sale raises today's revenue by its amount when dated today, leaves expenses alone, lowers the stock by its quantity and raises the debt by its remaining debt |
| Dashboard.TotalDebtNonNegative | src/hooks/useDashboardData.ts:45 | the outstanding total is non-negative when every sale's remaining debt is |
| Dashboard.StockAgreesWithStockPage | src/hooks/useDashboardData.ts:42-44 | the dashboard's stock over the stored tables equals the stock page's |
| Dashboard.RecentShape | src/hooks/useDashboardData.ts:47-56 | at most three loaded sales, newest first; every sale left off is no newer than any shown |
| Dashboard.NewestFirstOrder | src/hooks/useDashboardData.ts:47-48 | the sort keeps the same sales (a permutation) and no later sale has a later creation time than an earlier one |
| Dashboard.RecentLines | src/hooks/useDashboardData.ts:47-56 | the list has min(n, 3) lines, line i being the display of the i-th sorted sale |
| Dashboard.LeftOffNotNewer | src/hooks/useDashboardData.ts:47-49 | every loaded sale the list leaves off is no newer than every listed one |
| Reports.DailySales | src/hooks/useReports.ts:37-55 | empty while unloaded; otherwise one point per day of the interval, in order |
| Reports.DailySalesSpec | src/hooks/useReports.ts:40-54 | each day's point is the sum of that day's sale amounts, and 0 on a day without sales |
| Reports.MonthlySummary | src/hooks/useReports.ts:58-83 | all zeros while any list is unloaded; otherwise the three sums, net profit = sales − purchases − costs, and the two list lengths |
| Reports.SummaryOfJoinedWindows | src/hooks/useReports.ts:70-81 | the summary of two windows put together adds the two windows' figures |
| Reports.SummaryAgreesWithDashboard | src/hooks/useReports.ts:73 | over one day's lists the net profit is the dashboard's profit for that day |
| Reports.MethodLabel | src/hooks/useReports.ts:98 | `tunai` reads Tunai, `utang` reads Utang, anything else reads Cicil |
| Reports.DistributionEntries | src/hooks/useReports.ts:89-101 | each entry is some sale's method, labelled, with the sum of the amounts paid that way and a percentage of 0 |
| Reports.DistributionCovers | src/hooks/useReports.ts:89-97 | every method some sale uses is listed |
| Reports.MethodLabelsDistinct | src/hooks/useReports.ts:98 | the three methods get three different labels |
| Reports.DistributionLabelsDistinct | src/hooks/useReports.ts:89-98 | no method is listed twice |
| Reports.DistributionTotal | src/hooks/useReports.ts:89-101 | the distribution's amounts add up to the total of all sales |
| Reports.TopCustomersOrdered | src/hooks/useReports.ts:116-119 | at most five names, totals non-increasing |
| Reports.TopCustomersSums | src/hooks/useReports.ts:108-119 | each listed name is some sale's customer other than `__proto__`, shown with the sum of that name's sales |
| Reports.TopCustomersDistinct | src/hooks/useReports.ts:108-119 | no name is listed twice |
| Reports.TopCustomersDominate | src/hooks/useReports.ts:108-118 | a customer left off, other than `__proto__`, has bought no more than any customer listed |
| Reports.ProtoBuyerNeverListed | src/hooks/useReports.ts:108-114 | the name `__proto__` is never listed, however much it bought; a single sale to it gives an empty list |
| Reports.KeptSalesOfName | src/hooks/useReports.ts:108-114 | leaving out the `__proto__` sales leaves every other name's sales as they were |
| Reports.SortedDatesShape | src/hooks/useReports.ts:145-146 | the dates are exactly those of either list, strictly ascending, nothing repeated |
| Reports.StockVsSalesAscending | src/hooks/useReports.ts:145-152 | the points go by strictly ascending date |
| Reports.StockVsSalesDates | src/hooks/useReports.ts:126-152 | every sale or purchase date has a point, and every point's date is one of them |
| Reports.StockVsSalesSums | src/hooks/useReports.ts:126-152 | each point holds that date's sold quantity and bought net weight, 0 when there are none |
| TransactionForm.TitleWord | src/components/TransactionForm.tsx:22-24 | a word keeps its length, its first letter is upper-cased and the rest lower-cased |
| TransactionForm.TitleWordIdempotent | src/components/TransactionForm.tsx:22-24 | title-casing a word twice gives what once gives |
| TransactionForm.TitleCaseIdempotent | src/components/TransactionForm.tsx:22-24 | title-casing a name twice gives what once gives |
| TransactionForm.TitleCasedUnchanged | src/components/TransactionForm.tsx:22-24 | an already title-cased name is returned unchanged |
| TransactionForm.Parsed | src/components/TransactionForm.tsx:20-52 | the handler receives the accepted values with only the name title-cased |
| TransactionForm.SchemaPaidBound | src/components/TransactionForm.tsx:41-51 | with valid positive figures, a paid amount is accepted iff it does not exceed quantity × price |
| TransactionForm.FinalPaid | src/components/TransactionForm.tsx:110 | cash pays the full total; otherwise the entered amount, or 0 |
| TransactionForm.SaleOf | src/components/TransactionForm.tsx:113-119 | the sale passed on has customer key 0, total = quantity × price, and the final paid amount |
| TransactionForm.HandleSubmit | src/components/TransactionForm.tsx:89-124 | the checks run in order; only a sale that passes them all is recorded, exactly as `addTransaction` records it, and otherwise nothing changes |
| TransactionForm.StockCheckBoundary | src/components/TransactionForm.tsx:93-96 | a quantity equal to the stock passes the stock check; a larger one is rejected with the available stock |
| TransactionForm.UnloadedStockRejects | src/components/TransactionForm.tsx:93-96 | while the stock lists load every sale is rejected, with 0 available |
| TransactionForm.SchemaMakesPaidChecksRedundant | src/components/TransactionForm.tsx:99-108 | after the schema accepts, the two paid-amount checks never fire; only the stock check can reject |
| TransactionForm.CashSaleIsSettled | src/components/TransactionForm.tsx:110 | a cash sale is stored `lunas` with nothing remaining |
| TransactionForm.CreditSaleStatus | src/components/TransactionForm.tsx:110 | a saved credit sale owes between 0 and its total: `utang` when nothing was paid, `cicil` when part was, `lunas` when all was |
| DebtPage.PendingDebts | src/pages/DebtPage.tsx:66 | the count of unpaid debts is at most the number of debts: 0 when all are paid, all of them when none is |
| DebtPage.PendingDebtsCount | src/pages/DebtPage.tsx:66 | the count exactly: 0 for no debts, and a debt appended adds 1 when its status is not paid and 0 when it is |
| DebtPage.UnpaidExtremes | src/pages/DebtPage.tsx:66 | the unpaid filter keeps nothing when every debt is paid and everything when none is |
| DebtPage.StatusMapsDistinct | src/pages/DebtPage.tsx:47-63 | paid, partial and pending get distinct colours and texts, none the fallback; any other string gets the fallback |
| DebtPage.StoredStatusesKnown | src/pages/DebtPage.tsx:56-63 | every stored debt status has a known text: Lunas, Sebagian and Menunggu |
| DebtPage.TotalDebtNonNegative | src/pages/DebtPage.tsx:65 | the outstanding total is non-negative when every remaining amount is |
| DebtPage.PaymentLowersTotal | src/pages/DebtPage.tsx:65 | a recorded payment lowers the total by the amount, or by the whole remaining amount when it exceeds it |
| DebtPage.PayableAfterPayment | src/pages/DebtPage.tsx:148 | after a payment the pay action stays offered exactly when something remains |
| DebtPage.PaymentForm.Select | src/pages/DebtPage.tsx:154 | Bayar selects the debt and keeps what was typed |
| DebtPage.PaymentForm.HandlePayment | src/pages/DebtPage.tsx:19-45 | without a selection or an amount, nothing happens. An absent debt gives the failure toast and keeps the form. Otherwise one payment is recorded, the success toast shows and the three fields are cleared |
| StockPage.StockDefaults | src/pages/StockPage.tsx:42-50 | a new form has today's date and shrinkage 2; an edit starts from the entry's values |
| StockPage.CostDefaults | src/pages/StockPage.tsx:92-99 | a new form has today's date and category Operasional; an edit starts from the cost's values |
| StockPage.StockDefaultsNeedFigures | src/pages/StockPage.tsx:42-50 | a fresh stock form is rejected until a supplier, gross weight and price are entered, and accepted then |
| StockPage.CostDefaultsNeedDescriptionAndAmount | src/pages/StockPage.tsx:92-99 | a fresh cost form is rejected until a description and amount are entered, and accepted then |
| StockPage.EditPatch | src/pages/StockPage.tsx:54-55 | an edit sends every form field and the entry's original createdAt |
| StockPage.AcceptedEntryFigures | src/pages/StockPage.tsx:19-25 | an accepted form always stores a non-negative cost, and a non-negative net weight when shrinkage is at most 100 |
| StockPage.ShrinkageAboveHundredAccepted | src/pages/StockPage.tsx:19-25 | a shrinkage of 150 % is accepted and stores a negative net weight |
| StockPage.UnchangedEditKeepsRow | src/pages/StockPage.tsx:54-55 | saving an edit without changes keeps every stored field but updatedAt |
| StockPage.SubmitStock | src/pages/StockPage.tsx:52-60 | an entry with a non-zero key is updated; otherwise a new one is added |
| StockPage.CostEditReplacesFields | src/pages/StockPage.tsx:103-105 | editing a cost replaces all four fields and keeps createdAt |
| StockPage.SubmitCost | src/pages/StockPage.tsx:101-109 | a cost with a non-zero key is updated; otherwise a new one is added |
| StockPage.DeleteAlert.Open | src/pages/StockPage.tsx:139 | the alert remembers the record kind and key |
| StockPage.DeleteAlert.Confirm | src/pages/StockPage.tsx:227-233 | deletes the stock entry or cost the alert names; deletes nothing without a non-zero key; then clears the alert |
| TransactionPage.SearchTransactionsSpec | src/pages/TransactionPage.tsx:101-103 | keeps exactly the sales whose customer name contains the term ignoring case; an empty term keeps all |
| TransactionPage.SearchKeepsOrder | src/pages/TransactionPage.tsx:101-103 | the search keeps the list's order |
| TransactionPage.StatusClassesDistinct | src/pages/TransactionPage.tsx:19-26 | lunas, utang and cicil get three different classes |
| TransactionPage.ClassesDiffer | src/pages/TransactionPage.tsx:19-26 | the four badge classes are four different strings |
| TransactionPage.StatusClassFallback | src/pages/TransactionPage.tsx:19-26 | no stored status gets the fallback class, and every other string does |
| TransactionPage.StatusLabel | src/pages/TransactionPage.tsx:44 | the badge shows the status with its first letter capitalised |
| TransactionPage.StatusLabels | src/pages/TransactionPage.tsx:44 | the three badges read Lunas, Utang and Cicil, all different |
| TransactionPage.DebtLineIffUnsettled | src/pages/TransactionPage.tsx:63 | for a sale recorded by `addTransaction`, the remaining-debt line shows exactly when it is not `lunas` |
| TransactionPage.ConfirmDelete | src/pages/TransactionPage.tsx:84 | deletes the sale when its key is non-zero; otherwise nothing changes |
| CustomerPage.FormDefaults | src/pages/CustomerPage.tsx:31-37 | the form starts empty for a new customer and from the customer's fields, "" for missing ones, for an edit |
| CustomerPage.DefaultsAgainstSchema | src/pages/CustomerPage.tsx:31-37 | an empty new form is rejected; an edit form is accepted exactly when the stored name is non-empty |
| CustomerPage.DataOf | src/pages/CustomerPage.tsx:16-20 | the submitted data carries the name, phone and address as entered |
| CustomerPage.CustomerFormState.HandleSubmit | src/pages/CustomerPage.tsx:39-51 | a customer with a non-zero key is updated, else one is added. Success clears the error; a rejection records its message and leaves the table unchanged |
| CustomerPage.DebtLineIffSomeSaleOwes | src/pages/CustomerPage.tsx:151 | the remaining-debt line shows exactly when some sale of the customer still owes something |
| SettingsPage.FormOf | src/pages/SettingsPage.tsx:25-29 | the form starts from the current row's two values |
| SettingsPage.PatchOf | src/pages/SettingsPage.tsx:31-33 | only the two entered values are forwarded, unchanged |
| SettingsPage.StartingFormsAgainstSchema | src/pages/SettingsPage.tsx:12-15 | the seeded row opens a form that saves as it is; a reset row and the defaults open forms the schema rejects, because the price is 0 |
| SettingsPage.SavedValuesTakeEffect | src/pages/SettingsPage.tsx:31-33 | saving sets both defaults to the entered values and keeps every other field but the update time |
| SettingsPage.ToastFor | src/pages/SettingsPage.tsx:34-44 | the success toast iff the update passed; a failure shows "Gagal menyimpan pengaturan: " and the error |
| SettingsPage.HandleSubmit | src/pages/SettingsPage.tsx:31-45 | the accepted values go to `updateSettings` unchanged and the success toast shows |

## Left out

- The `debts` and `debtPayments` stores are not declared in `src/db.ts:13-19`, although `useDebts` uses them. The model gives the store both tables, keyed like the others.
- Case mapping (`toLowerCase`, `toUpperCase`, `equalsIgnoreCase`) covers ASCII letters only. String order is Dafny's character order, not JavaScript's UTF-16 code-unit order.
- `Object.entries` lists integer-like keys first. The model lists the keys of the grouping reports in the order they first occur.
- Reports.TopCustomers: the accumulator is a plain `{}` (`src/hooks/useReports.ts:108-114`). The model drops the name `__proto__` as the source does. Other names of `Object.prototype` members (`constructor`, `toString`, …) would make the source concatenate the amount onto a function's text; the model treats them as ordinary names. The sale form's title-casing (`src/components/TransactionForm.tsx:22-24`) cannot produce any of those names. It upper-cases a leading letter and lower-cases the rest, and each of those names either starts with a lower-case letter or has an upper-case letter later on (`__defineGetter__`).
- Reports.TopCustomersDominate: the dominance is stated for every left-off name except `__proto__`. The source never lists that name, whatever its total, so the dominance does not hold for it (`Reports.ProtoBuyerNeverListed` states the drop).
- Dexie live queries: a list not yet delivered is `None` (a `loaded` flag for the settings row). Re-rendering and staleness between two renders are not modelled.
- Patches cannot tell an absent property from one explicitly set to `undefined`: both are `None`.
- Each operation takes one `now`. The source reads the clock separately for each `new Date()`.
- Left out as I/O and formatting:
  - PDF export (`exportReportToPDF`);
  - `Intl`/`toLocaleString` currency and time strings;
  - date-fns `format`, `eachDayOfInterval`, `startOfDay` and `endOfDay`, and time zones.
- The model takes the following as given:
  - The daily series' day list is the interval's days.
  - `format(new Date(d), 'yyyy-MM-dd')` is treated as `d`.
  - The dashboard's day bounds and date-to-instant map are parameters.
- Dexie's `.between(...)` range queries (`src/hooks/useReports.ts:12-34`) are library calls. The reports take their already-filtered lists as inputs. Dexie's `between(lower, upper)` leaves out the upper bound unless asked to include it, and the code does not ask. So the report window never holds rows dated on the end date (today), and the last `DailySales` point, which is today, always reads 0. The model does not show this, because it gets the lists already filtered.
- `DebtPage.PaymentForm.HandlePayment`: the amount is a parameter, standing for `parseFloat` of the typed text. NaN is not modelled.
- Storage failures (quota, aborted transactions) are not modelled. So these error paths never arise:
  - the `catch` at `src/components/TransactionForm.tsx:121-123`;
  - the error toast of `src/pages/SettingsPage.tsx:38-44`, reachable only through `SettingsPage.ToastFor`;
  - CustomerPage's `catch`, which sees only the hooks' own rejections.
- Zod and react-hook-form: only what each schema accepts is modelled. The order and wording of field issues are not.
- `TransactionForm`'s default values (`src/components/TransactionForm.tsx:67-78`) and watched total display are not modelled. The total passed on is `FormTotal`.
- The duplicate forms under `src/pages/StockPage/` repeat the schemas of `src/pages/StockPage.tsx`. They are not part of this model.
- Layout, navigation, browser-event, mock-dashboard and bootstrap files are not part of this model.
- Floating-point rounding is not modelled: amounts are exact reals.
- `Math.round` follows the half-up rule, `Floor(x + 1/2)`, for every real.

## Observations

- The seeded settings row (shrinkage 2, price 25000, `src/db.ts:29-33`) differs from `defaultSettings` (shrinkage 5, price 0, `src/hooks/useSettings.ts:13-14`). A reset row therefore cannot be saved again from the settings page without changing the price (`SettingsPage.StartingFormsAgainstSchema`).
- The stock schema puts no upper bound on shrinkage. 150 % is accepted and stores a negative net weight (`StockPage.ShrinkageAboveHundredAccepted`).
- While `useStock` has not loaded its lists, it reports a stock of 0. Every sale is then rejected as insufficient (`TransactionForm.UnloadedStockRejects`).
- A customer named `__proto__` never appears among the top customers, whatever their total. The `{}` accumulator at `src/hooks/useReports.ts:108-114` cannot hold that key, and title-casing keeps the name, since `_` has no upper case (`Reports.ProtoBuyerNeverListed`).
- When the search leaves no sale, the sales list renders an empty-state card with a `<Package …/>` icon (`src/pages/TransactionPage.tsx:140`). Line 8 imports only `Search`, `Plus`, `MoreVertical` and `Trash2` from `lucide-react`, so to a reading of the text the empty state would raise a ReferenceError at render time. The model covers the search result (`TransactionPage.SearchTransactions`) and not the rendering.
