# Verified model of the platform's stateful core

A Dafny model of the parts of the platform that keep a fast, stored or staged form in step with a
simpler one: the stock cache and its movement ledger, the double-entry books and the receivables
sub-ledger, the CSV engine, versioned project configurations, factory work orders, and the guards of
the control plane. `dafny verify dfyconfig.toml` checks everything.

| file | what it models |
|---|---|
| `Stock.dfy`, `StockMachine.dfy` | stock levels, movements, transfers and compensation; then the same updates as single database steps of any number of overlapping requests |
| `Money.dfy`, `Ledger.dfy`, `Receivables.dfy`, `Subledger.dfy` | cents and rounding, postings and reports, invoices, bills, payments and voids, and what every account carries after a run of them |
| `CsvText.dfy`, `CsvCells.dfy`, `CsvFile.dfy`, `FileRules.dfy` | RFC 4180 records, cells, whole files, and what a file is read as or refused for |
| `CsvImport.dfy`, `Imported.dfy` | the two-phase import, and what it leaves in the stored records |
| `StageGraph.dfy`, `Approvals.dfy`, `Holds.dfy`, `Completion.dfy` | the derived concurrent stage graph and the evaluation of a stage; the stages of a running project, approved and reopened; holds and the project's cursor; which projects can still be completed |
| `Publishing.dfy`, `Published.dfy`, `Configurations.dfy` | racing publishers of versions, what a published version contains, and the configuration list |
| `WorkOrders.dfy`, `FloorRules.dfy` | work-order transitions, material bookings, the release checklist, and what each request of the floor does |
| `RateLimit.dfy`, `IpText.dfy`, `IpRules.dfy`, `RuleCache.dfy`, `AdminGuard.dfy` | request limiting, address text and masks on server and browser, access rules, their cache, and admin management |
| `Options.dfy`, `Sums.dfy`, `Division.dfy`, `Bits.dfy`, `Numerals.dfy` | shared helpers |

How the model is set up:

- Code that updates collections or fields in place is a class (`Inventory`, `Finance`, `Collection`,
  `Floor`, `Registry`, `Directory`, `InMemoryStore`, `Limiter`, `RuleCache`). Each method is proved
  against a function of the old state, and the results below are proved about that function, over
  whole runs.
- Three overlaps are small-step machines, one step being one database read, write or await: stock
  requests with each other, publishers of one configuration with each other, and calls of the rule
  cache with each other and with database writes. All endpoints are asynchronous, so finance,
  production, project, admin and configuration requests overlap in the program as well; there one
  request is one step, and runs are sequences of whole requests.
- Failing inserts, failing cost posts, clock readings, library parsers and catalogs are parameters, so
  a statement over all inputs covers every outcome of theirs.
- Quantities are exact reals and money is whole cents with half-even rounding.

Places where the code, its comments or its callers say different things, and what is proved:

- Plain "stock is never negative" is false under overlap, because an issue can use stock whose receipt
  is then rolled back (`StockMachine.OverdraftWithoutTheProviso`). `StockMachine.NeverBelowIff` gives
  the exact condition: no step gives back an inbound claim larger than what is on hand.
- Approval is not final: any re-evaluation overwrites the status of an approved stage. Handover can stay
  approved above a reopened stage (`Approvals.ReopenedBelowHandover`), and, as it has gates on the middle
  stages only, can be granted above a reopened first stage (`Approvals.GrantedAboveReopened`).
  `Approvals.HandoverCoversIff` says exactly which requests break "handover approved means all approved",
  and `Approvals.ApprovalsStayClosedIff` which break the closure of approvals under dependencies.
- The derived last stage is described as depending on all others. With two stages it depends on none:
  even in runs that keep approvals closed, an approved handover then does not mean that both are
  (`Approvals.HandoverIsFinalIff`; with any other number of stages it does in such runs).
- Resolving the reports is said to clear a hold. It clears the stage under the project's cursor while the
  engine holds the project, and no other (`Holds.ReleasedIff`). A hold taken over and ended by hand leaves
  the stage on hold until another severe reading or a rollback (`Completion.HeldUntilBreach`). A first
  stage on hold away from the cursor stays so under every request but a rollback
  (`Completion.HeldForGood`); `Completion.CanFinishIff` shows that from every other reachable state a
  project can be completed.
- An import inserts a record without its create defaults when an earlier row of the same key was refused
  by the database (`CsvImport.RefusedCreatorLosesDefaults`).
- Material is said to be booked per build. A first start whose cost cannot be posted stays started with
  nothing booked (`WorkOrders.StartedUnbooked`); `WorkOrders.MaterialBookedPerBuildIff` is exact.
- Emptying the rule cache is said to force a reload. A load already under way can put outdated rules
  back (`RuleCaching.StaleAfterInvalidation`); `RuleCaching.InvalidationIsFinalIff` says exactly when
  that cannot happen.
- The roll-up is said to need every work order, but reads at most 2000 of a project.
  `WorkOrders.AnswersForAllUpToCap` shows that the cap is exactly where it stops being right.
- The guard on the last active configuration never protects one: it only refuses to deactivate a
  configuration that is already inactive (`Configurations.LastActiveGuardIsIdle`).
- The browser accepts IPv4 octets with leading zeros, which the server's library refuses
  (`IpText.SameAddresses`).

## Model

| member | source | states |
|---|---|---|
| Stock.Inventory.ClaimStock | backend/app/modules/inventory/repository.py:71-98 | one conditional increment: a decrement without cover changes nothing, any other applies in full |
| Stock.Inventory.ReleaseStock | backend/app/modules/inventory/repository.py:101-109 | the claim is given back on the existing row, and no row is made for it |
| Stock.Inventory.PostMovement | backend/app/modules/inventory/service.py:230-272 | posts exactly when the claim is accepted and the insert succeeds, and says which of the two failed; otherwise ledger and on-hand amounts are as before |
| Stock.Inventory.CreateMovement | backend/app/modules/inventory/service.py:275-307 | a receipt raises on hand at its key by its quantity, an issue lowers it, an adjustment moves it with its own sign, with the same amount in the ledger and every other key as before; which movements are refused, that those leave everything alone, and that a valid receipt is always posted |
| Stock.Inventory.CreateTransfer | backend/app/modules/inventory/service.py:310-368 | both rows or none, exactly when it goes through, and the product's total over any warehouses holding both ends is unchanged |
| Stock.Inventory.ReverseIssue | backend/app/modules/finance/service.py:458-473 | undoes one posted issue in ledger and cache, and does nothing for a row already gone |
| Stock.Inventory.IssueStockFor | backend/app/modules/finance/service.py:414-455 | all lines or none: on any failure ledger and stock are as before |
| Stock.Inventory.IssueLines | backend/app/modules/finance/service.py:437-449 | posts line after line and stops at the first that fails, with exactly the lines before it posted |
| Stock.Inventory.UnwindIssues | backend/app/modules/finance/service.py:441-455 | reversing the posted lines restores every on-hand amount and the ledger |
| Stock.Inventory.Reconcile | backend/app/modules/inventory/service.py:424-440 | reports exactly the cached quantities the ledger disagrees with |
| Stock.IssuesFitWhenTheirSumsDo | backend/app/modules/finance/service.py:414-455 | with negative stock off, issues are accepted one by one if and only if every product's summed quantity fits, however often it repeats |
| Stock.ClaimedAllMoves | backend/app/modules/inventory/repository.py:71-98 | a batch of claims moves each on-hand amount by the sum of its postings there |
| StockMachine.CacheFollowsLedger | backend/app/modules/inventory/service.py:230-272 | in every interleaving, with inserts failing anywhere, on hand equals the ledger sum plus what is in flight, and every ledger key has a level row |
| StockMachine.QuietMeansConsistent | backend/app/modules/inventory/service.py:424-440 | once nothing is in flight, reconcile reports consistent |
| StockMachine.FinishedAllOrNothing | backend/app/modules/inventory/service.py:310-350 | a finished request left all its ledger rows, a failed one none, whatever ran beside it |
| StockMachine.OverdraftBound | backend/app/modules/inventory/repository.py:85-109 | with negative stock off, on hand never sinks below minus the inbound quantities rolled back there |
| StockMachine.NeverBelowIff | backend/app/modules/inventory/repository.py:71-109 | with negative stock off, a key never goes below zero in a run if and only if no step gives back an inbound claim larger than what is on hand there |
| StockMachine.NeverOverdrawn | backend/app/modules/inventory/repository.py:85-98 | in particular, with no inbound insert failing, overlapping issues never drive stock below zero |
| StockMachine.OverdraftWithoutTheProviso | backend/app/modules/inventory/service.py:242-271 | there is a run with negative stock off that ends below zero |
| StockMachine.CacheIsSumOfRequests | backend/app/modules/inventory/repository.py:71-109 | in every run the cache is the sum of what each request did to it |
| StockMachine.QuietStockIs | backend/app/modules/inventory/service.py:213-350 | once nothing is in flight every cached quantity is the sum of what the finished requests asked for: receipts added, issues taken off, transfers moved |
| StockMachine.TransferNet | backend/app/modules/inventory/service.py:310-350 | a settled transfer moves its quantity from source to destination, or nothing anywhere |
| StockMachine.StockIsSumOfRequests | backend/app/modules/inventory/service.py:230-350 | in every run a product's stock over any warehouses is the sum of what the requests did there |
| StockMachine.TransfersConserve | backend/app/modules/inventory/service.py:335-350 | in every run, settled transfers drop out of a product's stock on hand over any warehouses holding both their ends, kept or unwound amid other requests |
| Money.HalfEvenIsNearest | backend/app/modules/finance/service.py:53-54 | rounding gives the one nearest integer, and the even one on a tie |
| Money.PricedLines | backend/app/modules/finance/service.py:103-121 | the loop's rounded running sums are the sums of the rounded lines, and total equals subtotal plus tax |
| Money.LineError | backend/app/modules/finance/service.py:103-121 | a line with its tax strays at most 1.5 cents from its exact value, for rates up to 100 percent |
| Money.TotalError | backend/app/modules/finance/service.py:103-121 | a document's total strays at most 1.5 cents per line from the exact sum |
| Ledger.ReversalCancels | backend/app/modules/finance/service.py:558-585 | swapping debits and credits cancels an entry on every account and keeps it postable |
| Ledger.GroupingIsComplete | backend/app/modules/finance/repository.py:92-119 | grouping by account loses no amount and counts none twice |
| Ledger.ReportRowIs | backend/app/modules/finance/service.py:813-839 | a report row carries its account's type and exactly the debits and credits posted to it in the window |
| Ledger.FigureIs | backend/app/modules/finance/service.py:842-892 | a figure is the sum of the journal's lines of its type in the window, debit minus credit for assets and expenses and the reverse for the others |
| Ledger.TrialBalance | backend/app/modules/finance/service.py:813-839 | the rows are those of the accounts posted in the window, each with its debits and credits there; the accumulated totals are theirs, and balance for every posted journal |
| Ledger.TrialBalanceNets | backend/app/modules/finance/service.py:813-839 | for every journal of postings within the chart and every window, debits equal credits |
| Ledger.BalanceSheet | backend/app/modules/finance/service.py:862-892 | each figure is the net of its account type over the journal up to the date, positive on the type's normal side, and the sheet balances |
| Ledger.BalanceSheetBalances | backend/app/modules/finance/service.py:842-892 | assets equal liabilities plus equity plus retained earnings, for every assignment of types and every end date |
| Receivables.ReportsBalanceAfterAnyRun | backend/app/modules/finance/service.py:813-892 | both reports balance on the journal of any run of requests, however a chart that includes the accounts in use is typed and whatever the window |
| Receivables.SaleAlwaysPosts | backend/app/modules/finance/service.py:504-519 | the entries sends build always pass the balance check and carry the total to the control account |
| Receivables.SendPosts | backend/app/modules/finance/service.py:504-536 | a send that goes through appends one entry of the issue date that nets the total on receivables, minus the subtotal on income, minus the tax on the tax account and nothing on any other, and marks the invoice |
| Receivables.BillPosts | backend/app/modules/finance/service.py:682-719 | the mirror for bills: the subtotal on cost of goods, the tax on the tax account, minus the total on payables |
| Receivables.PayPosts | backend/app/modules/finance/service.py:722-797 | a payment nets its amount on bank or cash and the opposite on the control account, adds to what was paid, and gives the document the status that implies |
| Receivables.SendSucceedsIff | backend/app/modules/finance/service.py:476-536 | in every reachable state exactly which invoices go out |
| Receivables.BillSucceedsIff | backend/app/modules/finance/service.py:682-719 | in every reachable state exactly which bills are sent |
| Receivables.PaySucceedsIff | backend/app/modules/finance/service.py:722-797 | exactly which payments are taken |
| Receivables.ReasonIs | backend/app/modules/finance/service.py:135-797 | what every request is refused for: no such document, its state, its amount or type, no stock, no account, or an entry that does not balance |
| Subledger.EveryAccountExplained | backend/app/modules/finance/service.py:476-797 | after any run of requests every account carries from invoice entries what the posted, unvoided invoices stand for, from bill entries what the bills do, and from payment entries what the payments do |
| Subledger.PaidIsPayments | backend/app/modules/finance/service.py:722-797 | after any run every document has been paid exactly what the payments made to it add up to |
| Receivables.ControlAccountsAgree | backend/app/modules/finance/service.py:476-797 | after any run of requests the control accounts equal the unpaid totals of open documents, paid stays between zero and total, and every posted status is the one payments imply |
| Receivables.AgingMatchesControl | backend/app/modules/finance/service.py:895-937 | after any run the aging report adds up to the control account |
| Receivables.BucketsPartition | backend/app/modules/finance/service.py:895-937 | each open amount falls into exactly one bucket |
| Receivables.Aging | backend/app/modules/finance/service.py:895-937 | the loop puts every open document in the bucket its days overdue say (0, 30, 60, 90 and beyond) and totals what is outstanding |
| Receivables.NumbersNeverRepeat | backend/app/modules/finance/repository.py:77-89 | no two invoices ever get one number |
| Receivables.FailedSendOnlyCounts | backend/app/modules/finance/service.py:476-536 | helper for whole runs: a failed send leaves documents and journal as they were and burns at most one number |
| Receivables.AcceptedWhenDemandFits | backend/app/modules/finance/service.py:414-455 | issues of one document are all accepted if and only if every product's quantity, summed over its lines, fits what the warehouse holds |
| Receivables.Finance.ReadyExactlyWhenStockFits | backend/app/modules/finance/service.py:384-455 | for a draft in order but for its stock, the stock side goes through if and only if the summed quantities fit at the warehouse it picks |
| Receivables.VoidSucceedsWhenUnpaid | backend/app/modules/finance/service.py:539-597 | after any run a void succeeds exactly on sent invoices without payments |
| Receivables.VoidCancelsTheSale | backend/app/modules/finance/service.py:558-585 | the appended reversal names the invoice's own sale and cancels it on every account |
| Receivables.Finance.PostEntry | backend/app/modules/finance/service.py:135-171 | an entry is appended if and only if it balances, is not empty and no line is on both sides |
| Receivables.Finance.ValidateIssueLines | backend/app/modules/finance/service.py:384-411 | which documents can be issued from stock at all |
| Receivables.Finance.AddInvoice | backend/app/modules/finance/service.py:322-350 | a new draft with its priced totals, and nothing else |
| Receivables.Finance.EditInvoice | backend/app/modules/finance/service.py:353-381 | only drafts change, and totals follow new lines |
| Receivables.Finance.DropInvoice | backend/app/modules/finance/service.py:600-615 | only drafts are deleted |
| Receivables.Finance.PostInvoice | backend/app/modules/finance/service.py:476-536 | a draft in order but for its stock goes out if and only if its summed quantities fit; it then posts its total to receivables, its subtotal to income and its tax to the tax account and issues its lines, and otherwise, but for the counter, changes nothing |
| Receivables.Finance.CancelInvoice | backend/app/modules/finance/service.py:539-597 | refines the void of the run-level model |
| Receivables.Finance.AddBill | backend/app/modules/finance/service.py:630-652 | a new draft bill with its priced totals |
| Receivables.Finance.PostBill | backend/app/modules/finance/service.py:682-719 | refines the bill send of the run-level model: which bills are sent, and the postings to cost of goods, tax and payables |
| Receivables.Finance.Pay | backend/app/modules/finance/service.py:722-797 | refines the payment of the run-level model: which are taken, and entry, payment and new status together, or nothing |
| CsvText.RecordReadsBack | backend/app/shared/csv_io.py:126-130 | one written record reads back whole, and reading resumes right after it |
| CsvText.RecordsReadBack | backend/app/shared/csv_io.py:126-130 | any rows of any text survive quoting and reading: commas, quotes and line breaks included |
| CsvText.LineEnds | backend/app/shared/csv_io.py:298-305 | a record ends at a line feed, a carriage return, or both, and reading goes on behind it |
| Numerals.IntReadsBack | backend/app/shared/csv_io.py:133-150 | printed whole numbers read back as the same number |
| Numerals.ReadIntIff | backend/app/shared/csv_io.py:232-237 | text reads as a whole number exactly when it is digits with one sign in front or none |
| Numerals.SignsAndZeros | backend/app/shared/csv_io.py:232-237 | leading zeros and a plus sign change nothing, a minus sign negates |
| CsvCells.ListSplitsBack | backend/app/shared/csv_io.py:205-244 | a printed list splits back into its items |
| CsvCells.CellReadsBack | backend/app/shared/csv_io.py:133-244 | coercing a formatted cell gives the value back, for every portable value of every kind |
| CsvCells.CellMeans | backend/app/shared/csv_io.py:205-244 | what a typed cell means by its column's kind: blanks around it dropped, letters of either case in addresses, choices and the words true, yes, y, 1, false, no, n and 0, and which cells are faulty |
| CsvCells.NumberMeans | backend/app/shared/csv_io.py:123-237 | commas, blanks, currency and percent signs inside a number are ignored, and the rest has to read as one |
| CsvCells.ListMeans | backend/app/shared/csv_io.py:240-243 | a list cell holds the non-blank parts between semicolons and commas, trimmed |
| CsvCells.CellShows | backend/app/shared/csv_io.py:133-150 | how each kind of stored value is printed |
| CsvCells.HeadingIs | backend/app/shared/csv_io.py:182-184 | a heading is its words with one underscore between each two, however they are spelt and separated |
| CsvFile.PickDelimiter | backend/app/shared/csv_io.py:261-276 | the loop returns the best-scoring delimiter, the first of equals |
| CsvFile.CommaWins | backend/app/shared/csv_io.py:261-276 | on an exported heading the comma is chosen |
| CsvFile.Parse | backend/app/shared/csv_io.py:279-359 | the parsing loops compute the file-level specification |
| FileRules.ParseIs | backend/app/shared/csv_io.py:279-359 | when a file is refused and for which fault, which column each heading stands for, that the sound rows are kept in order with one value per known column, and that exactly the cells that cannot be read are reported |
| FileRules.FirstLineReads | backend/app/shared/csv_io.py:297-301 | the delimiter is judged by the first line that is not blank |
| CsvFile.ReadHeading | backend/app/shared/csv_io.py:304-329 | the heading loop: columns found, repeated and ignored |
| CsvFile.ReadRows | backend/app/shared/csv_io.py:332-357 | the row loop, blank rows skipped and the row cap enforced |
| CsvFile.ReadCells | backend/app/shared/csv_io.py:343-357 | the cell loop of one row: values and issues |
| CsvFile.ExportReadsBack | backend/app/shared/csv_io.py:171-359 | parsing an exported file returns exactly the exported rows in their importable columns, with no issue |
| CsvFile.EveryRowKeptOrReported | backend/app/shared/csv_io.py:332-357 | every non-blank row is either kept or reported, never both |
| Imported.Collection.BuildIndex | backend/app/shared/csv_service.py:347-384 | one pass builds the map from natural key to live record, the oldest record winning |
| Imported.Collection.PlanAll | backend/app/shared/csv_service.py:532-566 | the rows rejected are exactly those with a reference that matches nothing; every other row is planned in order with everything it gives, for the first live record that has its natural key |
| Imported.Collection.Apply | backend/app/shared/csv_service.py:801-866 | the apply loop performs the plan on the collection, with its counts and failures |
| Imported.Collection.Import | backend/app/shared/csv_service.py:512-589 | a dry run changes nothing and reports the plan; after a commit every row that went through is in some record, its references as the ids they match, its cells and nested cells as they read, except where a later row gives the same field |
| Imported.ImportedRowsStay | backend/app/shared/csv_service.py:427-866 | whatever writes the database refuses, a row whose references are known and whose write goes through lands in the first live record with its natural key or in a new one, changes nothing there that it does not give, stamps it, and what it gave is still there at the end except where a later row gave the same |
| Imported.ResolvesIff | backend/app/shared/csv_service.py:427-451 | a row is rejected exactly when a reference it fills in matches nothing |
| Imported.BuildTable | backend/app/shared/csv_service.py:336-354 | each text of a lookup table stands for the oldest live record that reads so |
| CsvImport.ImportRefinesUpsert | backend/app/shared/csv_service.py:347-566 | index once, plan, apply ends in the same collection with the same decision for every row as upserting row by row with a fresh lookup, and dry-run counts equal commit counts |
| CsvImport.ReimportChangesNothing | backend/app/shared/csv_service.py:801-866 | importing a keyed file again, against tables that resolve its rows alike, creates nothing and changes only update stamps |
| CsvImport.ExtendedTablesResolveAlike | backend/app/shared/csv_service.py:427-451 | tables that only gained entries, as when the file's own records are among them, resolve its rows alike |
| CsvImport.UnnamedFieldKept | backend/app/shared/csv_service.py:454-480 | over a whole import, whatever writes the database refuses, a field no row carries a value for is unchanged in every record that existed before |
| CsvImport.UnnamedChildKept | backend/app/shared/csv_service.py:454-480 | the same for a child of a sub-document |
| CsvImport.RefusedCreatorLosesDefaults | backend/app/shared/csv_service.py:532-566 | of two rows with one new key, the first refused by the database, the second is inserted without the create defaults it gets when imported alone |
| CsvImport.EveryRowCounted | backend/app/shared/csv_service.py:568-589 | created, updated and failed make up the file, in both modes |
| CsvImport.ParsedCellsKept | backend/app/shared/csv_io.py:343-357 | every parsed cell reaches the planner under its column, dotted names as children of a sub-document |
| Imported.ReportAddsUp | backend/app/shared/csv_service.py:512-589 | from file text to report, the counts sum to the non-blank rows |
| StageGraph.DeriveConcurrent | backend/app/modules/projects/seed.py:63-92 | the loop computes the derived graph |
| StageGraph.VariantIs | backend/app/modules/projects/seed.py:70-92 | the derived stages are the last definition of each order, sorted, with their own gates; the first depends on nothing, a middle one on the first alone, the last on every middle one |
| StageGraph.DependenciesPointDown | backend/app/modules/projects/seed.py:63-92 | every derived dependency names a stage of strictly lower order |
| StageGraph.VariantIsIdempotent | backend/app/modules/projects/seed.py:63-92 | deriving again changes nothing |
| StageGraph.VariantPreserves | backend/app/modules/projects/seed.py:63-92 | keys, orders, quality gates, checklists and all other entry gates are kept |
| StageGraph.EvaluateStage | backend/app/modules/projects/engines.py:108-185 | lists exactly the blocking documents and phases that are missing, the stages depended on that are not approved, and the attached blocking gates with no result or a failed one; severe exactly when a failed one is |
| StageGraph.ReadyIff | backend/app/modules/projects/engines.py:108-185 | a stage is ready exactly when every blocking document and phase is supplied, every stage it depends on is approved, and every attached blocking gate has a result on record that passed |
| StageGraph.AdmittedWhenDependenciesAre | backend/app/modules/projects/engines.py:278-355 | with its evidence in place a stage is admitted if and only if the stages it waits for are approved |
| Approvals.DecideStatus | backend/app/modules/projects/engines.py:189-236 | the status an evaluation gives a stage, which is never approved |
| Approvals.NextStatusIs | backend/app/modules/projects/engines.py:188-201 | a hold stays; a failed severe result holds the stage; otherwise open dependencies block it, missing papers keep it waiting, and with neither it is in progress |
| Approvals.OnlyAdmittedIsGranted | backend/app/modules/projects/service.py:908-1149 | a stage becomes approved only by a submission or approval of itself that is admitted |
| Approvals.GrantedOnEvidence | backend/app/modules/projects/engines.py:278-355 | a stage becomes approved only with a passing result for every attached blocking gate, every blocking document supplied and every stage it depends on approved, in the evidence of that attempt |
| Approvals.BecomesApprovedIff | backend/app/modules/projects/service.py:908-1149 | an entered stage becomes approved exactly when it is admitted on submission without an approver, or on its approver's word while it awaits it |
| Approvals.AwaitsApprovalIff | backend/app/modules/projects/service.py:908-995 | a stage comes to await its approver exactly by an admitted submission with one |
| Approvals.GoesOnHoldIff | backend/app/modules/projects/service.py:649-1276 | a stage goes on hold exactly by a rejection that asks for it while it is in validation or awaits its approver, or when it is evaluated with a failed severe result |
| Approvals.MarkedRejectedIff | backend/app/modules/projects/service.py:1152-1187 | a stage is marked rejected exactly when it is rolled back to another |
| Approvals.EntersIff | backend/app/modules/projects/service.py:324-351 | a stage is entered exactly when another approval leaves none of its dependencies open |
| Approvals.ReopeningStaysClosedIff | backend/app/modules/projects/engines.py:204-236 | re-evaluating an approved stage of a closed project leaves it closed if and only if no other approved stage has a blocking dependency on it |
| Approvals.StepStaysClosedIff | backend/app/modules/projects/service.py:578-1276 | from a closed project a request leaves it closed if and only if it is not a re-evaluation or rollback of an approved stage that some other approved stage depends on |
| Approvals.ApprovalsStayClosedIff | backend/app/modules/projects/service.py:578-1276 | over a run of submissions, approvals, rejections, re-evaluations, rollbacks and released holds, the approvals are closed under blocking dependencies throughout if and only if no request is of that kind |
| Approvals.HandoverCoversIff | backend/app/modules/projects/service.py:879-1188 | throughout a run an approved handover means that every stage is approved, if and only if no request re-evaluates or rolls back a stage below an approved handover, or has handover granted while the first stage is not approved |
| Approvals.GrantedAboveReopened | backend/app/modules/projects/seed.py:78-82 | a concrete run of three stages in which handover is granted above a reopened first stage |
| Approvals.HandoverMeansAll | backend/app/modules/projects/engines.py:278-355 | in particular, other than with two stages, in every run that keeps the approvals closed an approved handover means that every stage is approved |
| Approvals.HandoverOutlivesReopening | backend/app/modules/projects/service.py:879-905 | re-evaluating the first stage after any run that approved handover leaves handover approved and the first stage not |
| Approvals.ReopenedBelowHandover | backend/app/modules/projects/service.py:879-905 | a concrete run of three stages that ends so |
| Approvals.HandoverIsFinalIff | backend/app/modules/projects/seed.py:63-92 | that holds of all runs that keep the approvals closed for every number of stages but two |
| Approvals.AnyOrderGoesThrough | backend/app/modules/projects/service.py:324-351 | stages approved in any order that lets each come after those it waits for all go through, and no others are approved |
| Approvals.MiddleInAnyOrder | backend/app/modules/projects/seed.py:63-92 | in particular the middle stages may be approved in any order |
| Holds.ProjectRunsAreRuns | backend/app/modules/projects/service.py:649-1276 | the stages of a project in any run of requests are those of a run of the stages alone, so the rows above hold of projects |
| Holds.StandingIs | backend/app/modules/projects/service.py:383-1876 | exactly which requests complete a project, hold it, hold it by hand, archive it or make it active |
| Holds.CursorIs | backend/app/modules/projects/service.py:1018-1276 | the cursor moves only to the stage rolled back to, or on a grant to the lowest stage entered and not approved |
| Holds.WayForwardIff | backend/app/modules/projects/service.py:908-1149 | with its evidence there, an entered stage goes through on closing the reports and submitting, if and only if what it waits for is approved and it is not on hold, or is under the cursor of a project the engine holds |
| Holds.SomeStageGoesThroughIff | backend/app/modules/projects/service.py:1844-1876 | in every reachable state closing the reports and submitting takes some stage through, unless every stage that waits for nothing more is on hold beyond the reach of the reports |
| Holds.NeverStuck | backend/app/modules/projects/service.py:324-351 | in particular, with no stage on hold some stage always goes through that way |
| Holds.ReleasedIff | backend/app/modules/projects/service.py:649-1876 | exactly the requests that take a stage out of a hold: closing the reports of a project the engine holds with the cursor there, a rollback from the stage to another, and a rollback to it without a severe reading |
| Holds.SecondBreachReleases | backend/app/modules/projects/service.py:697-730 | another severe reading followed by closing the reports releases the stage under the cursor |
| Completion.CanFinishIff | backend/app/modules/projects/service.py:649-1876 | after any run of requests, further requests other than rollbacks can approve every stage and complete the project, whichever stages have approvers, if and only if the first stage is not on hold away from the cursor |
| Completion.CalmFinishes | backend/app/modules/projects/service.py:908-1149 | with no stage on hold that takes neither a rollback nor a severe reading |
| Completion.HeldUntilBreach | backend/app/modules/projects/service.py:383-466 | a concrete run, a hold taken over by hand and then ended, after which the first stage stays on hold and no stage is approved under any requests but severe readings and rollbacks |
| Completion.HeldForGood | backend/app/modules/projects/service.py:1190-1276 | in every project of two or more stages a run that approves, reopens, resubmits and rejects the first stage into a hold, after which it stays on hold and the project is not completed under any requests but rollbacks |
| Publishing.DocsLaid | backend/app/modules/projects/repository.py:278-284 | what is read for a complete version is all of its stages, sorted by order |
| Publishing.NewStagesLaid | backend/app/modules/projects/configurations.py:255-286 | the skeleton survives every edit and change of shape |
| Publishing.PublishChangesOnlyEdits | backend/app/modules/projects/configurations.py:255-346 | a publish replaces the documents and gates the payload names and carries the rest over; dependencies change only when the shape becomes concurrent |
| Published.AdoptedContains | backend/app/modules/projects/configurations.py:255-391 | after any run of racing publishers an adopted version contains what its publisher asked for: each stage of the base it read, with the payload's documents, gates and shape, and for each attached gate a rule with the payload's tuning or else the content in the catalog it drafted from; and its adoption pointed the configuration at that version and shape |
| Published.DraftRefusedIff | backend/app/modules/projects/configurations.py:308-346 | a publish is refused exactly when it names an unknown stage or gate, or carries over a gate that has left the catalog |
| Publishing.NextSealed | backend/app/modules/projects/configurations.py:83-96 | no step of any publisher adds, drops or changes a document of a completed version |
| Publishing.AdoptedSealed | backend/app/modules/projects/configurations.py:366-391 | when a publisher points the configuration at its version, that version is complete and nobody else is writing it |
| Publishing.OneWinnerPerVersion | backend/app/modules/projects/seed.py:112-125 | however publishers interleave or stop, no two complete one version of a configuration |
| Publishing.AdoptionLasts | backend/app/modules/projects/configurations.py:384-391 | helper for the row above: a completed publish stays completed |
| Publishing.CurrentIsComplete | backend/app/modules/projects/configurations.py:289-391 | the current version always has every skeleton stage and a rule for each attached gate |
| Publishing.PinnedReadsConstant | backend/app/modules/projects/repository.py:255-284 | a pinned project's stage list and gate rules never change, whatever is published later |
| Publishing.FreshVersion | backend/app/modules/projects/repository.py:214-227 | the version picked above the highest has no document, not even from a publish that stopped half-way |
| Publishing.DraftedIsFresh | backend/app/modules/projects/configurations.py:299-304 | a drafted version lies right above its base and every version in use, has the skeleton's shape and a rule per attached gate, and each rule's content is the payload's tuning or else the catalog's |
| Publishing.UnracedPublishSucceeds | backend/app/modules/projects/configurations.py:83-96 | with no other writer in between, the drafted version is written whole |
| Publishing.CloneReads | backend/app/modules/projects/configurations.py:123-162 | a clone reads exactly like the version it was taken from |
| Configurations.Registry.PatchConfiguration | backend/app/modules/projects/configurations.py:167-216 | exactly which edits are refused and why; a new default is in use and the only one, and nothing but the named fields changes |
| Configurations.Registry.DeleteConfiguration | backend/app/modules/projects/configurations.py:219-250 | only live configurations that are neither built in, default nor pinned are deleted, and nothing else changes |
| Configurations.AlwaysOneDefault | backend/app/modules/projects/configurations.py:167-250 | in every run there is exactly one default, it is active, and every pinned configuration is live |
| Configurations.OthersLeave | backend/app/modules/projects/configurations.py:123-162 | a clone starts in use, and is neither the default nor built in; projects come and go on live configurations |
| Configurations.LastActiveGuardIsIdle | backend/app/modules/projects/configurations.py:192-205 | the last-active guard fires only on a configuration that is already inactive |
| WorkOrders.ValueLines | backend/app/modules/production/service.py:414-422 | the loop's total is the rounded sum of cost times quantity |
| WorkOrders.MaterialIs | backend/app/modules/production/service.py:414-422 | the value of a bill of material is what its lines cost together to the nearest cent, each its quantity at its product's price |
| WorkOrders.Floor.LiveOrders | backend/app/modules/production/repository.py:181-185 | the project's orders in stored order, at most 2000 |
| WorkOrders.Floor.SyncSections | backend/app/modules/production/service.py:766-775 | the add-and-discard loop decides driven sections by the orders and keeps the others |
| WorkOrders.SectionPercentages | backend/app/modules/production/service.py:753-757 | the displayed percentage of every section |
| WorkOrders.Floor.RecomputePipeline | backend/app/modules/production/service.py:744-780 | refines the roll-up; without orders or a release stage the checklist is untouched |
| WorkOrders.Floor.ReleaseWorkOrder | backend/app/modules/production/service.py:475-487 | refines the release transition, with its checks in order |
| WorkOrders.Floor.StartWorkOrder | backend/app/modules/production/service.py:490-503 | refines the start; only the first books material, after the status is stored |
| WorkOrders.Floor.RequestInspection | backend/app/modules/production/service.py:506-527 | refines the request for inspection |
| WorkOrders.Floor.RecordInspection | backend/app/modules/production/service.py:530-553 | refines pass and hold |
| WorkOrders.Floor.ReworkWorkOrder | backend/app/modules/production/service.py:556-569 | refines rework: material first, and no status change when it fails |
| WorkOrders.Floor.BookMaterial | backend/app/modules/production/service.py:401-435 | worthless material is passed over; otherwise it is booked at its value in finance, on a conflict in the budget alone, or the call raises with nothing booked |
| WorkOrders.Floor.MoveOn | backend/app/modules/production/service.py:611-699 | refines packing, staging and dispatch |
| WorkOrders.TransitionMoves | backend/app/modules/production/service.py:367-699 | helper for whole runs: each endpoint makes exactly its own legal move, recorded once, or none; after a failed cost post a start and an inspection request stand, a rework does not |
| FloorRules.GoesThroughIff | backend/app/modules/production/service.py:222-699 | exactly when each request of the floor goes through: where its order has to stand, and what has to be there |
| FloorRules.RequestLeaves | backend/app/modules/production/service.py:222-699 | what each request that goes through leaves of its order, the books and the checklist, and that every other order is as before |
| WorkOrders.HistoryIsLegal | backend/app/modules/production/service.py:367-384 | in every run each history is a legal path from creation that ends in the current status |
| WorkOrders.PassFollowsBuild | backend/app/modules/production/permissions.py:36-47 | on a legal path nothing is past inspection without a pass after which only packing, staging and dispatch follow |
| WorkOrders.NothingLeavesUntested | backend/app/modules/production/permissions.py:36-47 | in every run no order is packed, staged or dispatched unless a pass followed its last build |
| WorkOrders.BuildsAre | backend/app/modules/production/service.py:490-569 | the builds on a path are the first start, if any, plus the reworks |
| WorkOrders.MaterialBookedPerBuild | backend/app/modules/production/service.py:490-569 | if every start and rework of an order meets material of positive value and a post that works, its bookings number one for the first start and one per rework |
| WorkOrders.MaterialBookedPerBuildIff | backend/app/modules/production/service.py:401-569 | in every run bookings equal builds if and only if no build went through with worthless material or a first-start cost that could not be posted |
| WorkOrders.StartedUnbooked | backend/app/modules/production/service.py:401-503 | a concrete first start that stays in progress with nothing booked for material worth 500 cents |
| WorkOrders.SkippedExactlyWhen | backend/app/modules/production/service.py:401-435 | a build goes unbooked exactly when its material is worth nothing or it is a first start whose cost post raised |
| WorkOrders.TransitionRollsUp | backend/app/modules/production/service.py:744-780 | after every transition that went through, a driven section is done exactly when all orders read have cleared it, and other sections and other projects are untouched |
| FloorRules.ReadsAre | backend/app/modules/production/repository.py:181-185 | a roll-up reads the project's orders in the order they were made, all of them or the first 2000 |
| FloorRules.ChecklistSays | backend/app/modules/production/service.py:744-780 | after every transition that went through, a driven section is done exactly when every order read stands in one of the states listed for it, and shows the nearest whole percentage of those that do |
| WorkOrders.DoneMeansAllCleared | backend/app/modules/production/service.py:744-780 | within the reading cap that is exactly when every order of the project has |
| WorkOrders.DoneSectionsNest | backend/app/modules/production/permissions.py:52-66 | after every transition that went through, with all four sections on the checklist, a later one is done only if the one before it is |
| WorkOrders.AnswersForAllUpToCap | backend/app/modules/production/repository.py:181-185 | the roll-up is right for every state of the orders if and only if the project has at most 2000 |
| WorkOrders.DisplayedHundred | backend/app/modules/production/service.py:753-757 | a displayed 100 means that at most one order in two hundred is behind, not that none is |
| RateLimit.InMemoryStore.Incr | backend/app/core/rate_limit.py:45-58 | adds one to the bucket's count, drops older windows only above ten thousand buckets, and answers the count |
| RateLimit.Limiter.Handle | backend/app/core/rate_limit.py:213-240 | who is limited and what Retry-After says; a disabled limiter counts nothing |
| RateLimit.PruningIsInvisible | backend/app/core/rate_limit.py:52-58 | pruning never raises a count, and never lowers it for a hit in the latest window so far |
| RateLimit.WindowAdmits | backend/app/core/rate_limit.py:217-225 | while the clock does not run back, exactly min(n, max) of n requests in a window are admitted |
| RateLimit.BurstBound | backend/app/core/rate_limit.py:217-225 | any interval of a window's length admits at most twice the maximum per key |
| RateLimit.RetryLandsInNextWindow | backend/app/core/rate_limit.py:229-232 | waiting Retry-After seconds lands in the next window, and any shorter wait does not |
| RateLimit.WaitingIsRewarded | backend/app/core/rate_limit.py:213-240 | a client that waits as told is admitted, whatever others send meanwhile |
| IpText.Ipv4ToInt | frontend/src/admin/ipMatch.ts:7-18 | the loop reads an address or refuses it, and the final unsigned shift changes nothing |
| IpText.SameAddresses | frontend/src/admin/ipMatch.ts:7-18 | server and browser read the same addresses, but for those with a leading zero |
| IpText.OctetIs | frontend/src/admin/ipMatch.ts:7-18 | an octet is one to three digits worth at most 255 |
| IpText.AddressReadsBack | backend/app/control_plane/ip_access/models.py:38-43 | canonical address text reads back as the same number on both sides |
| IpText.MasksAgree | frontend/src/admin/ipMatch.ts:31-34 | the browser's shifted mask is the server's for every prefix but 0, which is why 0 needs its special case |
| IpText.MaskIsInterval | backend/app/control_plane/ip_access/matcher.py:90-95 | masking by a prefix keeps exactly one aligned interval, for IPv4 and IPv6 words |
| IpText.BrowserRangeIsInterval | frontend/src/admin/ipMatch.ts:21-35 | the browser's range test on canonical text is membership in that interval |
| IpRules.CompileRules | backend/app/control_plane/ip_access/matcher.py:61-87 | the loop sorts the live rules into the four buckets |
| IpRules.MatchNetwork | backend/app/control_plane/ip_access/matcher.py:90-95 | the first rule in the list whose network holds the address |
| IpRules.Decide | backend/app/control_plane/ip_access/matcher.py:98-127 | the early returns compute the decision the next rows are about |
| IpRules.VerdictFromFirstPrinciples | backend/app/control_plane/ip_access/matcher.py:61-127 | a client is allowed if and only if some live enabled allow rule covers it or no deny rule does, where an address rule covers the aligned block of its prefix and a country rule its code in either case; with the reason given |
| IpRules.ContainsIs | backend/app/control_plane/ip_access/matcher.py:90-95 | a network of either family holds exactly the addresses its prefix takes to its base |
| IpRules.OrderDoesNotMatter | backend/app/control_plane/ip_access/matcher.py:61-127 | the verdict depends on the set of rules only |
| IpRules.MoreRules | backend/app/control_plane/ip_access/matcher.py:61-127 | more allow rules never shut anyone out, more deny rules never let anyone in |
| IpRules.WarningMatchesVerdict | frontend/src/admin/ipMatch.ts:38-54 | for canonical addresses the browser warns exactly when that rule alone would shut the client out |
| RuleCaching.RuleCache.Look | backend/app/control_plane/ip_access/cache.py:27-32 | serves the stored rules exactly until they expire |
| RuleCaching.RuleCache.Keep | backend/app/control_plane/ip_access/cache.py:27-32 | stores the rules read, expiring a time to live after the call began |
| RuleCaching.RuleCache.Forget | backend/app/control_plane/ip_access/cache.py:34-37 | empties the cache |
| RuleCaching.AnswersAreRecent | backend/app/control_plane/ip_access/cache.py:20-37 | under any overlap every answer was the database's contents no earlier than a time to live before the call began |
| RuleCaching.InvalidationIsFinalIff | backend/app/control_plane/ip_access/cache.py:34-37 | after an invalidation the cache never goes back before it if and only if no load under way holds outdated rules |
| RuleCaching.StaleAfterInvalidation | backend/app/control_plane/ip_access/cache.py:27-37 | a concrete run in which outdated rules return after the invalidation |
| AdminGuard.ValidatePermissions | backend/app/control_plane/admin_users/service.py:24-37 | refuses exactly the maps with an unknown resource or a level outside 0 to 3, and otherwise gives every resource its level, absent ones 0 |
| AdminGuard.Directory.AddUser | backend/app/control_plane/admin_users/service.py:91-111 | which new users are refused, and the directory after one that is not |
| AdminGuard.Directory.EditUser | backend/app/control_plane/admin_users/service.py:114-148 | the demotion and deactivation guards, and the directory after an edit |
| AdminGuard.Directory.RemoveUser | backend/app/control_plane/admin_users/service.py:151-161 | the deletion guard, and the directory after a deletion |
| AdminGuard.Directory.AddRole | backend/app/control_plane/admin_users/service.py:170-188 | which new roles are refused, and the directory after one that is not |
| AdminGuard.Directory.EditRole | backend/app/control_plane/admin_users/service.py:191-234 | the guard on demoting a role, and the directory after an edit |
| AdminGuard.Directory.RemoveRole | backend/app/control_plane/admin_users/service.py:237-251 | only roles nobody holds are deleted |
| AdminGuard.OperationIs | backend/app/control_plane/admin_users/service.py:24-251 | exactly when each operation goes through or is refused for the last manager, with managers spelled out as active admins whose role has level 3 on admin users, and the one user or role it changes |
| AdminGuard.GuardIsExact | backend/app/control_plane/admin_users/service.py:60-80 | the guard refuses exactly the changes that would leave no active admin able to manage admins |
| AdminGuard.SomebodyAlwaysManages | backend/app/control_plane/admin_users/service.py:60-251 | in every run of creations, edits and deletions somebody able to manage admins remains |

## Left out

- Binary floating point: quantities are exact reals, money is whole cents, percentages are exact before rounding.
- CSV numbers with a fraction, dates and instants: printing and reading them is the library's, and the round trip assumes the library reads back what it prints.
- CSV text codecs, lower-casing beyond ASCII, digits with underscores, and the parser's field-size limit.
- CSV entities with a row guard, a writer of their own, or the approval workflow of import requests.
- Natural order of a collection is taken to be insertion order.
- Row identities are modelled as request and line; the mutual links of the two rows of a transfer are not stored.
- Products or warehouses deleted in the middle of a stock request appear only as a refusal.
- Overlap of finance, production, project, admin and configuration requests within one request, concurrent payments on one document among them; crashes between two writes that nothing compensates; process restarts.
- Gapless document numbers and return of stock on void, which the code does not provide.
- Accounts, manual journal entries and charts are edited by nobody during a run; the control account codes are fixed.
- Editing bills in place: bills are edited in the run-level model only.
- The profit-and-loss report on its own; its figures are the income and expense totals of the balance sheet.
- Scoring of measurements and inspections: the evidence of each request is arbitrary. Who may approve, delegation and recovery counters.
- A stage completes the project when it is the last of the list; the program compares its order with the constant 9, which is the order of the last stage in the skeleton every configuration keeps.
- Which requests a stage offers: every entered stage may be measured, re-evaluated, submitted and rolled back, whatever gates, tasks and recovery rules its definition has.
- Budget, checklist and snag checks and the integrations of an approval are one parameter; when the last open report is closed is a request of its own.
- In-place edits of stages and gates of a stored version, seeding and migration of definitions, and legacy scopes.
- Creating a configuration stores its entry before its documents; the two are one step here.
- Monotone current versions: a slow publisher may point the configuration back at its own, lower version.
- Gate catalog contents: a publish sees an arbitrary catalog, and stops when a carried-over gate has left it.
- Work-order fields that decide nothing here: stations, packing and dispatch details, labour amounts, notes and due dates.
- Stock drawn by a rework: it is the outcome of that many line movements, which are not undone when a later one fails.
- Work orders are never deleted by the module, so every stored order is live.
- The shared Mongo counter store, the accounting buckets, and the index repair of the rate limiter.
- IPv6 text, dotted netmasks, upper-casing, trimming and the browser's number reader are parameters of the rule model.
- One call of the rule cache is two methods of its class, because the await between looking and storing is a step boundary.
- Admin passwords, tokens, audit entries and the listing endpoints; e-mail addresses arrive lower-cased.
- HTTP routing, payload parsing, authentication, pages, analytics and logging.
