# Ledger, owed money, wealth history and imports: a verified model

A Dafny model of the stateful and arithmetic core of a personal finance backend, with proofs of what that core promises.
`dafny verify dfyconfig.toml` checks the whole project.

What is modelled, in the system's own terms:

- **Investment ledger** (`InvestmentEvents`, `InvestmentTimeline`, `InvestmentLedger`, `CostBasis`). Creating or updating
  a buy or sell re-checks only the instruments it touches; valuations then fold the whole ledger into average-cost
  positions and raise if a sell exceeds its bucket. Money and quantities are exact reals, dates are day numbers.
  `InvestmentLaws` and `CostBasisLaws` tell both by fields.
- **Owed money** (`OwedBooks`, `OwedPayments`, `OwedCommands` hold the tables and the steps; `OwedService` and
  `FinancialCommands` are the services with their loops and rollbacks). Items, payments, allocations, an append-only event
  log and the linked transactions; amounts in integer cents. `OwedInvariant`, `OwedMoves`, `OwedRuns` and `OwedHistory`
  prove what every run of commands keeps: every command is a sequence of a few moves, so a property that no move breaks
  survives every command. `OwedSettlement`, `OwedWaterfall`, `OwedReversal` and `OwedEffects` say exactly what payments,
  reversals, updates, splits and deletions do; `OwedCapacity` and `OwedCommitments` what every command does to what is owed
  on a transaction. `OwedItemLaws`, `OwedPaymentLaws`, `OwedCommandLaws` and `OwedEffectLaws` tell every command by fields.
- **Integrity check and repair** of the owed log (`OwedIntegrity`), with its laws in `OwedIntegrityLaws`: when it reports,
  what the repair does, and when replaying the log gives the present total. `OwedReports` says for every command which
  items it leaves reported.
- **Wealth history** (`WealthHistory`, `WealthLaws`): one sweep over sorted months against the definition "last record on
  or before the valuation date".
- **Imports** (`ImportPreview`, `ImportProtocol`, `ImportLaws`): building a preview, committing it, and the single-use,
  expiring binding between the two under any interleaving of requests.
- **Rate limiter** (`RateLimiter`), **trip savings** (`TripSavings`) and the two **exchange-rate resolvers**
  (`FxResolution`, `FxLaws`).
- `Outcomes`, `Ordering` and `Totals` hold results, the stable sort with filtering, and sums over tables.

Every service call is one step: it applies in full or changes nothing. Database constraints are guards that abort the
step. Code that loops or updates fields is a method proved against a function of the inputs or of the old state, and the
laws are lemmas about those functions. A law *by fields* is stated without the function's own parts: in terms of the
stored columns it says exactly when an operation goes through, with which status it is refused, and what the columns hold
afterwards. Lemmas switch automatic induction off so that each proof is the one written.

## Where the code falls short of a simple promise

Each of these is proved, with the exact condition under which the promise does hold.

- The sell check and the cost-basis fold group trades by different keys (`EUR` and `eur`, or a missing and an empty ISIN,
  are one key to the first and two to the second). Over every run the fold succeeds if and only if no two stored keys in
  use are merged by the check: `InvestmentLedger.FoldIsSafeExactlyWhenKeysAreInjective`.
- An update may leave an item open with nothing remaining. From then on every automatic payment of that person that
  reaches the item with money left is aborted: `OwedWaterfall.WaterfallSharesOldestFirst` gives the condition,
  `OwedWaterfall.AnUpdateCanBlockPayments` a reachable case.
- The live items of a transaction are to stay within its amount, and creating and updating items check it. But a payment,
  a reversal, the extra allocations of a split, and money received with its new transaction make a cancelled item live
  again without a check, and a transaction's amount can be lowered without one. What will be owed on a transaction after
  any command is told from before it: `OwedCommitments.EveryCommandLeavesOwed`. A command keeps a transaction within its
  amount if and only if the revived items still fit and a changed amount covers what is owed:
  `OwedCommitments.WithinExactlyWhenRoom`, and over whole runs `OwedCommitments.EveryRunStaysWithinExactlyWhenRoom`.
  `OwedCapacity.PaymentsCanOvercommit`, `OwedCommitments.SplitsCanOvercommit` and `OwedCommitments.LoweringCanOvercommit`
  are reachable cases.
- The integrity check calls an item stale when its last event by date tells something else than its last event by
  writing. An item created with a future due date and then edited is reported although nothing is wrong:
  `OwedIntegrityLaws.SoundBooksCanBeReported`. In sound tables the report is empty if and only if the two events agree for
  each listed item: `OwedIntegrityLaws.SoundReportsCompareTwoEvents`. A command gives an item without a finding one if and
  only if it moves what remains or the status under a date before the item's latest event; a split, which writes under
  several dates, if and only if the last of them is before another or before the latest event:
  `OwedReports.ReportedExactlyWhenBehind`, and `OwedReports.SplitsReportNewItems` for the items a split adds. Events
  written in date order are a sufficient case: `OwedIntegrityLaws.SoundBooksAreClean`.
- Changing the default trip goal does rewrite months before the start of history that have no row, and only those:
  `TripSavings.OnlyPrehistoryIsRewritten`; `TripSavings.PrehistoryIsRewritten` is a reachable case.
- A month once written down as history is to stay. The current month is that of the user's time zone, so it can go back;
  over a run the month stays if and only if each change of the goal finds it past or asks for what it is already:
  `TripSavings.HistoryIsKeptExactlyWhenSpared`. `TripSavings.GoingBackRewrites` is a reachable case.
- The rate limiter admits up to twice its limit less one call in a window's length, not its limit:
  `RateLimiter.AtMostTwiceTheLimitLessOne`, and `RateLimiter.BoundIsReached` shows the bound cannot be lowered. From a given
  time on, whatever comes, the limit itself holds for a window's length if and only if the key then has no window open or
  has used the open one up: `RateLimiter.LimitHoldsWhenNothingIsLeft`. A policy keeps every interval of every trace within
  its limit if and only if that is one call: `RateLimiter.LimitHoldsOnlyForOne`.

## Model

| member | source | states |
|---|---|---|
| InvestmentTimeline.SelectEntries | backend/app/services/investment_market_validation.py:105-111 | the first loop keeps exactly the stored events of the affected keys, without the event being replaced, in their order |
| InvestmentTimeline.ScanHoldings | backend/app/services/investment_market_validation.py:123-151 | the running pass accepts exactly when no key, replayed alone, ever sells more than it holds; a refusal is due to some trade's own key |
| InvestmentTimeline.FilteredTimelineAgrees | backend/app/services/investment_market_validation.py:103-121 | leaving unaffected keys out before the sort changes no affected key's history |
| InvestmentTimeline.ValidateMarketSellTimeline | backend/app/services/investment_market_validation.py:92-151 | accepts if and only if every key the change touches, taken alone in the full future timeline, covers all its sells |
| InvestmentLedger.InvestmentEventService.CreateEvent | backend/app/services/investment_event_service.py:51-75 | the table becomes what the create step gives, or is unchanged with that step's status; which row that stores is CreateStoresTheRow |
| InvestmentLedger.InvestmentEventService.UpdateEvent | backend/app/services/investment_event_service.py:132-161 | the table becomes what the update step gives, or is unchanged with that step's status; which row that stores is UpdatePatchesTheRow |
| InvestmentLedger.TimelineIsNextHistory | backend/app/services/investment_market_validation.py:116-121 | the timeline that is validated reads exactly as the stored ledger will in (date, id) order, a new event ranking last on its day |
| InvestmentLedger.ReplacementKeepsCover | backend/app/services/investment_event_service.py:51-75 | a change accepted by the check of the affected keys leaves every key of the whole ledger covered |
| InvestmentLedger.StepKeepsCover | backend/app/services/investment_event_service.py:51-161 | each create or update keeps the table ordered with unique ids and valid rows, and every key covered |
| InvestmentLedger.EveryRunIsCovered | backend/app/services/investment_event_service.py:51-161 | over every run from the empty ledger no key is ever oversold |
| InvestmentLedger.CutOffIsPrefix | backend/app/repositories/investment_event_repository.py:115-128 | the events up to a date are a prefix of the ledger |
| InvestmentLedger.EveryRunFolds | backend/app/services/investment_cost_basis.py:14-126 | over every run and for every cut-off date the fold does not raise, provided stored keys agree with the check's keys |
| InvestmentLedger.MismatchedSellRaises | backend/app/services/investment_cost_basis.py:99-107 | for any two different stored keys with one normalised key, an accepted buy and sell makes the fold raise |
| InvestmentLedger.FoldIsSafeExactlyWhenKeysAreInjective | backend/app/services/investment_market_validation.py:172-179 | for any set of stored keys the fold never raises over any run that trades only in them if and only if normalising is injective on them |
| InvestmentLaws.KeysMergeExactlyWhenSame | backend/app/services/investment_market_validation.py:172-179 | two stored keys are one to the check exactly when ticker and ISIN are the same, a missing one counting as empty, and the currencies have the same letters whatever their case |
| InvestmentLaws.HoldingIsRunningTotal | backend/app/services/investment_market_validation.py:123-151 | what is held of a key is the units bought less those sold, and a sell fails exactly when that would become negative |
| InvestmentLaws.LocalCheckIsExact | backend/app/services/investment_market_validation.py:92-151 | for a covered ledger the check of the affected keys accepts exactly when no key of the whole changed ledger is ever short |
| InvestmentLaws.EveryRunIsNeverShort | backend/app/services/investment_event_service.py:51-161 | over every run from the empty ledger no key has at any point sold more units than it had bought |
| InvestmentLaws.CreateStoresTheRow | backend/app/services/investment_event_service.py:51-75 | a new row is stored exactly when its fields are valid, its links accepted, an id left and the ledger with it never short; then the table is the old rows and this one, in order |
| InvestmentLaws.RefusedRows | backend/app/services/investment_event_service.py:51-75 | which status a refused row gets |
| InvestmentLaws.UpdatePatchesTheRow | backend/app/repositories/investment_event_repository.py:205-226 | an accepted update leaves one row of that id in which every given field has its given value and every other field its old one, at its new place, and all other rows unchanged; and exactly when it is accepted |
| InvestmentLaws.UnknownRowIsNotFound | backend/app/services/investment_event_service.py:132-161 | updating an id that no row has is answered with not found |
| InvestmentLaws.RefusedPatches | backend/app/services/investment_event_service.py:132-161 | any other refused update is unprocessable exactly when the patch itself is invalid, and else a bad request |
| CostBasis.BuildAverageCostPositions | backend/app/services/investment_cost_basis.py:33-89 | the loop over the mutable positions computes the fold, raising exactly when it does; what each event does to it is BuyAddsItsCost, SellTakesItsShare and OthersAreSkipped |
| CostBasis.InterleavedEqualsIndependent | backend/app/services/investment_cost_basis.py:33-87 | the interleaved fold raises exactly when some bucket's own trades do, and otherwise every bucket and position holds what its own trades alone give, and no others exist |
| CostBasis.GainPlusProceedsIsConserved | backend/app/services/investment_cost_basis.py:68-126 | realised gain less remaining cost is net proceeds less acquisition costs, and an empty bucket has no cost |
| CostBasis.AverageWithinOpenLots | backend/app/services/investment_cost_basis.py:68-126 | while something is held the average cost lies between the cheapest and dearest unit cost bought since the bucket was last empty |
| CostBasis.PartialSellKeepsAverage | backend/app/services/investment_cost_basis.py:109-126 | a partial sell is accepted and leaves the average cost unchanged |
| CostBasis.PositionSumsItsBuckets | backend/app/services/investment_cost_basis.py:60-87 | a position's quantity is the sum of its currency buckets' quantities |
| CostBasis.GetHoldingsOn | backend/app/services/investment_valuation_service.py:435-486 | the valuation's own loop holds, for exactly the instruments traded by the date, their net quantity, which HoldingsByFields tells from the events |
| CostBasis.ThreeQuantitiesAgree | backend/app/services/investment_valuation_service.py:435-486 | for every accepted history and date the position, the sum of its buckets and the valuation's quantity are one number |
| CostBasisLaws.BuyAddsItsCost | backend/app/services/investment_cost_basis.py:60-76 | one more buy adds its quantity to its bucket and position, and amount, fees and taxes to the cost; the realised gain stays, and nothing else changes |
| CostBasisLaws.SellTakesItsShare | backend/app/services/investment_cost_basis.py:77-126 | one more sell raises exactly when its bucket holds less; else it takes out its share of the cost, all of it when nothing is left, and realises amount less fees, taxes and share; nothing else changes |
| CostBasisLaws.OthersAreSkipped | backend/app/services/investment_cost_basis.py:33-50 | events of other types and trades without a positive quantity change nothing |
| CostBasisLaws.BoughtBucket | backend/app/services/investment_cost_basis.py:60-76 | a bucket that was only bought holds all units at the sum of all their costs, with no gain |
| CostBasisLaws.GainMovesOnlyAtSells | backend/app/services/investment_cost_basis.py:60-126 | whatever is appended to a history, the realised gain of a bucket without a further sell stays |
| CostBasisLaws.HoldingsByFields | backend/app/services/investment_valuation_service.py:435-486 | the valuation holds the positions traded by the day, with the units bought less the units sold by then |
| OwedService.Service.AddItem | backend/app/services/owed_service.py:37-103 | creating an item leaves the tables the create step gives, with the new id, or unchanged with its status |
| OwedService.Service.UpdateOwedItem | backend/app/services/owed_service.py:141-228 | updating leaves the tables the update step gives, or unchanged with its status |
| OwedService.Service.DeleteOwedItem | backend/app/services/owed_service.py:230-252 | deleting leaves the tables the delete step gives, or unchanged with its status |
| OwedService.Service.ValidateRequestedAllocations | backend/app/services/owed_service.py:504-549 | the loop with its running totals gives the verdict of the first row that fails |
| OwedService.Service.AllocateToOwedItem | backend/app/services/owed_service.py:551-598 | one allocation moves the amount, logs it, and answers what is left of the payment |
| OwedService.Service.PayOldestFirst | backend/app/services/owed_service.py:312-335 | the loop over open items is the waterfall step |
| OwedService.Service.MergePersonLabels | backend/app/repositories/owed_repository.py:216-241 | the bulk update of a person's label stamps exactly that person's items |
| OwedService.Service.RecordPayment | backend/app/services/owed_service.py:254-345 | recording leaves the tables the payment step gives, the person's items stamped, or rolls everything back; what the step stores is AutomaticPaymentByFields and ExplicitPaymentByFields |
| OwedService.Service.DeletePayment | backend/app/services/owed_service.py:437-502 | deleting a payment leaves the tables the reversal step gives, or rolls everything back |
| FinancialCommands.FinancialCommandService.AddRowPayments | backend/app/services/financial_command_service.py:171-236 | the payments of one person's rows, with what the person still owes counted down |
| FinancialCommands.FinancialCommandService.CreateOwedSplit | backend/app/services/financial_command_service.py:100-252 | a split leaves the tables the split step gives, or rolls everything back |
| FinancialCommands.FinancialCommandService.CreateTransactionWithOwed | backend/app/services/financial_command_service.py:48-98 | the transaction, its items and its payment are all there, or nothing is |
| FinancialCommands.FinancialCommandService.DeleteTransactionWithLinkedOwed | backend/app/services/financial_command_service.py:278-430 | the transaction goes with its items detached, or everything is rolled back |
| OwedService.Service.LatestEventByItem | backend/app/services/owed_integrity_service.py:44-46 | overwriting in log order leaves each item's event with the greatest (date, id) |
| OwedService.Service.FindIntegrityIssues | backend/app/services/owed_integrity_service.py:25-109 | the loop reports exactly the issues of the listed items |
| OwedService.Service.BackfillStaleOwedEvents | backend/app/services/owed_integrity_service.py:111-201 | the corrective events are appended and the repaired issues answered in their order, or nothing is changed |
| OwedItemLaws.CreateByFields | backend/app/services/owed_service.py:37-103 | an item is created exactly when its fields are valid, its key is free, no more is paid than owed and its transaction is money out with room for it; each refusal's status, in that order |
| OwedItemLaws.CreatedByFields | backend/app/services/owed_service.py:37-103 | every column of the new item, its status by its amounts, and its log entry on the transaction's date, or else the due date, or else today |
| OwedItemLaws.UpdateByFields | backend/app/services/owed_service.py:141-228 | exactly when an update is accepted, and each refusal's status; clearing the link still checks the old transaction |
| OwedItemLaws.UpdatedByFields | backend/app/services/owed_service.py:141-228 | each given field has its given value, each other one its old; what remains and the status follow; an entry is written exactly when an amount or the status changed, as a cancellation, reopening or adjustment |
| OwedItemLaws.DeleteByFields | backend/app/services/owed_service.py:230-252 | a visible item is marked deleted and logged today with nothing else changed, any other id is not found |
| OwedPaymentLaws.AutomaticPaymentByFields | backend/app/services/owed_service.py:254-345 | exactly when an automatic payment is accepted; then it is stored and each item is paid its share: what is left after all older ones the person owes on, up to what remains |
| OwedPaymentLaws.YoungerOnlyAfterOlder | backend/app/services/owed_service.py:312-335 | an item gets money only if every item of the person created before it, or at the same time under a smaller id, and still owed on ends with nothing remaining |
| OwedPaymentLaws.ExplicitPaymentByFields | backend/app/services/owed_service.py:254-345 | exactly when an explicit payment is accepted; then each item is paid the sum of what is asked for it, with one allocation for each request in order |
| OwedPaymentLaws.RefusedPayments | backend/app/services/owed_service.py:254-345 | the status of a payment with invalid fields, without room on its transaction, or blocked |
| OwedPaymentLaws.UncoveredIsRefused | backend/app/services/owed_service.py:504-549 | the first request that is not covered decides: not found if its item is gone, else a bad request |
| OwedPaymentLaws.PaymentIsLogged | backend/app/services/owed_service.py:551-598 | one entry for each allocation in order, on the payment's date, with what has been paid by then |
| OwedPaymentLaws.DeletePaymentByFields | backend/app/services/owed_service.py:437-502 | a payment can be deleted exactly when it exists, its items are visible and have been paid what it gave them; then they are paid that much less and the payment and its allocations are gone |
| OwedPaymentLaws.UndeletableIsRefused | backend/app/services/owed_service.py:460-494 | the first allocation that cannot be given back decides the status |
| OwedPaymentLaws.DeletionIsLogged | backend/app/services/owed_service.py:460-494 | one reversal entry for each allocation of the payment, in order, dated today |
| OwedCommandLaws.DeleteTransactionByFields | backend/app/services/transaction_service.py:209-240 | a transaction is deleted on its own exactly when no item, deleted or not, and no payment hangs on it |
| OwedCommandLaws.DeleteWithOwedByFields | backend/app/services/financial_command_service.py:278-430 | exactly when a transaction can be deleted with its owed items, under either strategy, and each refusal's status |
| OwedCommandLaws.VersionTells | backend/app/services/financial_command_service.py:701-772 | equal versions mean the same transaction, items, allocations to them and payments under it |
| OwedCommandLaws.UnpaidSplitByFields | backend/app/services/financial_command_service.py:100-252 | exactly when a split without payments goes through, and each refusal's status |
| OwedCommandLaws.CreateWithItemsByFields | backend/app/services/financial_command_service.py:48-98 | exactly when money out is created with owed items, and the refusals of invalid fields, of too much owed and of a used id |
| OwedCommandLaws.CreateWithPaymentByFields | backend/app/services/financial_command_service.py:48-98 | money in created with a payment is the transaction and then the payment under it |
| OwedEffectLaws.DeletionWithOwedIsLogged | backend/app/services/financial_command_service.py:278-430 | each item that hung on the transaction is logged once, by ascending id, today, as deleted or adjusted, with its amounts and status |
| OwedEffectLaws.CreationStoresItsDrafts | backend/app/services/financial_command_service.py:48-98 | one item for each draft in order, linked to the new transaction and logged on its date; nothing else changes |
| OwedEffectLaws.RowIsItsPayment | backend/app/services/financial_command_service.py:171-236 | a paid row is the explicit payment to the person's new item first, of the smaller of payment and row, and then to the extra allocations; asking for more than the payment is refused |
| OwedEffectLaws.SplitStoresItsPayments | backend/app/services/financial_command_service.py:171-236 | a split adds exactly one payment for each paid row, group by group, with the row's person, date, amount and transaction |
| OwedEffectLaws.GroupsComeByFirstRow | backend/app/services/financial_command_service.py:145-148 | groups come in the order in which their people first appear |
| OwedMoves.MoveKeeps | backend/app/services/owed_service.py:254-598 | each primitive change keeps amounts balanced, allocations funded and the log mirroring the items, freezes deleted items and moves no item's paid-less-allocated difference |
| OwedHistory.StepPreserves | backend/app/services/financial_command_service.py:48-430 | every command but an update preserves whatever the primitive changes preserve |
| OwedHistory.EveryRunIsSound | backend/app/services/owed_service.py:37-598 | over every run: paid + remaining = total with 0 <= paid <= total, allocations positive and within their payment, and each item's last written event carries its exact amounts and status and is a deletion exactly when the item is deleted |
| OwedHistory.EveryReachableStateIsSound | backend/app/services/owed_service.py:37-598 | the same from empty tables |
| OwedHistory.HistoryIsNeverRewritten | backend/app/services/owed_service.py:230-252 | no run changes or drops an event, or the amounts or status of a deleted item |
| OwedHistory.BaselineIsKept | backend/app/services/owed_service.py:551-598 | what is paid less what is allocated changes only when that item is updated |
| OwedHistory.PaidDependsOnAllocationsOnly | backend/app/services/owed_service.py:437-502 | two runs that leave an item the same allocations leave it the same paid amount, whatever their order |
| OwedSettlement.GrantsApplyInFull | backend/app/services/owed_service.py:304-311 | a list of allocations goes through exactly when its totals fit the items and the money, and then each is applied in full and nothing else changes |
| OwedSettlement.ValidationIsFinalTotals | backend/app/services/owed_service.py:504-549 | the running check accepts exactly the lists whose final totals fit, repeated items included |
| OwedSettlement.ExplicitPaymentsApplyInFull | backend/app/services/owed_service.py:254-345 | a payment with explicit allocations is accepted exactly when the upfront checks pass; no later guard can fire, every amount is applied, and besides it only the stamps of the person's items change |
| OwedWaterfall.OldestFirst | backend/app/repositories/owed_repository.py:172-186 | an id is in the list exactly when its item is the person's, not deleted, and open or partially paid; each is there once, created before the next, or at the same time under a smaller id |
| OwedWaterfall.WaterfallFollowsPlan | backend/app/services/owed_service.py:312-335 | the automatic loop is the explicit application of a plan fixed in advance |
| OwedWaterfall.WaterfallSharesOldestFirst | backend/app/services/owed_service.py:312-335 | an automatic payment goes through exactly when no due item owing nothing is reached with money left; then each due item gets min(what it owes, what the older ones leave), no other item changes but for the stamps of the person's items, and min(payment, total due) is allocated |
| OwedWaterfall.PaymentSettlesGrants | backend/app/services/owed_service.py:254-345 | every accepted payment applies in full the allocations that are known before the call: those requested, or the automatic plan |
| OwedWaterfall.PaidPrefixThenAtMostOnePartial | backend/app/services/owed_service.py:312-335 | an item is touched only if every older due item ends with nothing remaining |
| OwedWaterfall.AnUpdateCanBlockPayments | backend/app/models/owed_payment.py:58-60 | a reachable state in which every automatic payment of a person is aborted |
| OwedReversal.ReversalsGiveBack | backend/app/services/owed_service.py:460-494 | a list of reversals goes through exactly when its items are visible and have its totals paid, and gives back exactly those |
| OwedReversal.DeletionsGiveBack | backend/app/services/owed_service.py:437-502 | a list of payments can be deleted exactly when they are distinct, exist and all their allocations together can be given back; then exactly those are |
| OwedReversal.OrderOfDeletionsIsIrrelevant | backend/app/services/owed_service.py:437-502 | deleting the same payments in another order is possible just when the first order is and ends in the same tables, the order of the log aside |
| OwedReversal.RecordThenDelete | backend/app/services/owed_service.py:254-502 | a recorded payment can always be deleted again; every amount, allocation and payment comes back, and every status but one set by hand on an item it touched; only stamps remain |
| OwedCapacity.UpdatingStaysWithinCapacity | backend/app/services/owed_service.py:176-186 | an update that leaves the item live and linked keeps the transaction's live total within it |
| OwedCapacity.PaymentsRaiseLinkedTotals | backend/app/services/owed_service.py:551-598 | a payment raises a transaction's live total by the totals of its cancelled items that the request names; it leaves it as it was exactly when there are none, and within the transaction exactly when it fits with them |
| OwedCapacity.ReversalsRaiseLinkedTotals | backend/app/services/owed_service.py:437-502 | a reversal raises it by the totals of the cancelled items the payment was allocated to, under the same two conditions |
| OwedCapacity.PaymentsCanOvercommit | backend/app/services/owed_service.py:551-598 | a reachable state in which a payment of 10 towards a cancelled item leaves 200 owed on a transaction of 100 |
| OwedCommitments.SplitsRaiseLinkedTotals | backend/app/services/financial_command_service.py:100-252 | a split raises what is owed on its transaction by its rows, and on any transaction by the totals of its cancelled items that the extra allocations of paid rows name |
| OwedCommitments.CombinationsRaiseLinkedTotals | backend/app/services/financial_command_service.py:48-98 | a transaction created with owed items raises what is owed on it by them, and on any transaction by the totals of its cancelled items that the received payment names |
| OwedCommitments.EveryCommandLeavesOwed | backend/app/services/owed_service.py:725-766 | after any command what is owed on any transaction is what could be told before it |
| OwedCommitments.WithinExactlyWhenRoom | backend/app/services/owed_service.py:725-766 | a command leaves a transaction that was within its amount within it exactly when the items it revives still fit and a changed amount covers what is owed; creating, updating and deleting items and deleting transactions always do |
| OwedCommitments.EveryRunStaysWithinExactlyWhenRoom | backend/app/services/owed_service.py:725-766 | over a run from empty tables every transaction is within its amount in every state exactly when there is room for each command as it comes |
| OwedCommitments.SplitsCanOvercommit | backend/app/services/financial_command_service.py:171-236 | a reachable state in which a split of 100 that passes its own check leaves 160 owed on a transaction of 100 |
| OwedCommitments.LoweringCanOvercommit | backend/app/services/transaction_service.py:154-193 | a reachable state in which lowering a transaction's amount leaves more owed on it than that |
| OwedCommitments.ReceivingIsAccepted | backend/app/services/financial_command_service.py:48-98 | money received with its new transaction is accepted whenever the requested items are the person's own and visible and the totals fit, cancelled or not |
| OwedEffects.GroupsHoldEachPersonsRows | backend/app/services/financial_command_service.py:145-148 | rows are grouped once per person, in order, with nothing lost |
| OwedEffects.RowPaymentsGive | backend/app/services/financial_command_service.py:171-236 | each row's payment gives the new item the smaller of payment and row, and other items what its extra allocations name; no item of another person is paid |
| OwedEffects.SplitAddsOneItemPerPerson | backend/app/services/financial_command_service.py:137-252 | a split keeps every existing item's terms and adds one item per person for the sum of that person's rows, which together with what was owed before fit the transaction; each new item is paid the smaller of payment and row for each of that person's rows, and any item what extra allocations name |
| OwedEffects.DeletionDetachesExactlyLinkedItems | backend/app/services/financial_command_service.py:278-430 | the deletion goes through only on the version shown, detaches exactly the linked items as the strategy says, and changes no amount, payment or allocation |
| OwedIntegrityLaws.LatestIsGreatest | backend/app/repositories/owed_repository.py:267-279 | the last event in log order is the one with the greatest (date, id), and there is one unless the item has none |
| OwedIntegrityLaws.ListedItems | backend/app/repositories/owed_repository.py:42-69 | the listing shows visible items only, each once, and all of them up to its limit |
| OwedIntegrityLaws.ListedByAge | backend/app/repositories/owed_repository.py:42-69 | the listing is the newest ten thousand visible items, newest first: none that is left out is newer |
| OwedIntegrityLaws.IssuesByFields | backend/app/services/owed_integrity_service.py:50-109 | each issue tells its item's amounts and the last event in question, one for each item with a finding, in the order of the listing |
| OwedIntegrityLaws.CleanByFields | backend/app/services/owed_integrity_service.py:50-109 | an item has no finding exactly when its last event by date and id is no deletion and carries what remains and the status |
| OwedIntegrityLaws.CorrectionByFields | backend/app/services/owed_integrity_service.py:160-186 | a corrective event is a payment with the item's amounts and status, dated by the later of the item's last change and its latest event |
| OwedIntegrityLaws.IssuesAreFindings | backend/app/services/owed_integrity_service.py:50-109 | the report is empty exactly when no listed item has a finding |
| OwedIntegrityLaws.LatestAfterRepair | backend/app/services/owed_integrity_service.py:164-186 | a corrective event becomes its item's latest and no other item's latest changes |
| OwedIntegrityLaws.RepairRemovesMismatches | backend/app/services/owed_integrity_service.py:111-201 | after the repair the report is the old one without its mismatches: only items with no event or ending in a deletion are left |
| OwedIntegrityLaws.RepairIsIdempotent | backend/app/services/owed_integrity_service.py:111-201 | repairing twice is repairing once |
| OwedIntegrityLaws.RepairIsSound | backend/app/services/owed_integrity_service.py:133-201 | on sound tables the repair always goes through and keeps them sound |
| OwedIntegrityLaws.CleanLogReplaysToPresent | backend/app/services/owed_integrity_service.py:25-109 | with an empty report, no event after today, deleted items ending in their deletion and all items listed, replaying the log at today gives the active remaining total |
| OwedIntegrityLaws.SoundReportsCompareTwoEvents | backend/app/services/owed_integrity_service.py:25-109 | on sound tables the report is empty exactly when, for each listed item, the event that is last by date carries the remaining amount and status of the one written last and is no deletion |
| OwedIntegrityLaws.PaymentsReportWhenBackdated | backend/app/services/owed_service.py:254-345 | a payment makes an item reported exactly when it reaches the item and is dated before the item's latest event |
| OwedIntegrityLaws.ReversalsReportWhenBackdated | backend/app/services/owed_service.py:437-502 | a reversal makes an item reported exactly when the payment was allocated to it and its latest event is dated after today |
| OwedIntegrityLaws.UpdatesReportWhenBackdated | backend/app/services/owed_service.py:141-228 | an update makes an item reported exactly when it is the one updated, its remaining amount or status changes, and its latest event is dated after today |
| OwedReports.ReportedExactlyWhenBehind | backend/app/services/owed_integrity_service.py:50-109 | any command makes an item reported that stays visible and was not reported exactly when it moves what remains or the status under a date before the item's latest event or, in a split, before another of its own dates |
| OwedReports.SplitsReportWhenBackdated | backend/app/services/financial_command_service.py:171-236 | a split makes an item there was reported exactly when its person's paid rows name it and the last of them to do so is dated before another or before the item's latest event |
| OwedReports.SplitsReportNewItems | backend/app/services/financial_command_service.py:137-252 | a split leaves a new item reported exactly when the last of its paid rows is dated before another of them or before the transaction |
| OwedIntegrityLaws.SoundBooksAreClean | backend/app/services/owed_integrity_service.py:25-109 | a sufficient case: sound tables whose events were written in date order have an empty report |
| OwedIntegrityLaws.SoundBooksCanBeReported | backend/app/services/owed_service.py:651-669 | a reachable sound state with a reported mismatch, from a future due date |
| WealthHistory.GetLatestSnapshotByAccount | backend/app/services/wealth_service.py:594-604 | each account's entry is its last snapshot in (date, id) order |
| WealthHistory.GroupByMonth | backend/app/services/wealth_service.py:278-282 | each month's group holds exactly its snapshots, in order |
| WealthHistory.AdvanceEvents | backend/app/services/wealth_service.py:302-308 | the moving index stops after exactly the events dated up to the valuation date, and the table holds each item's last of them |
| WealthHistory.MonthByMonth | backend/app/services/wealth_service.py:309-310 | adding a month's snapshots to those of earlier months gives exactly the snapshots up to that month |
| WealthHistory.SweepMonth | backend/app/services/wealth_service.py:299-364 | one turn of the loop keeps both tables right and yields the month's row of the simple definition |
| WealthHistory.GetMonthlyTotals | backend/app/services/wealth_service.py:260-366 | one row for each month with anything to show and the current one, ascending; each not dated today is the last snapshots, the month's investments and the replayed log at its valuation date; the current one agrees with the summary besides investments |
| WealthHistory.GetSummary | backend/app/services/wealth_service.py:222-258 | the total is the latest balances of the accounts that are not derived, what is owed now, and the investment value |
| WealthHistory.CleanBooksNeedNoSpecialCase | backend/app/services/wealth_service.py:311-356 | when the log is clean and nothing is dated after today the current row too is the simple definition |
| WealthLaws.RowByFields | backend/app/services/wealth_service.py:299-364 | a month's row adds up the last balance of each account that is not derived, the month's investments, and what each item's last event leaves open, all dated up to the end of the month |
| WealthLaws.CurrentRowByFields | backend/app/services/wealth_service.py:311-356 | the current month's row adds up the present totals and the month's investments |
| WealthLaws.PresentBalanceByFields | backend/app/services/wealth_service.py:594-604 | an account's present balance is that of its last snapshot by date and id |
| WealthLaws.SummaryByFields | backend/app/services/wealth_service.py:222-258 | the summary adds up the present balances of the accounts that are not derived and what is owed |
| WealthLaws.MonthsByFields | backend/app/services/wealth_service.py:260-300 | a month has a row exactly when it has a snapshot, an event or investments, or is the current one and some month has a row |
| WealthLaws.MonthsAreGregorian | backend/app/services/wealth_service.py:398-409 | a month's last day is the calendar's: its length is what lies between its first day and the next month's, counting a leap day every fourth year but not every hundredth unless every four-hundredth |
| ImportPreview.BuildStream | backend/app/services/import_service.py:399-440 | one pass with the hashes seen so far yields the shown and the invalid rows |
| ImportPreview.BuildPreviewResponse | backend/app/services/import_service.py:383-462 | the preview of both streams with its counts |
| ImportPreview.NewMeansFirstOccurrence | backend/app/services/import_service.py:730-745 | a shown row is the file's row of its number and is new exactly when its hash is neither stored nor carried by an earlier row that built |
| ImportPreview.BuiltRowsAreShown | backend/app/services/import_service.py:399-440 | the rows that build are shown, all of them and in order |
| ImportPreview.EveryRowIsAccountedFor | backend/app/services/import_service.py:500-541 | valid and invalid rows make up the file, inserted and skipped rows do, and no import can end in the failed status |
| ImportPreview.InsertsWhenFresh | backend/app/models/transaction.py:33-38 | the unique index accepts rows exactly when their hashes are new and distinct, and then appends them all |
| ImportPreview.NewRowsAreFresh | backend/app/services/import_service.py:643-728 | the rows a commit inserts carry each hash of the file that is not stored, once |
| ImportPreview.CommitAddsTheFile | backend/app/services/import_service.py:500-591 | committing a preview of the same tables never conflicts, keeps hashes unique and adds exactly the file's hashes |
| ImportPreview.ImportingAgainInsertsNothing | backend/app/services/import_service.py:500-591 | importing the same rows again inserts nothing and changes nothing |
| ImportPreview.ImportTables.CommitPreview | backend/app/services/import_service.py:500-591 | the tables become what the commit step gives, with a batch record of the file's name, counts and status, or are unchanged with its status |
| ImportLaws.PreviewByFields | backend/app/services/import_service.py:383-462 | what the preview shows and reports: numbers, order, duplicates, errors and counts, told from the file's rows and the stored hashes |
| ImportLaws.NewRowsByFields | backend/app/services/import_service.py:643-728 | the inserted rows are those shown as new, in order |
| ImportLaws.CommitByFields | backend/app/services/import_service.py:500-591 | a commit is a bad request exactly when a new row still waits for a rate and may not, a conflict exactly when a hash is taken, and else appends the new rows |
| ImportLaws.BatchByFields | backend/app/services/import_service.py:851-866 | the batch record counts rows shown as new as inserted and the rest as skipped, and is a success exactly when nothing was skipped |
| ImportProtocol.ImportPreviewBindingService.CreatePreview | backend/app/services/import_preview_binding_service.py:35-69 | the stored preview is bound to user, mode, source, file and rows shown, unconsumed, expiring fifteen minutes on |
| ImportProtocol.ImportPreviewBindingService.ClaimUnconsumed | backend/app/repositories/import_preview_repository.py:75-97 | the guarded update consumes the user's unconsumed preview or does nothing, and says which |
| ImportProtocol.ImportPreviewBindingService.ValidateAndClaimCommit | backend/app/services/import_preview_binding_service.py:71-160 | the first failing check decides the status and consumes nothing; otherwise the preview is consumed; which checks fail when is VerdictByFields |
| ImportProtocol.ActionsAreSafe | backend/app/services/import_service.py:250-292 | each step of any request, or of other features, keeps the protocol safe |
| ImportProtocol.EveryInterleavingIsSafe | backend/app/services/import_service.py:250-292 | in every interleaving each success is its preview's only one, made by its owner before expiry from the same source and file, and inserted exactly the non-duplicate rows shown; stored hashes stay unique |
| ImportProtocol.ConsumedExactlyOnce | backend/app/repositories/import_preview_repository.py:75-97 | a preview is consumed exactly when one commit of it has succeeded, and never two |
| ImportProtocol.CommitsAreAllOrNothing | backend/app/services/import_service.py:500-591 | a commit appends exactly the new rows shown, or leaves previews, tables and successes as they were |
| ImportProtocol.PreviewsNeverReopen | backend/app/services/import_preview_binding_service.py:71-160 | nothing about a preview changes but its consumption, and that once |
| ImportProtocol.UndisturbedImportSucceeds | backend/app/services/import_service.py:195-292 | from any safe state a preview and a commit of it at any time within the next fifteen minutes goes through, undisturbed, and stores exactly the file's hashes besides the old ones |
| ImportProtocol.VerdictByFields | backend/app/services/import_preview_binding_service.py:71-160 | which verdict a request gets from the stored preview, in the order of the checks: not found, consumed, expired, then anything that differs |
| ImportProtocol.NewPreviewByFields | backend/app/services/import_preview_binding_service.py:35-69 | every column of a new preview; it expires fifteen minutes on |
| ImportProtocol.ConsumedByFields | backend/app/repositories/import_preview_repository.py:75-97 | a claim succeeds exactly on the user's own unconsumed preview, and changes only its consumption time |
| ImportProtocol.RequestsPassUntilExpiry | backend/app/services/import_preview_binding_service.py:95-160 | from any safe state a request with the preview's source, file and rows passes its check at every time before expiry, and is dropped from then on |
| ImportProtocol.UnlockedClaimsAreGranted | backend/app/services/import_preview_binding_service.py:140-160 | a checked request gets the claim whenever no other request holds it |
| ImportProtocol.ClaimsWaitForTheHolder | backend/app/repositories/import_preview_repository.py:75-97 | while another request holds the claim a request waits; it gets the claim once the holder has aborted and is dropped once the holder has committed |
| ImportProtocol.LateImportIsRefused | backend/app/services/import_preview_binding_service.py:95-112 | the same undisturbed import from expiry on stores nothing |
| RateLimiter.InMemoryRateLimiter.Check | backend/app/security/rate_limit.py:46-71 | the buckets and the answer are those of the check step |
| RateLimiter.InMemoryRateLimiter.RemoveExpiredBuckets | backend/app/security/rate_limit.py:77-85 | exactly the expired buckets are gone |
| RateLimiter.VerdictsArePerKey | backend/app/security/rate_limit.py:46-85 | under a monotone clock the verdict on a call is the one its own key's calls alone would get |
| RateLimiter.AtMostTwiceTheLimitLessOne | backend/app/security/rate_limit.py:46-71 | any half-open interval of one window's length admits at most twice the limit less one calls of a key |
| RateLimiter.BoundIsReached | backend/app/security/rate_limit.py:46-71 | for every policy some trace reaches that bound |
| RateLimiter.LimitHoldsWhenNothingIsLeft | backend/app/security/rate_limit.py:46-71 | told from the calls before a time, whatever comes after it stays within the limit for a window's length exactly when the key has no live bucket then or a used-up one |
| RateLimiter.LimitHoldsOnlyForOne | backend/app/security/rate_limit.py:46-71 | a policy keeps every interval of every trace within its limit exactly when its limit is one |
| RateLimiter.WaitingIsEnough | backend/app/security/rate_limit.py:67-68 | a refused caller that waits as long as it was told is admitted, whatever other keys do |
| RateLimiter.OneCall | backend/app/security/rate_limit.py:46-71 | what one call answers and leaves, told from its key's live window: a new window, one more call, or a refusal with the whole seconds until the window ends, at least one |
| TripSavings.TextOrderIsCalendarOrder | backend/app/services/trip_savings_service.py:110-122 | comparing months as text is comparing them by the calendar |
| TripSavings.NextMonthIsNext | backend/app/services/trip_savings_service.py:144-151 | the next month is the calendar's, in the same text format |
| TripSavings.TripSavingsService.SetMonth | backend/app/services/trip_savings_service.py:59-96 | the month's row becomes an override, or the default again, and no other row changes |
| TripSavings.TripSavingsService.FillMonths | backend/app/services/trip_savings_service.py:117-129 | the loop ends at the given month, inserts no month twice, and gives exactly the months on its way that have no row one with the default |
| TripSavings.TripSavingsService.SnapshotHistoricalDefaults | backend/app/services/trip_savings_service.py:98-129 | exactly the months from the start of history up to the given one that have no row get one with the default |
| TripSavings.TripSavingsService.ApplyNewDefault | backend/app/repositories/trip_savings_repository.py:125-141 | rows from the month on take the goal, and those on the default take it as amount; no other row changes |
| TripSavings.TripSavingsService.UpdatePreferences | backend/app/services/user_preferences_service.py:35-81 | the goal changes and every month's row is the snapshot or update it calls for; without a new goal nothing else changes; which months are kept is RecordedMonthsAreKept |
| TripSavings.HistoryIsKept | backend/app/services/user_preferences_service.py:49-76 | no month from the start of history up to the current one resolves differently after a change of goal |
| TripSavings.FutureTakesTheGoal | backend/app/repositories/trip_savings_repository.py:125-141 | every month from the current one on has the new goal, and the new goal as amount unless overridden |
| TripSavings.HistoryStartIsEarliest | backend/app/repositories/trip_savings_repository.py:42-64 | the start of history is the month of the preferences or of the earliest record, not after either by the calendar, and missing exactly when both are |
| TripSavings.RecordedMonthsAreKept | backend/app/services/trip_savings_service.py:98-129 | every month before the current one and not before the preferences' month, or not before the earliest record, resolves to the same after a change of goal |
| TripSavings.SettingAMonth | backend/app/services/trip_savings_service.py:59-96 | the set month has the given amount as an override, or its goal as the default; its goal is the stored one or the default goal; no other month changes; a negative amount is refused |
| TripSavings.ResolvingAMonth | backend/app/services/trip_savings_service.py:30-57 | a month resolves to its row, or to the default goal, 5000 without preferences |
| TripSavings.OnlyPrehistoryIsRewritten | backend/app/services/trip_savings_service.py:98-129 | a past month resolves differently exactly when it has no row and lies before the start of history |
| TripSavings.PrehistoryIsRewritten | backend/app/services/user_preferences_service.py:35-81 | a reachable state in which a change of the default goal makes a past month resolve differently |
| TripSavings.HistoryIsKeptExactlyWhenSpared | backend/app/services/user_preferences_service.py:49-76 | over any run that does not set the month itself, a month that is history at the first change of goal keeps what it resolves to exactly when each change of the goal finds it past or asks for what it is already |
| TripSavings.GoingBackRewrites | backend/app/services/user_preferences_service.py:49-76 | a reachable state in which a change of the goal made after the current month went back rewrites a month written down before |
| TripSavings.HistoryNeverChanges | backend/app/services/user_preferences_service.py:49-76 | while the current month never goes back, other records coming and going, such a month always keeps what it resolves to |
| FxResolution.ImportFxResolutionService.GetRate | backend/app/services/import_fx_resolution_service.py:104-155 | the cache never changes an answer: the result is always the uncached lookup's |
| FxResolution.ImportFxResolutionService.Resolve | backend/app/services/import_fx_resolution_service.py:37-86 | each row is resolved as it would be alone, whatever was cached before |
| FxResolution.LookupPicksBest | backend/app/services/import_fx_resolution_service.py:128-152 | a found rate is that of the latest usable point within seven days |
| FxResolution.PendingFxResolutionService.LoadRates | backend/app/services/pending_fx_resolution_service.py:162-197 | every pending currency has its sorted usable rates over its own span |
| FxResolution.PendingFxResolutionService.Resolve | backend/app/services/pending_fx_resolution_service.py:117-160 | every pending event with a rate gets it, the others are untouched, and the count says how many |
| FxResolution.BatchPicksBest | backend/app/services/pending_fx_resolution_service.py:199-230 | an event is resolved exactly when a usable point lies in its currency's span on or before its date, by the latest one |
| FxResolution.BatchAgreesWithLookup | backend/app/services/pending_fx_resolution_service.py:162-230 | whenever the row-by-row lookup finds a rate the batch gives the same rate and source |
| FxResolution.PendingIsDownwardClosed | backend/app/services/pending_fx_resolution_service.py:199-230 | in a currency, whatever is earlier than an event left pending is left pending |
| FxResolution.ResolveIsIdempotent | backend/app/services/pending_fx_resolution_service.py:117-160 | resolving twice is resolving once, for any rounding of rates |
| FxLaws.LookupByFields | backend/app/services/import_fx_resolution_service.py:104-155 | a rate is found exactly when a positive point in euro lies within the seven days up to the date, and is that of the latest |
| FxLaws.RowByFields | backend/app/services/import_fx_resolution_service.py:50-86 | which rows are resolved, which are left, and what rate and source they get |
| FxLaws.BatchByFields | backend/app/services/pending_fx_resolution_service.py:117-230 | every column of every event after the batch, told from the points in its currency's span |

## Left out

- Routers, request parsing beyond the field constraints that decide a refusal, authentication, sessions, configuration and the whole frontend: plumbing around the core.
- CSV and Excel importers: an import starts from parsed rows, each with its hash and whether it builds.
- Portfolio values, monthly series, price and exchange-rate selection of the valuation service: its monthly values are inputs of the wealth history; only its holdings loop is modelled.
- Deleting investment events, deleting import batches and importing them as ledger steps: they do not re-run the sell check, so the ledger theorems do not cover them. Positions filtered by source for the same reason.
- InvestmentLedger.InvestmentEventService.CreateEvent: the verdict on linked transactions is a parameter, columns that no check reads are not stored, and an explicit null in a required column is not modelled.
- CostBasis.BuildAverageCostPositions: decimal division is exact, the final rounding for display is not modelled, and the descriptive fields of a position are left out.
- InvestmentTimeline.ValidateMarketSellTimeline: upper-casing is that of ASCII letters.
- Month reset, legacy bulk inserts, administrative resets and account deletion as owed steps: they remove allocations without reversing items or add items without events.
- OwedService.Service.RecordPayment: names are taken as already canonical, so variants of a name are never merged, and the renaming of a person is not modelled; neither are method, currency and notes.
- OwedService.Service.MergePersonLabels: only the stamping of the person's items is modelled, as labels are canonical already and the stamps of payments are not kept.
- OwedIntegrityLaws.SoundBooksAreClean: date order of the log is sufficient and not necessary; the exact condition is SoundReportsCompareTwoEvents.
- FinancialCommands.FinancialCommandService.CreateTransactionWithOwed: the category check is not modelled and the new transaction's id is a parameter.
- FinancialCommands.FinancialCommandService.DeleteTransactionWithLinkedOwed: all records belong to one user, so the ownership checks are not modelled; the version digest is the data it digests, without the last-change stamps of the transaction and of payments, which are not modelled.
- Overflow of database columns, and rounding to their number of places: amounts are whole cents of any size.
- WealthHistory.GetMonthlyTotals: dates are year, month and day as one number; months are numbers, which TripSavings shows agree with their text.
- TripSavings.HistoryNeverChanges: runs in which the current month goes back are left to HistoryIsKeptExactlyWhenSpared.
- WealthHistory.GetSummary: only the total is modelled; the count of accounts, the latest date and the interest are not.
- ImportProtocol.EveryInterleavingIsSafe: the insertion of rows and the commit are one step, as the unique index and the row lock of the claim make them; sources other than the standard import do not use the binding.
- ImportPreview.BuildPreviewResponse: hashes are arbitrary, so no collision is ruled out and none is assumed.
- RateLimiter.InMemoryRateLimiter.Check: the lock makes a call one step; time is an exact real.
- TripSavings.TripSavingsService.UpdatePreferences: the other preference fields are not modelled, and the earliest month of other records is given.
- FxResolution.PendingFxResolutionService.Resolve: the provider answers from a fixed series or always fails for a currency; the read-only preview of the batch is the same computation without the writes.
