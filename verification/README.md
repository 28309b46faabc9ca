# A verified model of the portfolio platform

The platform keeps a user's Kraken account near target weights. It reads the account, computes a plan, sends
market orders over an unreliable connection, and publishes rebalances for approval. This project models that
behaviour in Dafny and proves what it promises, over every input, every order of events and a crash anywhere.
`dafny verify dfyconfig.toml` checks the whole project.

## The parts

| Part | Files | What it is |
|---|---|---|
| Order protocol | `KrakenOrders`, `Protocol`, `LedgerDb`, `Execution` | A write-ahead protocol against an exchange that may drop answers, fail lookups, fill partly and refuse. `Protocol` is a state machine over its atomic steps. `Execution` is the code: an object whose every method extends a trace that is a run of that machine, so what is proved of runs holds at every point of the code and across its calls. |
| Money of a run | `Sums`, `Precision`, `Planning`, `Plans`, `Money`, `CashFloor` | From the account as read to sized legs, to buys shrunk into a budget credited from sells, to the orders asked of Kraken and the cash in its ledger. |
| Engine | `Valuation`, `Allocation`, `Reconcile`, `Reconciled` | Valuation, drift, the two allocations and the plan; optimality, conservation and the fixed point. |
| Proposal slot | `Proposals`, `Approvals` | The versioned slot that propose, approve, withdraw and the automatic rebalance all change, and what an approval asks of Kraken. |
| Cadence and scheduler | `Cadence`, `Scheduler`, `Waiting`, `Alerts` | Calendar slots, the batched tick, how long a due user waits, one evaluation per slot, and alerts. |
| Refresh tokens | `Refresh` | Rotating one-use tokens in families, as in section 5.2.2.3 of RFC 6819 and section 4.14.2 of RFC 9700. |
| Target weights | `Weights` | The order the form saves weights in, against the server's limit of 100. |

## What is assumed

- Kraken (`Protocol.CanHappen` and the three `Truthful` predicates): an order is accepted only before
  `attempted_at + ABSENCE_GRACE`, under a txid of its own; a finished order never changes; it executes nothing
  negative, and what executed nothing cost nothing; a buy spends no more than it asks for, its fee taken in the asset,
  and a sell pays no fee above what it raises; a definitive refusal is of an order never accepted; an answered lookup
  is truthful and, once the grace has passed, complete. An answer may always fail to come.
- Each transaction block is one atomic step. `approve` reads the slot at core/rebalance.py:123 without a row
  lock; the step there is atomic by this assumption. The user lock is the evaluation's phase not being idle.
- Client order ids, refresh-token values and family ids are never repeated. A token's value stands for its hash.
- Kraken's ledger enters every cost and fee at the fiat's places, rounded either way. What else the ledger may hold
  (`CashFloor.Plausible`) follows from the order book (`CashFloor.TheBookIsPlausible`).
- Amounts are exact reals. The source's 28-digit decimals and the browser's division at 20 decimals are idealised.
- Kraken, the clock and a crash are nondeterministic choices inside the methods. What was read of the account, the
  caller's decision and the first guess of the cadence walk are parameters.

## Where the code meets its promise only under a condition

- `_within` divides by zero when the sells left a budget below zero and no buy asks for anything, a rebalance of
  sells alone included. `Money.WithinRaisesExactlyWhen` is the exact condition and `Money.WithinCanRaise` an input.
- The cash stays at its target or above, against every ledger, exactly when the budget covers what the orders asked
  may cost at worst: each buy what it cost, or its amount while that is not known, as the ledger may round it up, and
  one ledger quantum for each sell not known to be finished (`CashFloor.FloorHoldsExactlyWhen`). With every sell settled
  and no pair finer than the ledger that is a budget that is not negative (`CashFloor.SettledFloorHoldsExactlyWhen`).
  One sell whose answer was lost can miss the floor by a quantum (`CashFloor.UnfinishedSellCanMiss`), and so can a pair
  finer than the ledger (`Precision.LedgerNeverOvercharges`).
- The last write of an approval marks whatever is in the slot by then. The status EXECUTED may name a version
  nobody sent (`Proposals.ExecutedMayNameAnUnsentVersion`). Along a history it never does exactly when no such write
  comes upon a live or withdrawn proposal (`Proposals.FinishTellsTheTruthExactlyWhen`).
- `_every` truncates toward zero, so before the epoch it may pass a slot over, and lie further than an interval away.
  `Cadence.EveryIsNextExactlyWhen` and `Cadence.EveryIsFirstExactlyWhen` give the exact condition.

## Model

| member | source | states |
|---|---|---|
| KrakenOrders.Match | exchange/orders.py:66-71 | An order is found exactly when some listed row echoes the id, and what is found is the reading of the first such row |
| KrakenOrders.FinishedExactlyWhen | exchange/orders.py:24-30 | Only closed, canceled and expired take an order off the book; an unknown word does not |
| KrakenOrders.FindByTxid | exchange/orders.py:139-148 | An order is found under its txid exactly when the answer has it, and as the answer lists it |
| KrakenOrders.RefusedExactlyWhen | exchange/client.py:335-358 | A refusal only when nothing was sent or every one of some codes says not accepted; sent only with a txid, and then under the first |
| KrakenOrders.DefinitiveExactlyWhen | exchange/orders.py:120-136 | The codes that say not accepted are those beginning with one of the seven prefixes |
| KrakenOrders.OneDoubtIsEnough | exchange/orders.py:120-136 | One code not listed, anywhere among the others, makes the answer unknown |
| Protocol.StepKeeps | core/execution.py:399-579 | Every step of Kraken, the clock, resolution, sending or a crash keeps the ledger faithful to the order book, one unnamed attempt at most, and the phase true |
| Protocol.RunKeeps | core/execution.py:399-579 | The invariant survives every run from any state that has it |
| Protocol.Safety | core/execution.py:399-579 | Every state reachable from the start, with a crash anywhere, has the invariant |
| Protocol.LedgerAgrees | core/settlement.py:29-57 | In every reachable state each order at Kraken has a row, a FILLED row carries exactly what executed, and a FAILED row's order executed nothing |
| Protocol.PlanSeesEverything | core/execution.py:411-418 | Whenever a plan is computed no attempt is open and the ledger's executions are exactly Kraken's |
| Protocol.QuietUntilNextAttempt | core/settlement.py:68-103 | With nothing open, no run changes the ledger or the order book until an attempt is recorded |
| Protocol.NoOrderBesideTheUnknown | core/execution.py:467-485 | When an order is recorded or requested, no other attempt is unnamed and every open row is this evaluation's own |
| Protocol.ResolvedIsFinal | core/settlement.py:29-57 | A row once resolved, and its order at Kraken, never change in any later run |
| Protocol.ResolvedSince | core/settlement.py:29-57 | Between any two moments of one history, a row resolved at the first is the same at the second, and so is its order |
| Protocol.LaterSince | core/settlement.py:29-57 | Between any two moments of one history an attempt keeps its time and its fiat, its row once resolved and its order once finished, and past its grace no order of it appears |
| Protocol.LimitSince | core/db/orders.py:24-55 | Between any two moments of one history, the fiat a buy's row was recorded with is the same |
| Protocol.AbsenceIsEvidence | exchange/orders.py:93-115 | An ABSENT believed after the grace means the order does not exist and never will, although Kraken moves orders from open to closed between the two calls |
| Protocol.ClosedFirstWouldMiss | exchange/orders.py:88-95 | Asking closed orders first would not be evidence: a run from the start leads to an order, past its grace, that executes and is in neither answer |
| Protocol.StepIsSteady | core/db/orders.py:62-107 | No step rewrites a resolved row, forgets an order, changes a finished one, or creates one after its grace |
| LedgerDb.OpenOfIsPending | core/db/orders.py:110-117 | The list of open attempts has each open row once, in the order they were written, and nothing else |
| LedgerDb.Ledger.NewClOrdId | core/execution.py:551-551 | A client id no row carries |
| LedgerDb.Ledger.RecordAttempt | core/db/orders.py:24-55 | The new row is open, unnamed and last, with the fiat a buy asks for; no other row changes |
| LedgerDb.Ledger.MarkSent | core/db/orders.py:62-69 | Only the txid of the one row changes; an unknown id changes nothing |
| LedgerDb.Ledger.MarkFilled | core/db/orders.py:72-91 | The one row becomes FILLED with its txid and execution; an unknown id changes nothing |
| LedgerDb.Ledger.MarkFailed | core/db/orders.py:94-107 | Only the status of the one row changes; an unknown id changes nothing |
| LedgerDb.Ledger.PendingOrders | core/db/orders.py:110-117 | Every open attempt exactly once, oldest first |
| Execution.Settle | core/settlement.py:29-57 | An answer that did not come changes nothing; an absence or a finished order with nothing executed fails the row; a finished one with a fill fills it, with its txid and execution; any other names it and leaves it open. No other row changes |
| Execution.Executor.FindOrderByTxid | exchange/orders.py:139-148 | Never ABSENT, and found exactly when the answer has the txid; an order finished before is read as the order book has it |
| Execution.Executor.FindOrderByClOrdId | exchange/orders.py:79-115 | The order that echoes the id, an open one before a closed one; ABSENT exactly when both endpoints came back empty; else no answer. An order finished before is read as the order book has it, or not at all |
| Execution.Executor.ResolveOne | core/settlement.py:85-102 | One open row is judged by its lookup, an absence within the grace disbelieved; no other row changes. A lookup that came, of an order off the book or of none past the grace, leaves the row FILLED with exactly what the book executed, or FAILED when that is nothing |
| Execution.Executor.ResolvePending | core/settlement.py:68-103 | Every open row is judged once, every other row stays; `clear` exactly when nothing is open afterwards, `lookupFailed` exactly when some lookup had no answer. Each row whose lookup came, its order off the book or none past the grace, is FILLED with exactly the book's execution or FAILED; if that is every open row, resolving ends clear; and whenever it does, the ledger's executions are exactly Kraken's. After a crash the rows judged so far stand |
| Execution.FinishedBookIsDecisive | core/settlement.py:83-103 | With every lookup answered, every order off the book and every attempt past its grace, each open row becomes FILLED with exactly what its order executed, or FAILED |
| Execution.DecisiveIsClear | core/settlement.py:83-103 | When every lookup came, of orders off the book or of none past their grace, no row is open any more |
| Execution.Executor.CommitAttempt | core/execution.py:552-564 | The attempt is in the ledger, open, before anything is sent |
| Execution.Executor.AddOrder | exchange/client.py:297-358 | One order is asked, or none if the process died first; a buy asks for the leg's amount of fiat and a sell for its volume; the outcome is sent, refused or lost |
| Execution.Executor.Place | core/execution.py:566-576 | One request goes out, only its row changes, and the attempt is unnamed afterwards exactly when the answer was lost; a refused one has failed and is nowhere; a named one read back as finished is FILLED with exactly the book's execution or FAILED, and else open under its txid |
| Execution.Executor.ReadFill | core/execution.py:574-576 | An order finished before its fill is read is read as the book has it if an answer comes, and settled so |
| Execution.Executor.Send | core/execution.py:543-579 | One new row and exactly one order of the leg's quantity, and the result reports the row: unnamed after a lost answer, FAILED after a refusal, and after a fill read back as finished FILLED with exactly the book's execution or FAILED. A crash leaves at most the row and at most the one order, and the result says which; no other row changes |
| Execution.Executor.Attempt | core/execution.py:515-533 | A skipped leg, or any leg after a lost answer, asks for nothing and writes nothing; any other asks for exactly the order its result carries, crash included; `stopped` is sticky |
| Execution.Executor.AttemptNext | core/execution.py:467-484 | The leg's result and its order join those before it; a sell adds its credit and asks for no fiat, a buy adds no credit and asks for its amount at most |
| Execution.Executor.SendSells | core/execution.py:466-479 | On every ending the results go through the plan's sells in order and the orders asked are exactly theirs, each with a row of its own and none after an unknown one, a crash included; the budget is the free cash plus the credits of filled rows |
| Execution.Executor.SendBuys | core/execution.py:481-485 | On every ending the results go on through the fitted buys in order and the orders asked are exactly theirs; together they ask for no more fiat than was fitted |
| Execution.Executor.SendAll | core/execution.py:450-485 | Whether it ends, raises or dies: the results go through the plan's sells and then its fitted buys, the orders asked are exactly theirs, their buys ask for no more than the free cash and the credits of the filled sells, and none follows an unknown one; at the end every leg is done |
| Execution.Executor.StoppedMeansUnnamed | core/execution.py:526-533 | A run is stopped exactly when the ledger holds an attempt Kraken never named |
| Execution.Executor.CarryOut | core/execution.py:433-447 | The same of what was asked since it began; it raises only where shrinking does; otherwise the status is STOPPED, PARTIAL, DONE or NOTHING_TO_DO as the results say, and each result reports its row |
| Execution.Executor.Prepare | core/execution.py:411-416 | Planning is reached exactly when every open row was resolved, and then the ledger's executions are exactly Kraken's; a lookup failed exactly when some answer did not come; it ends unresolved only if some lookup had no answer, found an order still on the book, or is within the grace; resolved rows do not change, no row is added and nothing is asked |
| Execution.Executor.Evaluate | core/execution.py:399-447 | One evaluation at a time. UNRESOLVED exactly with a row open, and only if some lookup had no answer, found an order still on the book, or is within the grace; then KRAKEN_UNAVAILABLE exactly with a read missing, then ERROR when a sell cannot be sized, then the caller's verdict; a failed lookup is reported exactly with UNRESOLVED and an answer that did not come. The plan is the engine's for what was read. Without the caller's consent no row is added and nothing is asked. However it ends, what is asked stays within the budget and inside the plan, no buy is below Kraken's minimum at the price read or the user's floor, and no resolved row changes |
| Execution.StatusTells | core/execution.py:438-447 | In the orders asked and the rows they left: STOPPED exactly when one was never named, PARTIAL when none was so and one failed, NOTHING_TO_DO when none was asked, DONE otherwise |
| Execution.OrderIsForALeg | core/execution.py:467-484 | However a run ended, each order it asked is for an unskipped leg of the plan: that sell's volume, or a buy of no more fiat than the leg's and no less than its minimum |
| Execution.RunStaysInsideThePlan | core/execution.py:450-512 | However a run ended, no leg of the plan was asked twice, nothing besides it was, each order is on its pair's grid, no buy, shrunk or not, was below Kraken's minimum at the price read or the user's floor, and no sell asked for more than was held |
| Execution.EvaluationKeepsTheFloor | core/execution.py:450-485 | From the account as read to Kraken's ledger: whatever became of each order asked, the cash ends at the target or where it was, short only by a negative budget, by pairs finer than the ledger, and by a quantum for each sell not known finished |
| Execution.CashAtKrakenKeepsTheFloor | core/execution.py:450-485 | The same of what Kraken's order book holds of those orders, then or at any later moment of the history, entered in its ledger rounded either way |
| Execution.EvaluationIsSafeExactlyWhen | core/execution.py:450-485 | And it does so against every ledger exactly when the budget covers what the orders asked may cost at worst |
| Execution.InvestmentCarriesThePlan | core/execution.py:495-497 | An investment that ran to its end carried out its plan leg by leg, amounts as planned, and unless an answer was lost asked Kraken for exactly its unskipped legs, once each |
| Precision.RoundDownIsGreatest | exchange/precision.py:33-68 | Rounding down is the largest amount at those places not above the number |
| Precision.RoundUpIsLeast | exchange/precision.py:81-90 | Rounding up is the smallest amount at those places not below the number |
| Precision.EntryBounds | exchange/precision.py:81-90 | Whichever way the ledger rounded, its entry is between the two roundings |
| Precision.CreditedIsSafe | exchange/precision.py:81-90 | A filled sell raised at least what it is credited with |
| Precision.CreditedIsClose | exchange/precision.py:81-90 | And it is credited with all it raised but less than two quanta |
| Precision.ChargedAtMost | exchange/precision.py:62-68 | A buy on a grid no finer than the ledger's is charged exactly its amount |
| Precision.LedgerNeverOvercharges | exchange/precision.py:62-68 | The ledger never charges more than a rounded amount exactly when the pair has no more decimals than the ledger |
| Planning.PlanLegs | core/execution.py:329-356 | All legs sized in order, or none when a price cannot size a sell |
| Planning.SizeLegIsSound | core/execution.py:330-355 | The amount is on its pair's grid less than a quantum below its leg's; a leg is skipped exactly when Kraken does not trade the pair or the amount is too small; the amounts below the minimum it carries are exactly those below Kraken's two minimums or the user's floor; a sell's volume is on the grid and no more than is held |
| Planning.SizeAllIsSound | core/execution.py:329-356 | The same for every leg of a plan |
| Planning.ExitSellsAll | core/execution.py:340-347 | An exit sells all the pair can express; any other sell is worth its amount to within a quantum of volume, or all that is held |
| Planning.InvestmentFits | core/execution.py:359-363 | An investment's buys, floored to their pairs, together ask for at most the free cash, under either policy |
| Plans.MakePlan | core/execution.py:300-356 | Unavailable exactly when a read is missing or a target unpriced; otherwise the engine's plan, sized, with the cash above its target |
| Plans.PlannedIsReady | core/execution.py:329-356 | Every leg a plan would send is on its pair's grid and not below its minimum, and a sell has a volume |
| Plans.MinimumIsKrakens | core/execution.py:348-348 | The amounts below a planned leg's minimum are exactly those below its pair's minimums at the price read, or the user's floor |
| Plans.SellsAreHeld | core/execution.py:340-347 | No sell of a plan asks for more than was held, each is on its pair's grid, and an exit asks for all but less than one quantum |
| Plans.InvestmentIsSentWhole | core/execution.py:488-497 | An investment has no sells and its buys fit the free cash unshrunk |
| Money.ShrinkWithin | core/execution.py:488-512 | The loop shrinks each unskipped buy by the one factor, or raises where the source divides by zero |
| Money.WithinRaisesExactlyWhen | core/execution.py:495-498 | Shrinking raises exactly when the budget is negative and no buy asks for anything |
| Money.WithinCanRaise | core/execution.py:498-498 | A partial fill of 0.00005 with a fee of 0.0000004 at four places leaves such a budget |
| Money.FitShrinks | core/execution.py:500-511 | A shrunk buy is its proportion rounded down by less than a quantum, and is skipped exactly below its minimum |
| Money.WithinFits | core/execution.py:488-512 | The fitted buys ask for at most the budget, all by one factor, and buys that already fit are untouched |
| CashFloor.CashAtLeast | core/execution.py:467-485 | Whatever the ledger made of each order asked, the cash is at least what the run counted on less what its orders may cost at worst |
| CashFloor.WorstCash | core/execution.py:467-485 | Some ledger leaves exactly that |
| CashFloor.TheBookIsPlausible | core/execution.py:467-485 | In every reachable state, what the order book holds of an order, entered either way, is plausible for its row, now or later |
| CashFloor.RunKeepsTheFloor | core/execution.py:359-363 | A run whose buys ask for no more than its budget leaves the cash target or what there was, short of it by a negative budget, finer pairs and unfinished sells only |
| CashFloor.AQuantumEach | core/execution.py:359-363 | The finer pairs and the unfinished sells take a quantum each at most, and nothing when there is none |
| CashFloor.FloorHoldsExactlyWhen | core/execution.py:467-485 | For any orders, the floor holds against every ledger exactly when the budget covers each buy's cost, or its amount while that is unknown, rounded up, and a quantum for each sell not known finished |
| CashFloor.SettledFloorHoldsExactlyWhen | core/execution.py:467-485 | For a run within its budget, sells settled and no pair finer than the ledger: exactly when the budget is not negative |
| CashFloor.UnfinishedSellCanMiss | core/execution.py:467-485 | A sell of 0.00005 with a fee of 0.0000004 whose answer was lost takes 0.0001 of cash at four places, with a budget of zero |
| Valuation.ValuePortfolio | engine/valuation.py:23-52 | The first target without a price is named; otherwise values, managed value and weights of the targets alone |
| Valuation.UnpricedNone | engine/valuation.py:30-35 | The target named is the first of those without a price, and none is named exactly when all have one |
| Valuation.WeightsMakeAHundred | engine/valuation.py:39-44 | The weights and the cash weight add up to 100 whenever anything is managed |
| Valuation.TargetsSum | engine/drift.py:17-19 | The target values add up to the targets' share of the managed value |
| Valuation.DeltasSumToExcess | engine/drift.py:12-25 | What the assets lack, added up, is the cash above its target |
| Allocation.ProrataSpendsAll | engine/allocation.py:25-30 | Pro rata spends the amount exactly |
| Allocation.ShortfallsOrdered | engine/allocation.py:42-49 | The assets filled are exactly those short of target, the biggest shortfall first and the code on a tie |
| Allocation.AllocateReduceDrift | engine/allocation.py:33-59 | The loop gives the greedy allocation plus the leftover spread pro rata |
| Allocation.GreedySpends | engine/allocation.py:42-53 | Nobody gets more than they lack, what is given and left is the amount, and something is left only when every shortfall is filled |
| Allocation.BiggestShortfallFirst | engine/allocation.py:42-53 | A smaller shortfall, or an equal one of a higher code, gets something only if every bigger one is filled |
| Allocation.ReduceDriftIsOptimal | engine/allocation.py:33-59 | No other non-negative spending of the same cash leaves a smaller total distance to the targets |
| Allocation.ReduceDriftNeverOvershoots | engine/allocation.py:42-57 | Cash within the shortfalls is spent inside them, all of it, and nothing is left to spread |
| Reconcile.SortLegs | engine/reconcile.py:51-53 | The same legs, sells first and by code within a side |
| Reconcile.BuildLegs | engine/reconcile.py:43-53 | One leg for each amount at or above the minimum and not zero, and no other |
| Reconcile.Reconcile | engine/reconcile.py:18-54 | The plan is the sorted legs of exactly the amounts worth an order, for either policy, no buy before a sell and each side by code. With sells, in values, managed value and target alone: an asset has a leg exactly when its weight is at least the band from its target and the fiat to its target is non-zero and at least the minimum, and the leg is that fiat |
| Reconcile.PlanClosesGaps | engine/drift.py:17-30 | The same of any plan with sells: exactly the assets outside the band and far enough in fiat have a leg, each all the way to its target |
| Reconciled.ReduceDriftStaysWithin | engine/reconcile.py:36-41 | Inside a reconciliation each buy is at most its shortfall, the buys spend exactly the investable cash, and the leftover branch is unreachable |
| Reconciled.ProrataStaysWithin | engine/reconcile.py:36-41 | Pro rata buys are positive and spend exactly the investable cash |
| Reconciled.ProrataInShares | engine/allocation.py:25-30 | Pro rata buys each asset with a target its share of the cash above the cash target, and no other |
| Reconciled.FurthestBehindFirst | engine/allocation.py:42-53 | Reducing drift buys an asset only when every one further from its target, or as far and of a lower code, is bought up to its target |
| Reconciled.InvestmentConserves | engine/reconcile.py:36-54 | Under both policies an investment only buys, and spends exactly the investable cash |
| Reconciled.FillAllMoves | engine/types.py:53-69 | Filling a plan at its prices moves each asset's value by its leg and the cash by all of them |
| Reconciled.ManagedValueStays | engine/valuation.py:37-37 | Filling a plan at its prices leaves the managed value where it was |
| Reconciled.FilledIsOnTarget | engine/reconcile.py:26-49 | After a rebalance is filled every asset is exactly on its target, or was inside the band or too little from it for an order and did not move |
| Reconciled.ReconcileIsAFixedPoint | engine/reconcile.py:26-54 | Reconciling again after filling a plan asks for nothing: with sells for any drift band and minimum, without for both policies at minimum zero |
| Proposals.MaterialExactlyWhen | core/proposal_plan.py:53-70 | A plan is immaterial exactly when it sends the legs of the one read, each amount within the new leg's minimum of it |
| Proposals.PlansArePriced | core/proposal_plan.py:64-68 | Every leg of a plan that would be sent has a minimum |
| Proposals.HasOrdersExactlyWhen | core/proposal_plan.py:48-50 | A plan has orders exactly when some leg carries no note |
| Proposals.ProposalDesk.SaveProposal | core/db/proposals.py:41-62 | The slot is live with exactly this plan, trigger and version |
| Proposals.ProposalDesk.SetStatus | core/db/proposals.py:65-71 | Only the status changes; an empty slot stays empty |
| Proposals.ProposalDesk.KeepDocument | core/rebalance.py:210-235 | A material change takes the next number, an immaterial one leaves the plan read standing, an empty one withdraws a live proposal |
| Proposals.ProposalDesk.WithdrawVersion | core/rebalance.py:59-71 | The live version named becomes withdrawn, its plan kept; another is reported stale, and then or without a live one nothing changes |
| Proposals.ProposalDesk.DecideProposal | core/rebalance.py:85-89 | A proposal changes the slot as the history's step does, and sends nothing: it is live afterwards, or with nothing to send a live one is withdrawn |
| Proposals.ProposalDesk.CheckVersion | core/rebalance.py:110-115 | Stale or missing versions are refused before anything is read |
| Proposals.ProposalDesk.DecideApproval | core/rebalance.py:119-142 | Orders go out exactly when the live version is the one approved and today's plan follows it, and then the slot is executing today's plan under that version; otherwise superseded |
| Proposals.ProposalDesk.FinishApproval | core/rebalance.py:154-159 | The last write, a step of its own |
| Proposals.ProposalDesk.DecideRebalance | core/rebalance.py:174-186 | Sends exactly when automatic rebalancing is on and not paused, and then a live proposal is withdrawn; else nothing changes |
| Proposals.TakeKeeps | core/rebalance.py:59-235 | Every step of every operation keeps the history's invariant |
| Proposals.RunKeeps | core/rebalance.py:59-235 | And so does every interleaving of them |
| Proposals.NoCreepingApproval | core/rebalance.py:119-142 | What was sent under a version has the legs first published as it, each amount within the executed leg's minimum of the one published, however many proposals came between |
| Proposals.SentAtMostOnce | core/rebalance.py:110-142 | Approvals send for strictly increasing versions, each at most once |
| Proposals.VersionsAreForever | core/rebalance.py:230-234 | A version names one plan for all time, and a new one is above all before it |
| Proposals.NewVersionExactlyWhen | core/rebalance.py:210-235 | A step takes the next number exactly when it offers a plan with orders that does not follow a live one, which is then live under it with its trigger; any other leaves the version and what was published as they were |
| Proposals.TakenBackForGood | core/rebalance.py:59-71 | Along a history, a live version withdrawn, replaced by a plan with nothing to send or overtaken by the automatic rebalance is withdrawn, and however it goes on nothing more is sent for it |
| Proposals.ApprovalEndsExecuted | core/rebalance.py:119-159 | An approval of a plan that follows the live one, with nothing in between, sends it once and ends with that version EXECUTED on it |
| Proposals.FinishTellsTheTruthExactlyWhen | core/rebalance.py:154-159 | Along a history, a slot that says EXECUTED always names a sent version exactly when no last write came upon a live or withdrawn proposal |
| Proposals.ExecutedMayNameAnUnsentVersion | core/rebalance.py:154-159 | Propose, approve, propose and then the last write: EXECUTED names version 2, which nobody sent |
| Approvals.ApprovalAsksItsDocument | core/rebalance.py:119-142 | An approval records today's plan under its version, following the plan first published as it, and however the run ends Kraken is asked for that document's legs only, each once: the planned sells, and buys no larger than the document's |
| Approvals.DecisionIsTheSlots | core/rebalance.py:119-142 | The decision given to the evaluation sends exactly when the slot's step does |
| Cadence.AddMonthsLands | core/cadence.py:93-97 | The clamped date is in the month that many months on, on the same day or its last |
| Cadence.InstantIsCivil | core/cadence.py:93-97 | The instant of every date and time is the civil calendar's: 365 days a year, a leap day every 4th but not every 100th but every 400th, the months' 153 days in 5, less the days to 1970 |
| Cadence.EveryBracket | core/cadence.py:54-59 | The slot is congruent to the offset and within one interval of the clock's truncated second |
| Cadence.EveryIsNextExactlyWhen | core/cadence.py:54-59 | It is after now; and at most an interval away exactly when the clock is at or after the epoch, on a whole second, or on a second that is no slot |
| Cadence.EveryIsFirst | core/cadence.py:54-59 | At any clock, no slot lies between the clock's truncated second and it |
| Cadence.EveryIsFirstExactlyWhen | core/cadence.py:54-59 | No slot lies between now and it exactly under that same condition |
| Cadence.OccurrencesIncrease | core/cadence.py:87-97 | Later steps are strictly later for every months and days not both zero, clamped month ends included |
| Cadence.MonthlyOnTheAnchorsDay | core/cadence.py:87-97 | The k-th step is exactly k times the days past a moment k times the months after the anchor, on the anchor's day or its month's last, at its time |
| Cadence.DailyFromTheAnchor | core/cadence.py:87-90 | Without months the k-th step is exactly k times the days from the anchor |
| Cadence.FirstAfterIsLeast | core/cadence.py:62-84 | The first step after now is a slot, and the least one after now |
| Cadence.Anchored | core/cadence.py:62-84 | From any first guess both walks end, at a slot after now and the least such; exactly a cadence without anchor, without length or with a negative one is the ValueError |
| Scheduler.NextSlotIsFirst | core/cadence.py:41-51 | In either mode, at any clock, the next slot is a slot strictly after now; it is the least one always for anchored cadences, and for MIN exactly under that condition |
| Scheduler.ChangedStartsAfresh | core/schedule.py:67-76 | A request that names the pause, the switch or the cadence of an operation moves its next run to the first slot after now of the cadence as it then is, or to none; any other leaves it alone; what is named is as the request says |
| Scheduler.FilledStartsAfresh | core/schedule.py:79-89 | The backfill gives what lacks a next run its first slot after now, and leaves the rest alone |
| Scheduler.DueExactlyWhen | core/db/settings.py:95-113 | A user is due exactly when not paused and with a next run that has come, and is sorted by the one that came first |
| Scheduler.DueUsers | core/db/settings.py:88-119 | Unpaused due users, as many as the limit allows, none left out who is more overdue |
| Scheduler.OperatedMoves | core/scheduler.py:154-181 | An operation due keeps its next run exactly when it was busy, and then nothing changes; else it goes past the tick, or to none when switched off; the streak counts exactly what ran, and nothing else changes |
| Scheduler.Ticker.Backfill | core/schedule.py:79-89 | Every row gets the next runs it lacks, no other row changes, and the count is of the rows that lacked one |
| Scheduler.Ticker.Advance | core/scheduler.py:192-201 | Only the one next run changes, to the first slot past the tick; a deleted user changes nothing |
| Scheduler.Ticker.CountOutcome | core/scheduler.py:203-218 | The streak of one outcome, the outcome noted, and the user's warnings and recoveries still those their outcomes call for |
| Scheduler.Ticker.Operate | core/scheduler.py:154-181 | Busy moves nothing, switched off and not ready move the next run only, anything that ran also counts its outcome, with the lines it calls for |
| Scheduler.InvestmentCountsFirst | core/scheduler.py:143-152 | With both due and run, the failure streak counts the investment before the rebalance |
| Scheduler.Ticker.Guarded | core/scheduler.py:143-152 | The investment first, then the rebalance, each if it was due |
| Scheduler.Ticker.Each | core/scheduler.py:134-141 | Each user named is served once, in turn, and nobody else's row or outcomes change |
| Scheduler.Ticker.Tick | core/scheduler.py:119-141 | The batch is the query's answer, each of its users is served once and their outcomes counted in turn, and nobody else's settings or outcomes change |
| Scheduler.Ticker.AlertsFollowTheOutcomes | core/scheduler.py:203-218 | Over any ticks a user's warnings are their maximal failing stretches that reached the threshold, and warnings minus recoveries is 1 while one lasts and 0 otherwise |
| Waiting.ServedIsLater | core/scheduler.py:154-201 | A user served without meeting a request of theirs is next due after the tick |
| Waiting.ChangedIsNotAdvanced | core/schedule.py:67-76 | A settings change moves nobody ahead of a user already due, and lifting a pause catches nothing up |
| Waiting.FilledIsNotAdvanced | core/schedule.py:79-89 | Neither does the backfill |
| Waiting.OneRoundFewer | core/scheduler.py:119-141 | A tick that passes a due user over takes a whole batch off the users ahead |
| Waiting.ServedWithin | core/db/settings.py:88-119 | A due user with r others at least as overdue is served within r / batch + 1 ticks |
| Waiting.VisitMoves | core/scheduler.py:154-201 | A visit leaves a next run alone, or moves it past the visit to a slot; one that ran always moves it |
| Waiting.OneEvaluationPerSlot | core/scheduler.py:154-201 | However ticks fall, each evaluation takes a slot of its own, later than the evaluation before it, so a slot lies between any two |
| Alerts.StreakIsTheTail | core/scheduler.py:203-218 | The streak is the failures at the end, all of them |
| Alerts.OneWarningPerStretch | core/scheduler.py:203-218 | Warnings are as many as the maximal failing stretches that reached the threshold |
| Alerts.WarningsThenRecoveries | core/scheduler.py:203-218 | Warnings minus recoveries is 1 while the streak is at the threshold or past it, and 0 otherwise |
| Refresh.OneLiveToken | core/refresh.py:48-64 | Two tokens of a family share user, expiry and revocation, and at most one is neither used nor revoked |
| Refresh.SweepTakesFamilies | core/db/refresh_tokens.py:65-69 | The sweep takes a family whole or leaves it whole |
| Refresh.SweepTakesTheExpired | core/db/refresh_tokens.py:65-69 | The sweep takes exactly what had expired, and no answer of that time or later depends on it having run |
| Refresh.FreshTokenIsAccepted | core/refresh.py:44-64 | A token just issued is accepted until its sign-in ends, whichever sign-in or refresh issued it |
| Refresh.AcceptsExactlyWhen | core/refresh.py:48-61 | A token is accepted exactly while it is known, neither used nor revoked, and not at its end; else it is refused for the first of these it fails |
| Refresh.FamiliesAreApart | core/refresh.py:48-73 | Nothing done with one sign-in touches a token of another |
| Refresh.StepKeeps | core/refresh.py:44-92 | Sign-in, refresh, logout and sweep keep the invariant behind those two |
| Refresh.RunKeeps | core/refresh.py:44-92 | And so does every run |
| Refresh.SignInNeverLengthens | core/refresh.py:62-64 | Whatever is refreshed later, a token is accepted only before its sign-in's end, and the next carries the same user and end |
| Refresh.EndedForGood | core/refresh.py:48-73 | Once a family is ended no run makes any of its tokens accepted, or issues one |
| Refresh.LogoutEnds | core/refresh.py:67-73 | A logout ends the family |
| Refresh.SecondUseEndsTheSignIn | core/refresh.py:52-58 | A token accepted once and presented again, however late, swept or not, is refused and its family is over |
| Refresh.TokenTable.RevokeFamily | core/db/refresh_tokens.py:54-62 | Every live token of the family is revoked, an earlier revocation keeps its time, and the count is of those live |
| Refresh.TokenTable.StartFamily | core/refresh.py:44-45 | One new token in a new family, ending after the time to live |
| Refresh.TokenTable.Rotate | core/refresh.py:48-64 | Unknown, revoked, reused and expired are refused in that order, reuse revoking the family; else the token is used and its heir issued |
| Refresh.TokenTable.Revoke | core/refresh.py:67-73 | The known token's family is revoked; an unknown one changes nothing |
| Refresh.TokenTable.DeleteExpired | core/db/refresh_tokens.py:65-69 | Exactly the tokens expired before the given time go, and are counted; the others stay as they are |
| Weights.WeightTable.PutAsset | api/routes/assets.py:77-84 | Saved exactly when the weights would still sum to 100 at most; refused otherwise with nothing changed |
| Weights.WeightTable.DeleteAsset | api/routes/assets.py:87-94 | Only that weight goes; a missing one is reported and changes nothing |
| Weights.SaveOrder | web/src/lib/portfolio.ts:38-56 | Deletes are the weights no longer wanted, puts the weights that change, each once, the largest decrease first |
| Weights.NeverAboveBothEnds | web/src/lib/portfolio.ts:50-51 | Sorted by change, the running sum never exceeds both where it starts and where it ends |
| Weights.NoWriteIsRefused | web/src/lib/portfolio.ts:36-56 | At every step of a save the weights sum to 100 at most, and the last step leaves what was wanted |
| Weights.Save | web/src/features/onboarding/PortfolioForm.tsx:207-243 | With nothing managed or targets above 100 nothing is sent; otherwise every write is accepted and the stored weights become the wanted ones |
| Weights.ShareFits | web/src/lib/portfolio.ts:23-28 | A holding's weight is its share of the total, rounded down by less than a tenth |
| Weights.PricedExactly | web/src/lib/portfolio.ts:17-20 | The holdings counted are exactly those with a value and not locked |
| Weights.PrefillWeights | web/src/lib/portfolio.ts:13-30 | Exactly the priced, unlocked holdings get a weight, their share, and together the weights leave the cash its own share, so they never sum above 100 |

## Left out

- HTTP, signing, JSON decoding and redaction of the Kraken client: only how an answer is read is modelled.
- SQLAlchemy, migrations and the SQL of the locks: tables are maps or fields, a transaction is one step.
- Snapshots and their pin, the recorded evaluation, log lines and the wording of notes: a note is present or absent.
- Preview of an investment: it reads and plans as modelled, and sends nothing.
- Rows hold what resolving and the money need: status, txid, time, evaluation, a buy's fiat and the execution. Pair, asset and reason are carried by the leg.
- Volume and price of a fill are recorded as reported; only cost and fee are reasoned about.
- Threads: a tick serves its users one after another; each user's settings are their own.
- `tick`'s own lock, retention of evaluations, the shared prices of a tick, and one user's failed transaction.
- `offset_seconds`: a user's CRC32 is any number.
- Years beyond 9999, where the source's calendar ends.
- The float first guess of `_anchored`: any number.
- Waiting.ServedWithin: the user's own row is untouched while waiting and nobody served is busy, because a user who changes their settings is rescheduled and a busy one is not moved.
- Weights.Save: nobody else writes this user's weights meanwhile, and the names sent are the stored ones, because the server stores an alias under Kraken's name for it.
- Weights.PrefillWeights: cash and values are not negative, as an account's are.
- Planning.InvestmentFits: holdings are not negative and the targets sum above zero, because with no target there is nothing to spread over.
- Allocation.ReduceDriftIsOptimal: the targets sum above zero, because otherwise the leftover is not spent.
- The form's check of two decimals, the trading pair of a weight, and the errors that come before the sum check.
- Google sign-in, access tokens, key encryption and rotation, key permissions, environment configuration.
- `KeyLimiter`, the daily catalog, React components, API schemas and the other routes: small members only.
