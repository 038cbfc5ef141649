# A verified model of the market simulator and its evaluation store

The repository runs a deterministic market simulation, scores trading strategies in it, and keeps
challenges, jobs and strategy answers in a durable store. This project models the parts of it that
keep state over many steps and proves what every run keeps. `dafny verify dfyconfig.toml` checks all
of it.

The models, hardest first:

- **The execution loop** (`ExecutionMachine`, `SimulationLoop`, `ChildSizing`, `Venue`, `Latency`): a
  clock, a heap of delayed messages, immediate submissions, gateway cancels, halts, volume budgets and
  one parent order. `ExecutionMachine` is the loop as a state machine whose events may come in any
  enabled order; `SimulationLoop.Loop` is the imperative code, each method proved to do one event.
  `ParentCapacity`, `MessageDelivery`, `StepChecks`, `TaskAborts` and `CancelEffects` prove what holds
  in every reachable state, `LoopEffects` what single events do, seen from outside.
- **The ledger rebuilt from the logs** (`StrategyLedger`, `StrategySteps`, `StepColumns`, `Shortfall`):
  the second, separate fold over the logs, exactly when it succeeds, and what every column of its rows
  comes to, read straight off the logs. `OrderLives`, `DeskMoves`, `EventAccounts`, `OrderTotals`,
  `Finalization`, `LedgerAgreement`, `LateCancels` and `FinishedColumns` prove when and how it agrees
  with the loop, for all runs.
- **The POV harness and the counterexample minimizer** (`PovHarness`, `PovThroughput`, `FragilePov`,
  `FragileOverstep`, `PovEvaluation`, `Minimizer`, `PovSearch`, `TutorialDefect`): throughput bounds and
  when they are attained, exactly when the defective strategy oversteps, and what the search finds.
- **The durable store** (`ChallengeStore`, `ChallengeHistory`, `ChallengeEffects`, `JobLease`,
  `ResponseJournal`, `StreamingSession`): transactions as atomic steps, sessions as interleaved steps.
- **Benchmark agents and campaign planning** (`BenchmarkAgents`, `EvaluationPlan`).
- **Fast forms against simple ones** (`Ranks`, `Correlation`, `Signals`, `Portfolio`, `Leaderboard`).

How things are represented. The exchange is a contract (`Venue.Conforms`): a submission is refused, or
accepted with positive fills against opposite orders of the same symbol that still rest when they
happen, at most the order's remaining quantity and at most the volume cap, and the leftover rests or
disappears; resting orders are keyed by their id, and a cancel takes its owner's resting order out
(`CancelEffects.CancelTakesOrderOut`). Its answer is an argument of each step, so every theorem holds
for every exchange with that contract, including halts. Other accounts may submit and cancel at any
point of a step. Times, clocks and strategy answers are arguments too. Python floats are exact reals
and integers unbounded; SHA-256 digests are the values they digest. The message heap is a sequence kept
in delivery order. `enqueued`, `delivered`, `dispatched`, `reached`, `budgets` and `refreshedAt` record
history and are read by no operation.

## What turned out to be false or conditional

- The rebuilt ledger does **not** agree with every run. When the gateway's automatic cancel overtakes
  its order (the `high` latency profile with `cancel_after_ms` below 20), the loop frees the cancelled
  quantity at once while the ledger keeps it active until the cancel takes effect, and two such orders
  make the reconstruction raise. `LateCancels.RebuildsUnlessOvertaken` gives the exact condition.
- The end-of-step assertion on the parent order can only fail through the account inventory, and does
  exactly when the agent traded on the wrong side, in another symbol or with itself
  (`StepChecks.StepClosesExactly`). In terms of what the agent may send: no run can fail it if and only
  if every allowed child is on the parent's side and in its symbol, or no child can trade at all
  (`TaskAborts.ClosesExactlyWhenOnTask`; `TaskAborts.OffTaskRun` is the failing run).
- A challenge can reach `released` through bare transitions without an evaluation
  (`ChallengeHistory.BareTransitionsSkipEvaluation`); `EvaluatedExactlyWhenGuarded` says when it cannot.
- `finish_sealed_campaign_job` looks at the status only, so a worker that finishes as its lease runs out
  can end its successor's lease (`JobLease.LateFinishEndsNewLease`). Finishes end their own claim's lease
  in all histories if and only if no worker finishes at or after its expiry
  (`JobLease.FinishesAreOwnExactly`).
- A streaming strategy that writes an extra line is answered one observation late for as long as it goes
  on writing one line per observation (`StreamingSession.ExtraLineFallsBehind`); `AnswersOwnRound` says
  exactly when a round gets its own answer, and `SilentRound` when a silent round gets a leftover line.
- The fragile POV oversteps a share exactly when the scenario's own figures say so
  (`FragileOverstep.OverstepsInScenarioExactly`); with the tutorial's defaults the search always finds it,
  and always the same failure (`TutorialDefect.SearchTutorial`).
- The breakout rule's exit window, when longer than the entry window by two or more, wraps around the end
  of the series; `Signals.BreakoutSeesNoFuture` is the exact condition for no lookahead.
- Rank movements sum to zero exactly when no two rows share a policy id (`Leaderboard.MovementsCancel`).
- The one-pass drawdown is the largest drop over all pairs of dates, for all series with returns of at
  least some floor, if and only if that floor is no less than -100% (`Portfolio.PeakFindsLargestExactly`);
  under the program's exposure limits every reported drawdown is (`Portfolio.LimitedDrawdown`).

## Model

| member | source | states |
|---|---|---|
| Latency.DelayIsConstant | app/simulation.py:79-94 | an agent's messages take the same whole number of steps whenever they leave, and stamps grow with the step |
| Latency.OvertakingProfiles | app/simulation.py:70-76 | among the three latency profiles, a gateway cancel overtakes its order exactly on `high` with an interval below one step |
| Venue.TradesComeFromMakers | app/simulation.py:341-365 | contract-level conservation: an account's resting quantity falls by exactly its maker trades; for the taker every trade counts |
| Venue.TradesStayInSymbol | app/simulation.py:348-355 | all trades of a submission are in its symbol and add up to its matched quantity |
| ExecutionMachine.RunSnoc | app/simulation.py:463-836 | a run of the loop can be extended by any enabled event |
| ParentCapacity.ParentNeverOvercommitted | app/simulation.py:341-437 | in every reachable state filled plus queued plus resting quantity is within the parent, and the executed counter is the logged fills |
| ParentCapacity.TradedWithinBudget | app/simulation.py:348-378 | with volume limiting, no symbol trades more between two refreshes than its budget, and none without a budget |
| ParentCapacity.ChildFits | app/simulation.py:708-766 | a sized child never takes commitments above the target, whatever size was wished for |
| ParentCapacity.SubmissionConserves | app/simulation.py:341-365 | a submission only moves an agent's quantity between filled and resting, adding at most its own order |
| ParentCapacity.StepKeepsParent | app/simulation.py:536-836 | every event of the loop keeps the parent capacity and the executed counter |
| MessageDelivery.DeliveredExactlyOnce | app/simulation.py:426-437 | every queued message is delivered once and only once, while the clock shows exactly its step, in (step, time, sequence) order |
| MessageDelivery.ArrivalsKeepSubmissionOrder | app/simulation.py:404-437 | an agent's orders reach the venue in the order it sent them, although some skip the heap; the rest is exactly what is queued |
| MessageDelivery.PendingCancelsAreQueuedOnce | app/simulation.py:439-465 | an id is tracked as pending exactly when one cancel of it is queued, and never more than one is |
| MessageDelivery.NothingDueStays | app/simulation.py:536-554 | after the drain loop nothing in the same step makes a message due again |
| MessageDelivery.InsertKeepsOrder | app/simulation.py:426-437 | pushing with a new sequence number keeps the heap sorted |
| MessageDelivery.QueuedOrDelivered | app/simulation.py:536-554 | a message is at any time in exactly one of queue and history |
| StepChecks.StepClosesExactly | app/simulation.py:806-830 | with nothing due, the end-of-step assertion passes exactly when all the agent's trades are on its side, in its symbol and not with itself |
| StepChecks.OneSidedAgentNeverAborts | app/simulation.py:806-830 | an agent whose children are for its own side and symbol, or never trade, never fails the assertion and never trades with itself |
| TaskAborts.ClosesExactlyWhenOnTask | app/simulation.py:244-265 | whatever an adapter may send: no run fails the assertion if and only if every allowed side and symbol is the parent's, or no child can trade |
| TaskAborts.OffTaskRun | app/simulation.py:806-830 | for any other side or symbol there is a run, at any latency, in which the child trades and the step cannot close |
| CancelEffects.CancelTakesOrderOut | app/simulation.py:439-465 | in every reachable state, an event that carries out a cancel leaves nothing resting under the id, logs exactly what it takes from the owner at the step it takes effect, and takes nothing from anyone else; without such an order book and cancel log stay as they were |
| CancelEffects.CancelledNeverTrades | app/exchange/order_book.py:158-171 | an order whose cancel was carried out never rests, travels or trades again, whatever happens later |
| LoopEffects.ChildIsMost | app/simulation.py:708-771 | a child is the most whole lots within both the sized quantity and what of the parent is not yet filled, queued or resting |
| LoopEffects.NormalizedIsMost | app/simulation.py:394-402 | another agent's order is sent with the most whole lots it asks for |
| LoopEffects.DispatchIsTimely | app/simulation.py:404-437 | an order is cancelled on its way exactly when its automatic cancel is quicker, for its whole quantity; else it reaches the venue in its step or is due after exactly its entry delay |
| LoopEffects.CancelIsTimely | app/simulation.py:439-465 | a cancel with a delay of at least a step is queued for exactly that delay and tracked, book and log untouched |
| LoopEffects.TradesPrintFills | app/simulation.py:348-355 | the trades of a submission are its fills in order, at their prices, between the resting order's owner and the taker |
| StepChecks.InventoryTiesExactly | app/simulation.py:815-819 | account inventory equals signed fills exactly when every trade is on task |
| SimulationLoop.Loop.constructor | app/simulation.py:311-315 | the loop starts with an empty heap and counters over books that hold other accounts' quotes |
| SimulationLoop.Loop.SubmitToExchange | app/simulation.py:348-365 | one submission: book, logs, executed counter and volume budget all change as the venue's answer says, a refusal changes only its row |
| SimulationLoop.Loop.BookTrades | app/simulation.py:341-355 | fills go to the executed counter and come off the symbol's remaining volume, never below zero |
| SimulationLoop.Loop.ActiveStrategyQuantity | app/simulation.py:380-392 | the two sums count exactly the agent's queued and resting quantity |
| SimulationLoop.Loop.RefreshStepVolume | app/simulation.py:367-378 | every asset's budget is at least a lot and at most the larger of lot and cap, whole lots or the cap, and less than a lot below the scaled base volume unless the cap is below that |
| SimulationLoop.Loop.Send | app/simulation.py:404-437 | an order is cancelled at the gateway, submitted at once or queued, exactly by its latency |
| SimulationLoop.Loop.ScheduleOrder | app/simulation.py:394-437 | another agent's order is cut to whole lots, and dropped when none is left |
| SimulationLoop.Loop.ScheduleChildOf | app/simulation.py:708-771 | a child is cut to what the parent can still take and to whole lots before it is sent |
| SimulationLoop.Loop.SubmitDirect | app/simulation.py:556-602 | an order-flow account's order goes straight to the venue |
| SimulationLoop.Loop.RequestCancelOf | app/simulation.py:439-465 | a cancel with less than a step's delay takes its owner's resting order out of the book at once (what that means is CancelEffects.CancelTakesOrderOut); any other is queued and tracked |
| SimulationLoop.Loop.DeliverHead | app/simulation.py:536-554 | one message is taken off the heap and applied: an order is submitted, a cancel takes its owner's resting order out of the book and is no longer tracked |
| SimulationLoop.Loop.DeliverDue | app/simulation.py:536-554 | the drain loop is a run of deliveries after which nothing is due |
| SimulationLoop.Loop.CloseStep | app/simulation.py:806-830 | the assertion is recomputed from the logs and the step closes exactly when it holds |
| SimulationLoop.CountFills | app/simulation.py:806-810 | the loop over the trade log counts the account's fills |
| SimulationLoop.CountInventory | app/simulation.py:811-814 | the loop over the trade log gives the account's inventory |
| ChildSizing.SizeChild | app/simulation.py:713-764 | before the parent's cut a child is at least a lot and within the participation room when that is enforced; unless it is that room itself, it is the scaled wish in whole lots or, inside the completion buffer, at least the even slice of what is left, and otherwise within half of the wish |
| ChildSizing.UrgencyIsModerate | app/simulation.py:714-726 | every urgency curve scales between one half and three halves |
| ChildSizing.LastStepSendsEverything | app/simulation.py:733-745 | an uncapped agent in its completion buffer sends every whole lot left at the last step |
| ChildSizing.RoomIsShare | app/simulation.py:746-759 | the participation room is a lot, or keeps what is at work plus the room within the allowed share of observed volume; either way it misses that share by less than a lot |
| ChildSizing.SliceIsEven | app/simulation.py:733-745 | the completion slice is the even share of what is left, rounded up and cut to whole lots |
| ChildSizing.UrgencyTurns | app/simulation.py:714-726 | front-loaded agents ask for less with every step, from three halves to one half, and back-loaded ones for as much more |
| StrategyLedger.BeforeNext | app/simulation.py:176-192 | one step's entries advance an order's running quantity |
| StrategyLedger.StoreEffect | app/simulation.py:168-192 | writing one order in the table of active children changes total and entry alike |
| StrategyLedger.PositiveCountsKeys | app/simulation.py:226-226 | the count of active children counts distinct orders |
| StrategySteps.BuildStrategySteps | app/simulation.py:110-241 | the reconstruction returns normally exactly when at every step no order has ended more than it submitted, the parent covers what is outstanding and recorded inventory is signed fills; each additive column of its rows, over every prefix of the run, then comes to what the logs say about those steps, the running columns follow from them, and the shortfall column is that of the trades so far |
| StrategySteps.TestsPass | app/simulation.py:197-212 | child and parent identities always hold; only inventory and capacity decide |
| StrategySteps.AdvanceTable | app/simulation.py:174-192 | the fold survives a step exactly when no order has terminated more than it submitted |
| StrategySteps.Terminate | app/simulation.py:181-192 | termination entries come off the table, and a failure means some order's entries exceed what it has |
| StrategySteps.GroupOrders | app/simulation.py:124-141 | rows are grouped by submission and arrival step, rejected and expired quantities included |
| StrategySteps.GroupTrades | app/simulation.py:147-160 | trades are grouped by step with market volume, shortfall terms and the strategy's total |
| StepColumns.InOrderHoldsTogether | app/simulation.py:176-212 | the fold's own conditions at a step are the ones read off the logs, order by order |
| StepColumns.ContributionsUntil | app/simulation.py:148-160 | the contributions of the steps before any bound come to the shortfall of the trades before it |
| FinishedColumns.FinishedColumnsTie | app/simulation.py:1035-1045 | for finished runs without overtaking cancels the columns add up to the loop's figures: submitted is what the agent sent, rejected what was halted, expired what was accepted and neither filled nor left resting, filled the executed quantity, cancelled nothing |
| Shortfall.ContributionsAddUp | app/simulation.py:148-160 | for all trade logs the per-step shortfall contributions add up to the summary's implementation shortfall |
| Shortfall.ExecutedIsFilled | app/simulation.py:877-882 | the summary's executed quantity is the sum of the ledger's fills |
| OrderLives.SubmissionMovesQuantity | app/simulation.py:348-365 | unless the agent trades with itself: for every order of the agent, what a submission fills comes out of what rests or of the order itself |
| DeskMoves.AnswerKeepsOrder | app/exchange/market.py:52-85 | unless the agent trades with itself, an answered submission keeps every order's account and no closed step changes |
| EventAccounts.EventKeepsAccounts | app/simulation.py:536-836 | without self-trades and overtaking gateway cancels, every event keeps all order accounts and leaves the accounts of closed steps as they were |
| OrderTotals.ActiveNow | app/simulation.py:380-392 | the sum over orders of what each has active is what the heap and the book hold for the agent |
| OrderTotals.ActiveKept | app/simulation.py:193-193 | the active quantity of a closed step never changes afterwards |
| Finalization.LedgerActive | app/exchange/market.py:170-240 | for logs without self-trades or cancels of the agent, which is what finished runs leave, the ledger's active quantity before any step is the sum of the orders' own |
| Finalization.LedgerNeverOverTerminates | app/exchange/market.py:170-240 | in the same logs no order terminates more than it submitted before any step |
| LedgerAgreement.LedgerMatchesRun | app/simulation.py:876-899 | unless cancels overtake orders, after any finished run the reconstruction succeeds and its active and filled quantities at every step are those the loop had |
| LateCancels.LateCancelBreaksLedger | app/simulation.py:411-423 | with an overtaking cancel a two-step run makes the reconstruction raise |
| LateCancels.RebuildsUnlessOvertaken | app/simulation.py:411-423 | all finished runs can be rebuilt if and only if the profile is not `high` with a cancel interval below one step |
| PovHarness.NothingIsLost | app/product.py:125-157 | filled plus remaining is the order quantity, and everything submitted was filled, dropped or is pending, for both strategies |
| PovHarness.ParticipationWithinCap | app/product.py:142-150 | the corrected strategy's participation stays within its cap exactly when the cap is not negative |
| PovHarness.PendingWithinCap | app/product.py:153-157 | pending quantity never exceeds the cap's share of the largest volume seen |
| PovHarness.FillsPerWindow | app/product.py:138-148 | what fills within one latency was already pending at its start |
| PovHarness.Throughput | app/product.py:132-157 | total filled is at most the capped share of the largest volume times (steps - 1) div latency |
| PovThroughput.FillIsMost | app/product.py:138-148 | a step fills the most that is due, is left, and the market takes after forced selling - four fifths of it for the fragile strategy, its share of all volume for the corrected one |
| PovThroughput.SubmissionIsMost | app/product.py:154-157 | a step submits the most its share of the volume it sees has room for; only the corrected strategy makes room for what is on its way |
| PovThroughput.ThroughputIsAttained | app/product.py:132-157 | in a steady market the corrected strategy's throughput bound is met with equality: filled is one capped share per whole latency, or the whole order |
| PovThroughput.SteadyCost | app/product.py:151-153 | in a steady market the cost is twice the spread on the filled share of volume plus a flat charge per step of heightened volatility |
| PovThroughput.LatencyIsNearest | app/product.py:132-132 | the latency in steps is the nearest number of tens of milliseconds, the even one of two, and at least one |
| PovHarness.ForcedFlowAddsUp | app/product.py:139-139 | the forced seller sells evenly over eight steps and is done after seventeen |
| FragilePov.FragileOvershoot | app/product.py:138-155 | the fragile strategy oversteps only as far as the market shrank since the volume it sized from |
| FragilePov.FragileInScenario | app/product.py:133-155 | in any scenario it oversteps its cap by at most a third, and not at all without forced selling |
| FragilePov.StaysPipelined | app/product.py:138-157 | at most one pending slice comes due per step, in order |
| FragileOverstep.RemainingIsUnused | app/product.py:133-157 | what the fragile strategy has left is its order less a sum over steps that mentions neither books nor pipeline |
| FragileOverstep.OverstepsExactly | app/product.py:138-150 | in any market it takes more than a given share exactly when some step's flow and what is left of the order both exceed it |
| FragileOverstep.OverstepsInScenarioExactly | app/product.py:122-157 | in any scenario, for any share no smaller than the cap: if and only if there is forced selling and the scenario's slice, room and remaining order all exceed the thinned share |
| PovEvaluation.Evaluate | app/product.py:122-185 | the loop computes the report, rounded to two decimals, and completion and remaining still add up to a hundred; what it fills is PovThroughput.FillIsMost and ThroughputIsAttained |
| PovEvaluation.RoundsWithin | app/product.py:175-184 | a reported metric is within a whole threshold exactly when the exact one is within half a hundredth of it |
| Minimizer.RoundingKeepsOrder | app/product.py:101-115 | rounding the severity score never changes which of two grid scenarios is milder |
| Minimizer.SeverityInUnits | app/product.py:101-115 | the score is a whole number of units of 1/450000 |
| Minimizer.MinimizeAxis | app/product.py:290-318 | one axis ends at the mildest reproducing level no worse than its start; the trace is truthful and replays |
| Minimizer.Minimize | app/product.py:281-318 | most liquid failing level, then least failing latency given it, then no forced selling if it still fails; replaying the accepted trace gives the result |
| Minimizer.MinimizedIsUnique | app/product.py:281-318 | that description determines the result |
| Minimizer.Search | app/product.py:250-359 | nothing is found exactly when no candidate reproduces; a found failure is the preferred one, reproduces, is minimized and has a neighbour that passes everything |
| Minimizer.Qualifying | app/product.py:250-271 | the grid loops collect exactly the reproducing candidates of all 36 |
| Minimizer.SeverityAddsUp | app/product.py:101-115 | severity adds up over the axes from zero in a calm market, each by its own unit |
| Minimizer.ThousandthsAreNearest | app/product.py:101-115 | the reported score is the nearest number of thousandths |
| Minimizer.NeighboursAreMilder | app/product.py:319-327 | the neighbours tried differ on one axis each and are milder unless already calm there |
| PovSearch.RunSearch | app/product.py:241-359 | the search finds nothing against the corrected strategy; against the fragile one it finds nothing exactly when no candidate lets it overstep on enough seeds, and only failures that need forced selling, where the properties allow the cap |
| PovSearch.FragileFailsExactly | app/product.py:218-227 | on one seed the fragile strategy fails a participation threshold if and only if the scenario lets it overstep that, rounding included |
| TutorialDefect.SearchTutorial | app/product.py:17-88 | with the shipped strategy and properties the search finds the defect in both modes, and always the same original, minimized scenario and passing neighbour |
| TutorialDefect.CorrectedPasses | app/product.py:122-185 | the corrected strategy with its defaults passes all the default properties in the calm scenario, on every seed |
| PovSearch.CorrectedNeverFails | app/product.py:218-227 | the corrected strategy fails no participation property that allows its cap, on any scenario and seed |
| PovSearch.FragileWithinThird | app/product.py:218-227 | a property with a third of slack is never failed by the fragile strategy |
| ChallengeStore.ArenaStore.EnsureDefaultChallenge | app/execution_store.py:307-329 | the default challenge and its first phase row are created once |
| ChallengeStore.ArenaStore.DoTransition | app/execution_store.py:485-515 | a transition commits phase and log together or raises and changes nothing |
| ChallengeStore.ArenaStore.DoSavePractice | app/execution_store.py:525-567 | a practice run is saved within phase, quota and key, or nothing is, the user row included |
| ChallengeStore.ArenaStore.DoSaveSubmission | app/execution_store.py:577-623 | a submission is saved within phase, quota and the unique final index, or nothing is |
| ChallengeStore.ArenaStore.DoSaveEvaluation | app/execution_store.py:649-734 | afterwards the challenge's evaluation has the given digest, an existing one is untouched, another digest is exactly what is refused, and other challenges keep theirs |
| ChallengeStore.ArenaStore.DoSaveEvaluationAndTransition | app/execution_store.py:736-780 | evidence and phase change together or not at all |
| ChallengeStore.ArenaStore.DoReleaseEvaluation | app/execution_store.py:797-819 | the release time afterwards is the earlier one, or now if there was none, and nothing else changes |
| ChallengeStore.ArenaStore.DoReleaseChallenge | app/execution_store.py:821-866 | release time and phase are written together, only after evaluation |
| ChallengeHistory.PhaseLogIsChain | app/execution_store.py:30-36 | after any history the phase log of each challenge is one unbroken chain along the only order, ending in its phase |
| ChallengeHistory.QuotasHold | app/execution_store.py:536-546 | under any interleaving nobody exceeds the practice limit or has two final submissions |
| ChallengeHistory.AtMostOneEvaluation | app/execution_store.py:659-665 | there is at most one evaluation of a challenge |
| ChallengeHistory.HistoryPreserves | app/execution_store.py:475-515 | phases only move forward, closed challenges keep runs and submissions, matrices never change, release times are written once |
| ChallengeHistory.EvaluatedExactlyWhenGuarded | app/execution_store.py:485-515 | a committed call keeps phase and evidence in step exactly when a bare transition finds the evidence |
| ChallengeHistory.ReleasedIsEvaluated | app/execution_store.py:736-866 | guarded histories never release a challenge without a released evaluation |
| ChallengeHistory.BareTransitionsSkipEvaluation | app/execution_store.py:485-515 | four calls without the guard release a challenge that has no evaluation |
| ChallengeEffects.CommitsExactly | app/execution_store.py:485-866 | in every reachable state a call commits exactly when the rows allow it: the next phase, the right phase, fewer runs than the limit, no final yet, an unused key, no other digest, an evaluation to release |
| ChallengeEffects.CommitAdds | app/execution_store.py:485-866 | a committed call moves its own challenge's phase by one, logs that move and adds its row, releases date an evaluation once, and nothing else changes; a refused one changes nothing |
| ChallengeEffects.ErrorsAreCauses | app/execution_store.py:485-866 | whatever a refused call raises names something that is wrong with it |
| JobLease.JobTable.ClaimJob | app/execution_store.py:1622-1644 | queued, failed or expired work is claimed with a new attempt and lease, anything else is left alone |
| JobLease.JobTable.FinishJob | app/execution_store.py:1673-1687 | a running job, and only that, ends as completed or failed |
| JobLease.JobTable.NextClaimable | app/execution_store.py:1646-1656 | the earliest queued or expired job is returned, and none exactly when there is none |
| JobLease.ClaimsAreSeparated | app/execution_store.py:1622-1644 | any two grants of one job are separated by a recorded failure or by the first lease running out |
| JobLease.CompletedIsForever | app/execution_store.py:1622-1687 | a completed job never changes again |
| JobLease.AttemptCountsClaims | app/execution_store.py:1622-1644 | the attempt number is the number of granted claims |
| JobLease.FoundCanBeClaimed | app/execution_store.py:1646-1656 | a returned id can be claimed if no other call intervenes |
| JobLease.GrantedExactly | app/execution_store.py:1622-1687 | a job is created once, handed out exactly when it exists and nobody has it - never handed out, lease run out, or last holder failed - and finished exactly when its last move handed it out |
| JobLease.PlacesFollowCreation | app/execution_store.py:1646-1656 | positions follow the order of creation |
| JobLease.FinishesAreOwnExactly | app/execution_store.py:1673-1687 | in all timely histories with one finish per claim, every granted finish ends its own claim's lease if and only if workers may not finish at or after their expiry |
| JobLease.LateFinishEndsNewLease | app/evaluation/sealed_campaign_worker_v1.py:30-51 | with leases of any positive length, a worker that finishes as its lease expires ends its successor's, and a third claim is granted while that lease runs |
| ResponseJournal.ReturnsAgree | app/strategy_runtime.py:80-157 | all answers returned for one artifact and request are the same, with any sessions interleaving and crashing |
| ResponseJournal.EntriesNeverChange | app/execution_store.py:374-419 | a recorded entry never changes |
| ResponseJournal.UndisturbedSessionReturns | app/strategy_runtime.py:80-157 | an undisturbed session returns the recorded answer, or its strategy's own, which is then recorded |
| ResponseJournal.CrashLeavesNoTrace | app/strategy_runtime.py:80-157 | a session that crashes before it records leaves nothing behind |
| ResponseJournal.Journal.RecordResponse | app/execution_store.py:374-419 | the first answer is kept, the same one is replayed, another raises |
| ResponseJournal.Journal.Decide | app/strategy_runtime.py:80-157 | a decision returns the recorded answer if there is one, the strategy's own if nobody else records meanwhile, and raises only over a different one |
| StreamingSession.Stream.Decide | app/strategy_runtime.py:188-215 | one round: restart if needed, wait on the pipe, read one line through the reader's buffer, tear down on any failure |
| StreamingSession.RoundTakesExactly | app/strategy_runtime.py:188-237 | a round takes the next line exactly when the observation reached the process, the wait saw the pipe or the end of output, and that line is an action; otherwise it holds and keeps nothing |
| StreamingSession.DecisionsFollowWriting | app/strategy_runtime.py:285-298 | while nothing fails, decision k is the k-th line the process wrote, however reads are chunked |
| StreamingSession.NoStaleOutput | app/strategy_runtime.py:188-237 | an admitted line was written since the last failure: no failed stream's output is ever admitted |
| StreamingSession.AnswersOwnRound | app/strategy_runtime.py:285-298 | a round takes its own answer exactly when nothing was left unread |
| StreamingSession.OneLineKeepsStep | app/strategy_runtime.py:285-298 | one line per observation keeps answers in step |
| StreamingSession.ExtraLineFallsBehind | app/strategy_runtime.py:285-298 | after one extra line, with one line per observation, nothing fails and every later decision is the answer to the observation before |
| StreamingSession.SilentRound | app/strategy_runtime.py:285-298 | a round without new output is held exactly when all leftover lines are already in the reader's buffer, or the next one is no action |
| BenchmarkAgents.ExcessNeverGrows | app/benchmark/port.py:222-250 | against any fills and cancels on either side, delivered plus outstanding never exceeds the target from a clean start, and an excess never grows |
| BenchmarkAgents.DecisionIsSafe | app/benchmark/port.py:232-248 | no decision pushes the excess above zero; while there is one nothing is submitted and one open order of the agent's side is cancelled |
| BenchmarkAgents.ExcessClears | app/benchmark/port.py:232-248 | without fills the excess is gone within as many decisions as there are open orders of its side |
| BenchmarkAgents.DecisionAddsSlice | app/benchmark/port.py:245-248 | below the target every decision adds one order of its slice, or of what is missing |
| BenchmarkAgents.DecisionTakesOut | app/benchmark/port.py:232-244 | over-committed, a decision cancels a largest order of its side while something remains, and the first one when nothing does |
| BenchmarkAgents.TargetIsDelivered | app/benchmark/port.py:222-250 | if every submission fills before the next decision, the target is delivered after n decisions if and only if n is at least target over slice, rounded up |
| BenchmarkAgents.MakerStaysWithinLimit | app/benchmark/port.py:268-287 | the passive maker never quotes beyond its limit: below it a quote of its size is added, from there on the oldest is taken out |
| BenchmarkAgents.MakerBalances | app/benchmark/port.py:278-284 | it quotes on the side with fewer quotes |
| EvaluationPlan.ExpandCycle | app/benchmark/plan.py:299-302 | the comprehension expands every template by its weight |
| EvaluationPlan.WeightsAreExact | app/benchmark/plan.py:299-310 | any window of one cycle length uses each template exactly as often as its weight |
| EvaluationPlan.SeedDeterminesIndex | app/benchmark/plan.py:552-555 | a world's index is recovered from its seed, up to the modulus |
| EvaluationPlan.SeedsAreDistinct | app/benchmark/plan.py:552-555 | seeds of worlds less than 2147483647 apart differ, for any base seed |
| EvaluationPlan.CampaignsDiffer | app/benchmark/plan.py:552-555 | campaigns whose base seeds are less than 2147483647 apart share no world's seed at any index |
| EvaluationPlan.CycleIsInOrder | app/benchmark/plan.py:299-302 | the cycle lists the templates in the plan's order |
| EvaluationPlan.DefaultPlanIsOldRule | app/benchmark/plan.py:422-482 | the six-template plan is the old rule by i mod 3 and (i div 3) mod 2, for every i |
| EvaluationPlan.MatrixSeparates | app/benchmark/plan.py:184-232 | a template is legal exactly when it is trainable if and only if it runs the training partition, and sealed if and only if its family is private |
| EvaluationPlan.ValidatePlan | app/benchmark/plan.py:609-640 | validation passes exactly when every template, used or not, is legal and known; a refusal names what is wrong with one of them, ecologies last |
| EvaluationPlan.PlanWorlds | app/benchmark/plan.py:643-672 | worlds are resolved all or none, legal, and with distinct seeds |
| Ranks.AverageRanks | app/analytics/claims.py:30-42 | the array-writing tie loop gives every index its count of smaller values plus half of one more than its ties |
| Ranks.RanksAddUp | app/analytics/claims.py:30-42 | ranks always sum to n(n+1)/2 |
| Ranks.RanksPermute | app/analytics/claims.py:30-42 | a value's rank depends only on how often each value occurs |
| Ranks.RanksFollowOrder | app/analytics/claims.py:55-57 | ranks do not change under strictly increasing transformations |
| Ranks.RanksRise | app/analytics/claims.py:30-42 | higher values rank higher by at least one, equal values the same |
| Correlation.CauchySchwarz | app/analytics/claims.py:45-52 | squared sums of products are at most the product of the sums of squares, for all series |
| Correlation.CorrelationWithinOne | app/execution_arena.py:355-370 | the correlation lies between -1 and 1, so the clamp changes nothing |
| Correlation.RankCorrelationFollowsOrder | app/analytics/claims.py:55-57 | rank correlation is unchanged by strictly increasing transforms of either side |
| Correlation.QuantilesAreOrdered | app/analytics/claims.py:68-76 | quantiles lie within the data and grow with their probability |
| Correlation.QuantileMeetsData | app/analytics/claims.py:68-76 | the k-th of n values is the quantile of k / (n - 1), and between two of them quantiles move evenly |
| Correlation.SelfCorrelation | app/execution_arena.py:355-370 | a series that varies correlates perfectly with itself |
| Signals.SmaComparesAverages | app/robustness_product.py:14-21 | the convolution form compares the averages of the last fast and slow prices at each index |
| Signals.SmaSeesNoFuture | app/robustness_product.py:14-21 | positions on a prefix are the prefix of the positions |
| Signals.ComputeBreakout | app/robustness_product.py:27-37 | the loop computes the breakout positions, or raises exactly on an empty window or bad parameters |
| Signals.BreakoutHoldsSinceEntry | app/robustness_product.py:27-37 | the rule is long exactly when some price broke out above its whole entry window and none since fell below its whole exit window |
| Signals.BreakoutSeesNoFuture | app/robustness_product.py:27-37 | no lookahead if and only if the exit window is at most one longer than the entry window |
| Signals.LongExitSeesFuture | app/robustness_product.py:33-35 | a longer exit window accepts a history and rejects it once later prices are added |
| Signals.ComputeRsi | app/robustness_product.py:38-49 | the loop computes the reversion positions |
| Signals.RsiSeesNoFuture | app/robustness_product.py:38-49 | a position depends on nothing later than its price |
| Signals.RsiThresholds | app/robustness_product.py:45-48 | the index lies in 0..100 and crosses 30 and 70 where one side of the moves is over seven thirds of the other |
| Signals.RsiComparesTravel | app/robustness_product.py:38-49 | the index is below 30 exactly when prices fell, net, by more than two fifths of their travel, and above 70 when they rose by that much or did not move |
| Signals.RsiHoldsSinceOversold | app/robustness_product.py:45-48 | the rule is long exactly when the index has been below 30 and not above 70 since |
| Portfolio.Drawdown | app/arena.py:511-519 | for returns of -100% or more the one-pass drawdown is the largest drop over all pairs of dates that start from positive wealth |
| Portfolio.PeakFindsLargestExactly | app/arena.py:511-519 | over all series with returns of at least a floor, it is so if and only if the floor is at least -100% |
| Portfolio.ExposureLimitsLoss | app/arena.py:529-578 | no date loses more than gross exposure times the largest move plus the cost of turning the book over |
| Portfolio.LimitedDrawdown | app/arena.py:582-648 | under the program's exposure limit, moves and costs every reported drawdown is the largest one |
| Portfolio.PositionsByDate | app/arena.py:522-526 | the last row of a date and asset decides, zero without one |
| Portfolio.LastRowDecides | app/arena.py:522-526 | the row that no later one replaces decides a date and asset's position |
| Portfolio.NoRowNoPosition | app/arena.py:522-526 | without a row nothing is held |
| Portfolio.PortfolioSeries | app/arena.py:529-578 | the loop gives net returns, turnover and total cost of the held positions |
| Portfolio.CostRateOnlyScales | app/arena.py:529-578 | two runs differing in the cost rate have costs in its ratio and net returns apart by the cost difference |
| Portfolio.HiddenRunTradesOnce | app/arena.py:540-556 | over hidden dates the portfolio trades once, and with the delay not at all |
| Portfolio.EarnedByAsset | app/arena.py:561-564 | holding x more of an asset earns x times its gain more, holding nothing nothing |
| Portfolio.TradedByAsset | app/arena.py:557-558 | ending with another amount of one asset changes the turnover by that asset's own trade only |
| Portfolio.PublicRunFollowsPositions | app/arena.py:529-578 | a run without the delay holds each date's own positions, having started from nothing |
| Portfolio.DelayHoldsOneDate | app/arena.py:540-556 | the delay holds the book of the date before over the first hidden date, trading nothing, and changes no other date |
| Leaderboard.Rank | app/execution_arena.py:794-798 | sorting writes each row the number of better or earlier equal rows plus one |
| Leaderboard.PlacesAreRanking | app/execution_arena.py:794-798 | places are a permutation of 1..n, consistent with the score and stable |
| Leaderboard.PlacesAddUp | app/execution_arena.py:794-798 | places sum to n(n+1)/2 |
| Leaderboard.PublicPlaces | app/execution_arena.py:882-885 | the dictionary holds the worst place of each policy id |
| Leaderboard.RankMatrixRows | app/execution_arena.py:882-890 | every row's movement is its public place less its robustness place |
| Leaderboard.MovementCountsRows | app/execution_arena.py:882-890 | with distinct ids, a row moves by the number of rows ahead of it in public less the number ahead of it on robustness |
| Leaderboard.MovementsCancel | app/execution_arena.py:882-890 | movements sum to zero if and only if policy ids are distinct |
| Leaderboard.RobustnessWithinHundred | app/execution_arena.py:557-584 | the robustness total lies between 0 and 100 for all metric rows in range |
| Leaderboard.HundredIsPerfect | app/execution_arena.py:557-584 | the total is a hundred if and only if nothing was lost anywhere |
| Leaderboard.FullLosses | app/execution_arena.py:557-584 | losing one part completely costs exactly that part's weight |
| Leaderboard.MoreWorlds | app/execution_arena.py:557-584 | over more worlds sums add up and the worst is the worse of the two |

## Left out

- The matching engine: price-time priority, settlement, fees, and the conservation of cash and inventory over all accounts. `Venue.Conforms` is what the loop relies on.
- Random draws, agent heuristics, fundamentals, volume-curve shapes and the pauses that skip a decision: arbitrary inputs of the events.
- Binary floating point and the rounding of scores for display. The rounding of the harness's metrics to two decimals and of the severity score, which decide comparisons, is modelled on exact values.
- The `heapq` layout: the message heap is a sequence in delivery order, so pops and pushes are modelled, array sifting is not.
- Observed volume and observation fields of the rebuilt rows, their participation (filled over market volume), and the first and last fill times of the resolved order log: copied values and one quotient.
- SimulationLoop.Loop.RefreshStepVolume: takes the rounded base volume of the step as an input instead of computing it from the volume curve.
- ExecutionMachine.RunSnoc: the priming of the books before the first step is the initial state, not a sequence of events.
- OrderLives.SubmissionMovesQuantity: assumes that the agent does not trade with itself; a run in which it does can never close its step (`StepChecks.StepClosesExactly`).
- DeskMoves.AnswerKeepsOrder: the same assumption.
- EventAccounts.EventKeepsAccounts: the same assumption, and that gateway cancels do not overtake orders; `LateCancels` treats those.
- Finalization.LedgerActive: stated for logs without self-trades or cancels of the agent, which are those of finished runs.
- Finalization.LedgerNeverOverTerminates: likewise.
- StreamingSession.Stream.Decide: lines are whole; a partial line, on which the read would wait past the deadline, is not modelled.
- The tables of users' sessions, feedback, audit events, leaderboard snapshots, experiments and packs, and the SQL that stores them: no property beyond single rows.
- ChallengeStore.ArenaStore.DoSaveEvaluation: the evaluation key is the whole matrix digest instead of its first sixteen digits.
- Digests are modelled as injective; that a persisted response's digest fields match its action is therefore not a separate check.
- ResponseJournal.Journal.Decide: other sessions act between its lookup and its record; crashes and any other interleaving are covered by the step model in the same file.
- Correlation.CorrelationWithinOne: the square root is a parameter that squares to the product of the sums of squares.
- `evaluate_participation_claim`, `_slope` and the bootstrap: sums over configured rows with no further property.
- Prompts, text grounding, HTTP, containers, the command line and exports.
