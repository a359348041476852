# ATrade: verified models of the forward-test, backtest, and assistant protocols

ATrade runs trading strategies on past data (backtests) and on a paper account (forward tests). This project models the
parts of it that are hard to get right, and proves what they keep:

- **Forward tests.** The Web process, the worker, a child process for each test, and the clock share one database row. The
  model is a transition system in which each awaited call is one step, so every other party can step between two of them
  (`ForwardTestStore`, `ForwardTestWorker`, `ForwardTestProtocol`, `ForwardTestRuns`, `ForwardTestLaws`,
  `ForwardTestStops`, `ForwardTestWaits`, `ForwardTestEnds`, `ForwardTestOutages`, `ForwardTestHistories`,
  `ForwardTestChildren`).
- **Orders and fills.** The execution client reads fills and open orders from an unreliable gateway and saves them in the
  owner ledger (`ExecutionClient`, `ExecutionClientProtocol`, `ExecutionClientLaws`,
  `ExecutionClientHistories`, `CompleteReads`).
- **Backtest accounting.** Equity curves, round trips, drawdown, daily returns, and the in-sample split, as loops that are
  proved equal to sums and suprema (`Bars`, `Trades`, `EquityCurve`, `UniverseEquityCurve`, `UniverseCurveLaws`,
  `RoundTrips`, `RoundTripLists`, `UniverseInstruments`, `PerformanceMetrics`, `DailyReturns`, `SplitMetrics`, `LongOnly`).
- **Sharpe probability.** The variance factor and Pearson's moment inequality (`SharpeProbability`, `Fractions`).
- **Order sizing, universe ranges, and universe reads** (`CashFit`, `HeldOrders`, `HeldOrderLaws`, `UniverseRanges`,
  `RecordedPeriods`, `UniverseBars`, `UniverseListings`, `UniverseReads`).
- **Smaller protocols.** The backtest queue, the assistant conversations, and the line framing of a streamed answer
  (`BacktestQueue`, `BacktestQueueProtocol`, `BacktestQueueHistories`, `Conversations`, `ConversationHistories`,
  `LineFraming`).

`Sequences` and `Reals` hold sums, stable sorting, filters, and small facts on products and quotients.

Conventions: money and rates are exact reals, times are integers, and a list or a dictionary that the source changes is a
variable or a field that is assigned again. Objects whose methods change fields are classes; the methods are proved equal
to functions, and the transition systems use the same functions. A square root is a witness: a number that is not
negative and whose square is the argument.

Where the code does not do what its documentation says, the model follows the code, and the project proves exactly when the
two agree:

- The universe equity curve does not always use the last close: a fill after the close sets the price again. A point is the
  documented equity exactly when the differences of the prices add to 0 over the positions
  (`UniverseCurveLaws.DocumentedEquityHolds`, `UniverseCurveLaws.DocumentedPriceCanFail`).
- A buy does not always become the whole shares that the cash pays. It does exactly for an order within the tick size, for an
  order that the cash pays at the cautious price, and where the cash does not pay 1 share more
  (`CashFit.FillsWhatCashPays`). An order that the cash pays can be cut by 1 share, and a buy can be refused although the cash
  pays 1 share (`CashFit.PayableOrderCanBeReduced`, `CashFit.PayableShareCanBeCut`, `CashFit.RefusedThoughOneShareIsPaid`).
- Held orders for one open are not always sent in the order of the calls: their alerts are as far apart as the holds less the
  sends between them, so a later hold can have the same alert time, or go first
  (`HeldOrderLaws.AlertsFollowHolds`, `HeldOrderLaws.AlertsCanCollide`, `HeldOrderLaws.LaterHoldCanGoFirst`).
- A held order can be lost: a hold takes the name and the place of a waiting order exactly when that order was held at the same
  time, still waits, and as many orders were held as sent since then (`HeldOrderLaws.NoOrderIsLost`,
  `HeldOrderLaws.TakenName`, `HeldOrderLaws.OrderCanBeLost`).
- With decimal returns, the variance factor is never 0, so the branch for a factor of 0 is never reached
  (`SharpeProbability.ReasonTellsProbability`).
- A stock split restart counts as a crash when its cancel step fails (`ForwardTestLaws.OnlyUnplannedEndsAreCrashes`,
  `ForwardTestLaws.SplitRestartCanCountAsCrash`).
- A run child can start after a stop, but only one. It can exactly when, at the stop, the worker is at the awaited call
  before a start, or holds a row that it read before the stop and has not compared, with an active status and no child
  (`ForwardTestStops.StartAfterStop`, `ForwardTestLaws.AtMostOneRunStartAfterStop`, `ForwardTestLaws.RunCanStartAfterStop`).
- The status does not always stay while a child waits for IB Gateway: it is "running" exactly when the worker's write of
  "running" returned after the child wrote its wait (`ForwardTestWaits.WaitStatus`, `ForwardTestLaws.WaitCanBeOverwritten`).
- A failed paper account check of a later child frees the client ID and the capital while an order of an earlier child can
  still be open (`ForwardTestLaws.ClearedIdLeavesOrders`, `ForwardTestLaws.FreedIdCanHaveOpenOrders`).
- The check of ended orders can cancel a filled order, when the fill came on an earlier day and no save of it has returned
  (`ExecutionClientLaws.CancelsAreSound`, `ExecutionClientLaws.CancelCanMissFillOfEarlierDay`).
- The oldest queued backtest does not start first while another transaction locks its row
  (`BacktestQueueProtocol.StartTakesOldest`, `BacktestQueueProtocol.LockedRowStartsLater`).
- For a time before 1970 that is less than 1 second before a bar start, the floor is that bar start, and the ceiling is
  1 bar late (`Bars.FloorContainsTime`, `Bars.CeilIsFirstStart`, `Bars.TimeBefore1970`).

The split metrics divide by an equity without a check. A curve makes them divide by 0 exactly when its equity at the split
time is 0, or is below 0 and then reaches exactly 0 before it is above 0 (`SplitMetrics.SplitDividesByZero`). No long-only
run on a cash account gives such a curve (`LongOnly.UniverseSplitIsDefined`, `LongOnly.SingleSplitIsDefined`).

Assumptions of the transition systems: a failed database write has no effect, a transaction is one step, the clock does
not go back, a dead process has no children, there is one worker, and a child process ends with one of the exit codes
0, 3, 4, 5 only where its own code returns it. IBKR gives each order of a client ID a new order ID, and each execution a
new execution ID.

## Model

| member | source | states |
|---|---|---|
| ForwardTestStore.StartInterruption | backend/src/atrade/forward_test/forward_test_store.py:402-413 | after the call an interruption is open, the earlier rows stay, and at most one is open |
| ForwardTestStore.EndInterruption | backend/src/atrade/forward_test/forward_test_store.py:416-425 | no interruption is open, the open ones got the end time, and the closed ones did not change |
| ForwardTestStore.FindLowestFreeClientId | backend/src/atrade/forward_test/forward_test_store.py:132-136 | the loop returns the lowest ID of the range that is not taken, and none exactly when all are taken |
| ForwardTestStore.LowestFreeFrom | backend/src/atrade/forward_test/forward_test_store.py:132-136 | the found ID is in the range, free, and all lower IDs are taken |
| ForwardTestStore.StartIsBounded | backend/src/atrade/forward_test/forward_test_store.py:176-211 | a start is refused exactly when the capital or the IDs run out; an accepted start takes an ID that no row holds and leaves the allocated capital at most the net liquidation |
| ForwardTestWorker.Worker.RequestRestart | backend/src/atrade/forward_test/forward_test_worker.py:96-105 | exactly the named run children without a stop request get the stop signal and the restart mark |
| ForwardTestWorker.Worker.CompareRow | backend/src/atrade/forward_test/forward_test_worker.py:133-148 | the next awaited call is the one of the transition system, and only the flags of the child of this row change |
| ForwardTestWorker.Worker.DecideStart | backend/src/atrade/forward_test/forward_test_worker.py:150-169 | a wanted stop never gives a start or a restart: it starts a cancel child exactly with a client ID; a run child starts exactly for an active, ready row without a wanted stop, and after a worker restart an interruption comes first |
| ForwardTestWorker.Worker.DecideEnd | backend/src/atrade/forward_test/forward_test_worker.py:177-244 | which ends free the client ID (exit code 0 after a stop, 3 without one), which are a planned restart, a failed stop, or a lost gateway, and which are a crash, with the count of 1 after a long run |
| ForwardTestWorker.Worker.StartRunningChild | backend/src/atrade/forward_test/forward_test_worker.py:171-175 | the new child has the start time of now and no marks |
| ForwardTestWorker.Worker.ForgetChild | backend/src/atrade/forward_test/forward_test_worker.py:141-143 | only the recorded child is forgotten |
| ForwardTestProtocol.CompareKeepsInv | backend/src/atrade/forward_test/forward_test_worker.py:133-244 | a comparison on a row that was read earlier keeps the invariant of the row, the child, and the worker |
| ForwardTestProtocol.ChildEventKeepsInv | backend/src/atrade/forward_test/forward_test_child.py:223-358 | each step and each write of the child keeps the invariant, also between two calls of the worker |
| ForwardTestProtocol.CallKeepsInv | backend/src/atrade/forward_test/forward_test_worker.py:147-244 | each awaited call that returns keeps the invariant |
| ForwardTestProtocol.StepKeepsInv | backend/src/atrade/forward_test/forward_test_worker.py:96-244 | every step of Web, worker, child, and stock split check keeps the invariant |
| ForwardTestProtocol.WorkerDeathKeepsInv | backend/src/atrade/forward_test/forward_test_worker.py:107-118 | the death of the worker, at any call, keeps the invariant |
| ForwardTestRuns.RunKeepsInv | backend/src/atrade/forward_test/forward_test_worker.py:107-131 | the invariant of all rows holds in each state of each run |
| ForwardTestRuns.StepKeepsOrClearsId | backend/src/atrade/forward_test/forward_test_store.py:343-366 | a row keeps its client ID or loses it, and never gets another one |
| ForwardTestRuns.RunFollows | backend/src/atrade/forward_test/forward_test_store.py:313-399 | what every later state of a row keeps: a stop, a final row, the crash limit, and the history of crashes and ledger events |
| ForwardTestLaws.StopIsAbsorbing | backend/src/atrade/forward_test/forward_test_worker.py:133-219 | a row that reached a stop status keeps one in every run, starts no run child again, and a running run child can only stop |
| ForwardTestLaws.NoRunStartAfterSeenStop | backend/src/atrade/forward_test/forward_test_store.py:74-76 | after a stop or the end time, when the worker is not at a call before a start and holds no row from before it that it would start, no run child ever starts, also after a worker restart |
| ForwardTestLaws.AtMostOneRunStartAfterStop | backend/src/atrade/forward_test/forward_test_worker.py:133-169 | after a stop or the end time at any point of a run, also in the middle of a comparison, at most one run child more starts, also after a worker restart |
| ForwardTestLaws.RunCanStartAfterStop | backend/src/atrade/forward_test/forward_test_worker.py:125-169 | two runs in which one run child starts after a stop: one between the read of the row and its comparison, one after the comparison |
| ForwardTestStops.StartAfterStop | backend/src/atrade/forward_test/forward_test_worker.py:125-169 | at any point of any run with a wanted stop, a run child starts in some continuation exactly when the worker is at a call before a start, or holds an uncompared, active row without the stop and no child |
| ForwardTestLaws.StopEndIsRecorded | backend/src/atrade/forward_test/forward_test_worker.py:181-201 | the recorded end of a child with a stop request: stopped with no client ID for exit code 0, else stop_failed; no crash, whatever the restart mark is |
| ForwardTestLaws.RunEndIsRecorded | backend/src/atrade/forward_test/forward_test_worker.py:181-244 | the recorded end of a run child: only exit code 3 takes the client ID; the row stays active exactly for each other code below the crash limit; exactly an unplanned code is a crash; a stock split restart opens no interruption |
| ForwardTestLaws.WantedStopStartsCancelChild | backend/src/atrade/forward_test/forward_test_worker.py:150-158 | in every run: with a client ID and no child, each comparison after a wanted stop goes for a cancel child, until one has started |
| ForwardTestLaws.IdsAndCapital | backend/src/atrade/forward_test/forward_test_store.py:118-211 | in every run: distinct client IDs in the range, no ID only for stopped or failed rows, the capital allocated once and transferred back exactly when the ID is gone, at most one open interruption and none without an ID |
| ForwardTestLaws.IdClearsWithTransfer | backend/src/atrade/forward_test/forward_test_worker.py:189-213 | in every run the step that clears the ID is exactly the step that transfers the capital back |
| ForwardTestLaws.AcceptedStartFits | backend/src/atrade/forward_test/forward_test_store.py:191-211 | a start of a run changes nothing when the capital or the IDs run out, and else adds one starting row with its capital, within the net liquidation, and its end time |
| ForwardTestLaws.AllocatedIsHeld | backend/src/atrade/forward_test/forward_test_store.py:191-198 | in every run the allocated capital that a start counts is what the ledgers of all forward tests hold: nothing of an ended one |
| ForwardTestLaws.ChildFindsClientId | backend/src/atrade/forward_test/forward_test_child.py:370-373 | the read of the row ends a child exactly without a client ID, and in every run the row of a child has one |
| ForwardTestLaws.CountSinceLongRunMeaning | backend/src/atrade/forward_test/forward_test_worker.py:233-234 | the count covers the last crashes, none of them after a run of 10 minutes or more except the first |
| ForwardTestLaws.CrashesAreCounted | backend/src/atrade/forward_test/forward_test_worker.py:221-244 | in every run the crash count is the number of crashes since and including the last one after 10 minutes; at the limit nothing starts and nothing crashes any more |
| ForwardTestLaws.OnlyUnplannedEndsAreCrashes | backend/src/atrade/forward_test/forward_test_worker.py:181-219 | in every run a comparison goes for a crash record exactly for a run child without a stop request whose exit code is not 0, 3, 4, or 5 |
| ForwardTestLaws.CrashCountChangesOnlyByCrash | backend/src/atrade/forward_test/forward_test_store.py:382-399 | in every run only a crash record changes the crash count: not a gateway loss, a recorded restart, or a child write; the row fails at the limit and else starts again |
| ForwardTestLaws.ClearedIdLeavesOrders | backend/src/atrade/forward_test/forward_test_worker.py:202-213 | in every run a cleared ID leaves an order open exactly when the row sent one, no cancel step or start step of the row succeeded since then, and the paper check of a later child failed |
| ForwardTestLaws.OrdersAreOpenSends | backend/src/atrade/forward_test/forward_test_child.py:223-358 | in every run a row has an order without a cancel exactly when an order was sent and no cancel step or start step succeeded since then |
| ForwardTestLaws.WaitCanBeOverwritten | backend/src/atrade/forward_test/forward_test_worker.py:166-169 | a run in which "running" overwrites the "waiting_for_gateway" of a child that waits |
| ForwardTestWaits.StepOfWaitingChild | backend/src/atrade/forward_test/forward_test_worker.py:166-169 | of all steps, only the child's write of its wait and the worker's write of "running" set the status of a row whose child waits |
| ForwardTestWaits.WaitStatus | backend/src/atrade/forward_test/forward_test_worker.py:166-169 | in every run the status of a row whose child waits is "running" exactly when the worker's write of "running" returned after the child's last write of its wait, and else "waiting_for_gateway" |
| ForwardTestEnds.NextIsCloser | backend/src/atrade/forward_test/forward_test_worker.py:133-244 | after a wanted stop, in each state of a row with a client ID, the next step of the schedule can be taken, and it clears the ID or lowers the number of steps that are left |
| ForwardTestEnds.WantedStopEnds | backend/src/atrade/forward_test/forward_test_worker.py:133-244 | from any point of any run with a wanted stop, at most 16 steps without a failure end the test: stopped, or failed exactly for a run child whose paper account check had failed |
| ForwardTestOutages.LiveChildIsRunning | backend/src/atrade/forward_test/forward_test_store.py:479-493 | in every run, while a child is live no interruption is open, and the status is "running" unless its stop was requested |
| ForwardTestOutages.DowntimeIsRecorded | backend/src/atrade/forward_test/forward_test_store.py:463-476 | in every run an interruption is open while a child waits for IB Gateway, and before a run child of a row that was running starts |
| ForwardTestHistories.InterruptionsHaveCauses | backend/src/atrade/forward_test/forward_test_store.py:402-425 | in every run each interruption was opened, while none was open, by a wait of the child, a lost gateway, a crash record, or a worker that found a running row without a child, with the reason and the time of that step; the first live start of a child or end of the test after it ended it, at its time, and nothing else does |
| ForwardTestHistories.TimesAreOfSteps | backend/src/atrade/forward_test/forward_test_worker.py:133-244 | in every run each record has the time of its comparison, each child the time of its start, and exactly an ended test a stop time, that of the comparison that found the end |
| ForwardTestHistories.MarksAreOfSteps | backend/src/atrade/forward_test/forward_test_worker.py:96-148 | in every run a row wants to stop exactly after a stop of the user; a child has a stop request exactly when a comparison since its start found a wanted stop while it ran, a restart mark exactly after a stock split without one, and the stop signal exactly with one of them |
| ForwardTestHistories.StopIsWantedBySteps | backend/src/atrade/forward_test/forward_test_store.py:74-76 | in every run a stop is wanted exactly after a stop of the user, and from the end time on |
| ForwardTestHistories.StoppingStays | backend/src/atrade/forward_test/forward_test_worker.py:146-158 | in every run the status is "stopping" from the return of the worker's write of it up to the recorded end of the child that stops |
| ForwardTestHistories.ComparisonDecides | backend/src/atrade/forward_test/forward_test_worker.py:133-169 | in every run a comparison goes on to a start exactly for a ready, active row without a wanted stop and without a child, and to the write of "stopping" exactly for a running run child whose stop it is the first to ask |
| ForwardTestHistories.FailedCallIsTriedAgain | backend/src/atrade/forward_test/forward_test_worker.py:133-143 | in every run a call that fails changes nothing, and the next comparison of the row can start |
| ForwardTestHistories.DeathAndClock | backend/src/atrade/forward_test/forward_test_worker.py:107-118 | in every run the death of the worker, possible at any time, ends all children and comparisons and changes no row, interruption, or ledger; the clock changes only the time |
| ForwardTestChildren.ChildFollowsProgram | backend/src/atrade/forward_test/forward_test_child.py:223-383 | in every run the next event of a child can be exactly one that the order of its start steps, waits, live node, and cancel step allows, by its earlier events and its stop signal |
| ForwardTestChildren.ExitCodeTellsEnd | backend/src/atrade/forward_test/forward_test_child.py:223-358 | in every run a child has an exit code exactly when its last event is an end, and the code tells which one |
| ForwardTestChildren.OrdersFollowChecks | backend/src/atrade/forward_test/forward_test_child.py:342-358 | in every run a child sends an order only after its last start steps passed, with the paper account check and the cancel of the old orders, and after its live start was written |
| ForwardTestLaws.SplitRestartCanCountAsCrash | backend/src/atrade/forward_test/forward_test_worker.py:181-187 | a run in which a stock split restart is recorded as a crash |
| ForwardTestLaws.FreedIdCanHaveOpenOrders | backend/src/atrade/forward_test/forward_test_child.py:231-254 | a run in which the client ID is free and an order of an earlier child has no cancel |
| ExecutionClient.OwnerLedgerExecutionClient.BeginReconnect | backend/src/atrade/forward_test/owner_ledger_execution_client.py:218-223 | a reconnect is due only for a lost socket and after its interval |
| ExecutionClient.OwnerLedgerExecutionClient.EndReconnect | backend/src/atrade/forward_test/owner_ledger_execution_client.py:229 | the open order list is unproved after a reconnect |
| ExecutionClient.OwnerLedgerExecutionClient.FindNextFill | backend/src/atrade/forward_test/owner_ledger_execution_client.py:281-291 | the loop stops at the first execution of an own order that is not saved |
| ExecutionClient.OwnerLedgerExecutionClient.AddSavedExecution | backend/src/atrade/forward_test/owner_ledger_execution_client.py:308 | only the saved execution is marked |
| ExecutionClient.OwnerLedgerExecutionClient.GenerateOrderFilled | backend/src/atrade/forward_test/owner_ledger_execution_client.py:313-325 | the fill events grow by this execution |
| ExecutionClient.OwnerLedgerExecutionClient.AddOrder | backend/src/atrade/forward_test/owner_ledger_execution_client.py:365-366 | a sent order starts without saved executions |
| ExecutionClient.OwnerLedgerExecutionClient.BeginOpenOrderCheck | backend/src/atrade/forward_test/owner_ledger_execution_client.py:240-245 | a check is due only while connected and after its interval |
| ExecutionClient.OwnerLedgerExecutionClient.TakeOpenList | backend/src/atrade/forward_test/owner_ledger_execution_client.py:260-264 | only the first empty list after a reconnect is no proof |
| ExecutionClient.OwnerLedgerExecutionClient.FindUnsavedOrders | backend/src/atrade/forward_test/owner_ledger_execution_client.py:265-272 | exactly the orders with an unsaved own execution |
| ExecutionClient.OwnerLedgerExecutionClient.CancelEndedOrders | backend/src/atrade/forward_test/owner_ledger_execution_client.py:273-279 | exactly the old, ended, fully saved orders that are open in the engine get a cancel, in their order |
| ExecutionClientLaws.StepKeepsInv | backend/src/atrade/forward_test/owner_ledger_execution_client.py:197-325 | failed saves and reads, duplicate and foreign executions, and a cancel at any call keep the invariant |
| ExecutionClientLaws.RunsGoOn | backend/src/atrade/forward_test/owner_ledger_execution_client.py:211-216 | each run can be continued by each enabled step |
| ExecutionClientLaws.FillsAreSentOnce | backend/src/atrade/forward_test/owner_ledger_execution_client.py:197-238 | in every run: one fill event at most for an execution, only of an own order of this run, after its save returned, and no returned save without its event except during its cash read |
| ExecutionClientLaws.EventsAndSavesStay | backend/src/atrade/forward_test/owner_ledger_execution_client.py:293-325 | events and saves are never taken back |
| ExecutionClientLaws.CancelsAreSound | backend/src/atrade/forward_test/owner_ledger_execution_client.py:253-279 | in every run a cancelled order is done at IBKR, and all its fills are saved exactly when it has no fill of an earlier day whose save never returned in the run |
| ExecutionClientLaws.SavesAreSteps | backend/src/atrade/forward_test/owner_ledger_execution_client.py:293-308 | in every run an execution is saved exactly when a save of it returned |
| ExecutionClientLaws.OwnExecutionsAreFills | backend/src/atrade/forward_test/owner_ledger_execution_client.py:281-291 | in every run the own executions at IBKR are those of the start and the fills of the run |
| ExecutionClientLaws.EndedOrdersAreCancelled | backend/src/atrade/forward_test/owner_ledger_execution_client.py:274-279 | an old order outside the list whose fills are saved and that is open in the engine gets a cancel |
| ExecutionClientLaws.CancelCanMissFillOfEarlierDay | backend/src/atrade/forward_test/owner_ledger_execution_client.py:265-279 | a run in which a filled order gets a cancel, because the answer of the next day lacks its fill |
| ExecutionClientHistories.UnprovedSinceReconnect | backend/src/atrade/forward_test/owner_ledger_execution_client.py:218-264 | in every run the client distrusts an empty list exactly from a reconnect to the next answer of the open orders |
| ExecutionClientHistories.AnswersGoOn | backend/src/atrade/forward_test/owner_ledger_execution_client.py:260-265 | in every run an answer goes on to the executions exactly unless it is an empty first one after a reconnect |
| ExecutionClientHistories.SentOrdersArePlaced | backend/src/atrade/forward_test/owner_ledger_execution_client.py:360-366 | in every run the client holds exactly the orders whose send returned, in this order and with the time of the return |
| ExecutionClientHistories.ReconnectsAreSpaced | backend/src/atrade/forward_test/owner_ledger_execution_client.py:218-229 | in every run a wake reconnects exactly for a lost socket when the interval since the last attempt, also a failed one, is over |
| ExecutionClientHistories.ChecksAreSpaced | backend/src/atrade/forward_test/owner_ledger_execution_client.py:240-251 | in every run a check reads the open orders exactly while connected when the interval since the last check is over |
| ExecutionClientHistories.CancelsFollowAnswers | backend/src/atrade/forward_test/owner_ledger_execution_client.py:253-279 | in every run a cancel follows from one check and its answer: the order was sent an interval before the check, the list lacks it, and the list is not an empty first one after a reconnect |
| ExecutionClientHistories.LoopKeepsOrder | backend/src/atrade/forward_test/owner_ledger_execution_client.py:211-251 | in every run each wake reads the fills first, then checks the open orders also after a failed read or save, and then reads nothing before the next wake |
| ExecutionClientHistories.OneAttemptForEachWake | backend/src/atrade/forward_test/owner_ledger_execution_client.py:211-229 | in every run an attempt to reconnect directly follows a wake, so each wake makes at most one |
| ExecutionClientHistories.LastReadBeforeEnd | backend/src/atrade/forward_test/owner_ledger_execution_client.py:197-205 | in every run a disconnect is followed by one more read of the fills before the end, and by no reconnect, check, or cancel |
| CompleteReads.CompleteReadSendsAll | backend/src/atrade/forward_test/owner_ledger_execution_client.py:281-325 | in every run, a read whose saves and cash reads all return leaves each own execution of its answer, of an order sent before the answer, saved and with its fill event |
| Bars.FloorContainsTime | backend/src/atrade/foundation/bar.py:79-89 | the found bar contains the time, except for a fraction of a second before a bar start before 1970 |
| Bars.FloorIsBarStart | backend/src/atrade/foundation/bar.py:79-83 | the floor is a whole number of bar lengths |
| Bars.CeilIsFirstStart | backend/src/atrade/foundation/bar.py:92-97 | the ceiling is the first bar start that is not before the time, except in exactly the case of the floor |
| Bars.TimeBefore1970 | backend/src/atrade/foundation/bar.py:79-97 | 1 microsecond before 1970: the floor is after the time, and the ceiling 1 minute late |
| EquityCurve.CalculateEquityCurve | backend/src/atrade/backtest/backtest_metrics.py:82-103 | each point is the start cash minus the flows of all fills up to the latest bar end so far, plus the position at the close |
| UniverseEquityCurve.MakeCloseTable | backend/src/atrade/backtest/backtest_metrics.py:125-128 | the table holds for each bar end the last close of each instrument at that end |
| UniverseEquityCurve.PositionsHavePrices | backend/src/atrade/backtest/backtest_metrics.py:144-145 | each price lookup of the position value is defined |
| UniverseEquityCurve.CalculateUniverseEquityCurve | backend/src/atrade/backtest/backtest_metrics.py:114-147 | one point at each distinct bar end: the cash plus each position at its latest price event |
| UniverseCurveLaws.OneInstrumentCurve | backend/src/atrade/backtest/backtest_metrics.py:82-147 | with one instrument and ascending bar ends, the universe curve is the single-instrument curve |
| UniverseCurveLaws.DocumentedPriceHolds | backend/src/atrade/backtest/backtest_metrics.py:121-123 | the documented price is used exactly when no fill after the last close sets another price |
| UniverseCurveLaws.EquityDifference | backend/src/atrade/backtest/backtest_metrics.py:121-147 | the curve is above the documented equity by the sum over the instruments of the position times the price difference |
| UniverseCurveLaws.DocumentedEquityHolds | backend/src/atrade/backtest/backtest_metrics.py:121-147 | a point is the documented equity exactly when this sum is 0: so without a position at the price of a later fill, and not with exactly one |
| UniverseCurveLaws.DocumentedPriceCanFail | backend/src/atrade/backtest/backtest_metrics.py:121-147 | 1-minute bars and a fill between two bar ends: the curve has 100 USD at the second end and the documented equity is 98 USD |
| RoundTrips.WalkInstrumentRoundTrips | backend/src/atrade/backtest/backtest_metrics.py:197-231 | each fill by time with the round trip of its block, or none |
| RoundTrips.WalkedAt | backend/src/atrade/backtest/backtest_metrics.py:205-231 | the loop variables give at each fill the sums over the current block |
| RoundTrips.RoundTripIsOneBlock | backend/src/atrade/backtest/backtest_metrics.py:214-230 | the position of a round trip is 0 at its end and not in between |
| RoundTrips.ProfitsAndTailConserveCash | backend/src/atrade/backtest/backtest_metrics.py:192-231 | the profits plus the cash of the open tail are the cash flow of all fills |
| RoundTripLists.GroupByInstrument | backend/src/atrade/backtest/backtest_metrics.py:181-183 | each group holds the fills of its instrument in the order of the list |
| RoundTripLists.FindRoundTrips | backend/src/atrade/backtest/backtest_metrics.py:178-189 | the ended round trips of all instruments by end time |
| RoundTripLists.RoundTripsConserveCash | backend/src/atrade/backtest/backtest_metrics.py:178-231 | the profits of all instruments plus the cash of all open tails are the cash flow of all fills |
| RoundTripLists.FlatTestProfit | backend/src/atrade/backtest/backtest_metrics.py:114-189 | when all positions end flat and the last bar covers all fills, the profits are the last equity minus the start cash |
| RoundTripLists.FindRoundTripNetProfits | backend/src/atrade/backtest/universe_instruments.py:55-68 | each profit is on exactly the fill that ends its round trip, in the order of the list |
| RoundTripLists.ProfitAtIsUnique | backend/src/atrade/backtest/universe_instruments.py:61-68 | a fill has one right value |
| UniverseInstruments.SummarizeInstruments | backend/src/atrade/backtest/universe_instruments.py:30-52 | one row for each member with the number and the ended round trips of its own fills; fills without symbol or exchange are in no row |
| UniverseInstruments.InstrumentRowsAddUp | backend/src/atrade/backtest/universe_instruments.py:30-52 | the net profits of the rows and of the traded instruments without a row are the profits of all round trips, so the rows are when each traded instrument is a member |
| PerformanceMetrics.CalculateMaxDrawdownPercent | backend/src/atrade/backtest/backtest_metrics.py:234-242 | the largest fall below the running peak; it fails exactly when the running peak at a point of the curve is 0 |
| PerformanceMetrics.DrawdownIsLargestPairFall | backend/src/atrade/backtest/backtest_metrics.py:234-242 | the drawdown is the largest fall over all pairs of points, and 0 exactly when the curve never falls |
| DailyReturns.FindDayCloses | backend/src/atrade/backtest/backtest_metrics.py:155-157 | the dictionary by date holds the equity of the last point of each date |
| DailyReturns.CalculateDailyReturns | backend/src/atrade/backtest/backtest_metrics.py:150-164 | the returns of the day closes, without a day after an equity of 0 |
| DailyReturns.DayLastsMeaning | backend/src/atrade/backtest/backtest_metrics.py:155-157 | a point counts exactly when no later point is of its date |
| DailyReturns.SelectDailyEquityCurves | backend/src/atrade/backtest/backtest_store.py:479-496 | each backtest gets its own rows in their order, or an empty curve |
| DailyReturns.CurveHasOwnRows | backend/src/atrade/backtest/backtest_store.py:479-496 | the curve of a backtest is its own rows of the query, in their order |
| DailyReturns.ThinningKeepsDailyReturns | backend/src/atrade/backtest/backtest_store.py:482-492 | the last points of each UTC date give the same daily returns as the full curve |
| DailyReturns.ReturnsCompound | backend/src/atrade/backtest/backtest_metrics.py:158-164 | the product of 1 plus each return is the last equity over the start, exactly when the last equity is 0 or no daily equity before it is 0 |
| SplitMetrics.FindPositions | backend/src/atrade/backtest/backtest_metrics.py:308-323 | for each point in time order, the flag is true exactly when a position of its time is not 0 in an instrument |
| SplitMetrics.PointsPartition | backend/src/atrade/backtest/backtest_metrics.py:468-485 | the points and their flags split at the time, with nothing lost or doubled |
| SplitMetrics.FillsPartition | backend/src/atrade/backtest/backtest_metrics.py:475-483 | each fill is in exactly one part, by its time |
| SplitMetrics.RoundTripsPartition | backend/src/atrade/backtest/backtest_metrics.py:476-484 | each round trip is in the part where it ends |
| SplitMetrics.ReturnsCompose | backend/src/atrade/backtest/backtest_metrics.py:383-386 | the out-of-sample part starts at the in-sample end, and the growths of the parts multiply to the whole growth |
| SplitMetrics.SplitDividesByZero | backend/src/atrade/backtest/backtest_metrics.py:384-389 | with a capital above 0, the return and the drawdown of the whole test and of the in-sample part are defined; those of the out-of-sample part divide by 0 exactly when its start equity is 0, or is below 0 and exactly 0 comes before an equity above 0 |
| SplitMetrics.PartDividesByZero | backend/src/atrade/backtest/backtest_metrics.py:234-242 | the same condition for any part: an induction over the running peak |
| LongOnly.UniverseEquityIsPositive | backend/src/atrade/backtest/backtest_metrics.py:114-147 | fills that never take more than the cash or the position leave each equity above 0: after a buy there are shares, after a sell there is cash |
| LongOnly.EquityIsPositive | backend/src/atrade/backtest/backtest_metrics.py:82-103 | the same for the curve of one instrument |
| LongOnly.UniverseSplitIsDefined | backend/src/atrade/backtest/backtest_metrics.py:453-487 | the split of the curve of a long-only test of many instruments never divides by 0, for the whole test and both parts |
| LongOnly.SingleSplitIsDefined | backend/src/atrade/backtest/backtest_metrics.py:453-487 | the same for a test of one instrument |
| SplitMetrics.DrawdownsOfPartsAreWithinWhole | backend/src/atrade/backtest/backtest_metrics.py:387-389 | with positive equities, no part falls more than the whole test |
| SplitMetrics.SplitTimeIsInRange | backend/src/atrade/backtest/backtest_metrics.py:438-444 | there is no split time exactly for a share of 0; else it is in the range, within half a microsecond of the share, and inside a range of 100 microseconds or more |
| SplitMetrics.HalfGoesToEven | backend/src/atrade/backtest/backtest_metrics.py:444 | the rounded number is the nearest one, and of two nearest ones the even one |
| SharpeProbability.SharpeIsMissingForEqualReturns | backend/src/atrade/backtest/sharpe_probability.py:24-32 | there is no daily Sharpe ratio exactly with fewer than 2 returns or equal returns |
| SharpeProbability.PearsonInequality | backend/src/atrade/backtest/sharpe_probability.py:53-57 | the square of the third moment plus the cube of the second is at most the second times the fourth |
| SharpeProbability.KurtosisBound | backend/src/atrade/backtest/sharpe_probability.py:56-57 | the kurtosis is at least 1 plus the square of the skewness |
| SharpeProbability.VarianceFactorBound | backend/src/atrade/backtest/sharpe_probability.py:58-61 | the variance factor is at least (skewness times Sharpe / 2 - 1) squared, and 0 only on one line at the least kurtosis |
| SharpeProbability.DecimalsAreOffTheLine | backend/src/atrade/backtest/sharpe_probability.py:59-61 | with decimal returns, the skewness times the Sharpe ratio is never 2 |
| SharpeProbability.ReasonTellsProbability | backend/src/atrade/backtest/sharpe_probability.py:35-61 | with decimal returns, there is a probability exactly when there is no reason against it |
| SharpeProbability.SharpeIsQuotient | backend/src/atrade/backtest/sharpe_probability.py:24-32 | the daily Sharpe ratio is exactly the number whose product with the deviation is the mean, for 2 or more returns with a deviation above 0 |
| SharpeProbability.ReasonMeaning | backend/src/atrade/backtest/sharpe_probability.py:35-41 | the reason is too few returns exactly below 60 of them, and no deviation exactly for 60 or more equal ones |
| SharpeProbability.FactorIsOfSharpe | backend/src/atrade/backtest/sharpe_probability.py:44-61 | the variance factor of the probability is that of the Sharpe ratio of the returns, above 0, and at least its lower bound |
| SharpeProbability.ScoreMeaning | backend/src/atrade/backtest/sharpe_probability.py:62 | the score has the sign of the Sharpe ratio less the threshold, and its square times the factor is the square of this difference times the returns less 1 |
| Fractions.NeighboursAreNoSquareRatio | backend/src/atrade/backtest/sharpe_probability.py:59-61 | n (n - 1) is not the square of a fraction, so the factor of decimal returns is not 0 |
| CashFit.WholeShares | backend/src/atrade/backtest/strategy_engine_run.py:452 | the largest whole quantity that the cash pays at the price |
| CashFit.BuyOutcome | backend/src/atrade/backtest/strategy_engine_run.py:437-459 | a buy is sent whole, reduced to the largest quantity that the cash pays at the cautious price, or refused exactly when the cash does not pay 1 share at it |
| CashFit.BestIsLargest | docs/architecture/backtest.md:1033-1037 | the best quantity is the largest part of the order whose fill the cash pays |
| CashFit.FillsWhatCashPays | backend/src/atrade/backtest/strategy_engine_run.py:437-459 | the filled quantity is never above the best one, and equal to it exactly for an order within the tick size, for a whole order at the cautious price, and where the cash that 1 share more misses at this price is above the steps of the tick shares |
| CashFit.PayableOrderCanBeReduced | backend/src/atrade/backtest/strategy_engine_run.py:450-459 | 11 shares that the cash pays exactly become 10 |
| CashFit.PayableShareCanBeCut | backend/src/atrade/backtest/strategy_engine_run.py:450-459 | the cash pays exactly 5 shares of an order, and 4 fill |
| CashFit.RefusedThoughOneShareIsPaid | backend/src/atrade/backtest/strategy_engine_run.py:450-454 | a refused buy of which 1 share is payable: exactly above the tick size with cash from the price up to less than one step more |
| CashFit.CashStaysNonNegative | backend/src/atrade/backtest/strategy_engine_run.py:437-470 | the cash never goes below 0 over any run of held buys and sells |
| CashFit.OnlyBuysAreFitted | backend/src/atrade/backtest/strategy_engine_run.py:447-459 | a sell, and an order without a tick or an account, goes out unchanged; a buy keeps its side and never grows |
| CashFit.SellsFillWhole | backend/src/atrade/backtest/strategy_engine_run.py:447-448 | over every run of held orders each sell fills whole, so the sold shares are exactly those of the held sells, and no buy fills above its order |
| CashFit.CashIsOfFills | backend/src/atrade/backtest/strategy_engine_run.py:437-470 | over every run the cash is the start cash and the cash of the fills: nothing of a refused order |
| CashFit.UnfittedBuyCanOverdraw | backend/src/atrade/backtest/strategy_engine_run.py:441-443 | without the step in the check, a buy that the engine accepts makes the cash negative |
| HeldOrders.BisectRight | backend/src/atrade/backtest/strategy_engine_run.py:424-425 | the index separates the open times up to now from the later ones |
| HeldOrders.NextOpenOrders.SendAtNextOpen | backend/src/atrade/backtest/strategy_engine_run.py:422-432 | the order waits for the first later open, or goes at once without one |
| HeldOrders.NextOpenOrders.SubmitMarketOrder | backend/src/atrade/backtest/strategy_engine_run.py:461-470 | a market order is held |
| HeldOrders.NextOpenOrders.ClosePosition | backend/src/atrade/backtest/strategy_engine_run.py:472-485 | a second close of an instrument does nothing while the first one waits |
| HeldOrders.NextOpenOrders.SendWaitingOrder | backend/src/atrade/backtest/strategy_engine_run.py:434-435 | the waiting order goes to the engine, and a close ends the wait of its instrument |
| HeldOrders.NextOpenIsLater | backend/src/atrade/backtest/strategy_engine_run.py:424-432 | the next open is the first open of the instrument after now |
| HeldOrders.StepKeepsInv | backend/src/atrade/backtest/strategy_engine_run.py:402-485 | the closing instruments are those of the waiting closes, one each, and each alert is after its open by the number of orders that waited at the hold and 1; kept by each step that takes no name of a waiting order |
| HeldOrderLaws.StepConserves | backend/src/atrade/backtest/strategy_engine_run.py:422-435 | each order is as often given before and after a step as it is sent, waiting, or lost: a hold on a taken name loses the waiting order of this name |
| HeldOrderLaws.OrdersAreConserved | backend/src/atrade/backtest/strategy_engine_run.py:422-435 | over every run each order is given as often as it is sent, waiting, and lost |
| HeldOrderLaws.RunKeepsInv | backend/src/atrade/backtest/strategy_engine_run.py:402-485 | these facts hold over every run of holds, closes, and alerts, up to a hold that takes the name of a waiting order |
| HeldOrderLaws.NoOrderIsLost | backend/src/atrade/backtest/strategy_engine_run.py:384-435 | over every run the given orders are, as multisets, the sent and the waiting ones exactly as long as no hold takes the name of a waiting order |
| HeldOrders.CloseIsOpposite | backend/src/atrade/backtest/strategy_engine_run.py:483-485 | a held or sent close sells a long position and buys a short one back |
| HeldOrders.HoldIsCounted | backend/src/atrade/backtest/strategy_engine_run.py:384-399 | a held order with a new name raises by 1 the waiting count of each instrument and side that it matches, and no other count |
| HeldOrders.SendIsCounted | backend/src/atrade/backtest/strategy_engine_run.py:384-399 | its send lowers exactly these counts by 1 again |
| HeldOrderLaws.AlertsFollowHolds | backend/src/atrade/backtest/strategy_engine_run.py:431-432 | over every run the alerts of two holds for one open are as many nanoseconds apart as there are holds less sends from the first to the second: in the order of the calls exactly with more holds than sends, 1 nanosecond for each hold exactly without a send |
| HeldOrderLaws.EarlierAlertIsSentFirst | backend/src/atrade/backtest/strategy_engine_run.py:432-435 | over every run, of two waiting orders the one with the earlier alert is sent first |
| HeldOrderLaws.LaterHoldCanGoFirst | backend/src/atrade/backtest/strategy_engine_run.py:428-435 | a run in which a later buy has an earlier alert than a sell for the same open |
| HeldOrderLaws.TakenName | backend/src/atrade/backtest/strategy_engine_run.py:428-430 | over every run the next hold gets the name of a waiting order exactly when one was held at the same time, is not sent, and as many orders were held as sent since then |
| HeldOrderLaws.OrderCanBeLost | backend/src/atrade/backtest/strategy_engine_run.py:428-430 | a run after which a hold loses a waiting order |
| HeldOrderLaws.AlertsCanCollide | backend/src/atrade/backtest/strategy_engine_run.py:428-435 | a run with two waiting orders of one alert time |
| UniverseRanges.FindMemberRanges | backend/src/atrade/backtest/backtest_universe.py:155-166 | the loops over periods and members give each instrument its merged ranges |
| UniverseRanges.RangesAreCanonical | backend/src/atrade/backtest/backtest_universe.py:155-166 | the ranges of an instrument are ordered, do not touch, and hold exactly the times of its periods |
| UniverseRanges.CanonicalIsUnique | backend/src/atrade/backtest/backtest_universe.py:162-165 | ranges of this form are determined by their times |
| RecordedPeriods.MakeRecordedPeriods | backend/src/atrade/forward_test/comparison_routes.py:355-367 | ascending starts inside the range, and at each time the members of the latest quarter |
| RecordedPeriods.RecordedPeriodsAreTimeline | backend/src/atrade/forward_test/comparison_routes.py:355-367 | the recorded periods meet what the member ranges need |
| RecordedPeriods.FindScreenPeriodStarts | backend/src/atrade/backtest/backtest_universe.py:87-100 | the range start, then each next period start before the end |
| RecordedPeriods.ScreenStartsAreComplete | backend/src/atrade/backtest/backtest_universe.py:87-100 | the starts ascend inside the range; they are its start and exactly the quarter or month starts of it |
| RecordedPeriods.QuarterMonths | backend/src/atrade/backtest/backtest_universe.py:87-100 | the quarters start in January, April, July, and October |
| UniverseBars.MergeKeepsLastOfEachStart | backend/src/atrade/backtest/backtest_universe.py:217-219 | merged bars have each start once, in order, with the last bar of that start |
| UniverseBars.TakeMember | backend/src/atrade/backtest/backtest_universe.py:274-292 | one member takes exactly the answers to its own requests |
| UniverseBars.ReadMembers | backend/src/atrade/backtest/backtest_universe.py:246-293 | each answer goes to the request that it was built for, all answers are used, and the count of a source is that of the ranges of all listings |
| UniverseBars.AllMemberBarsAt | backend/src/atrade/backtest/backtest_universe.py:284-292 | each member has its range bars, its merged look-back bars, and the open bars of the whole range |
| UniverseListings.LastListingIsLast | backend/src/atrade/backtest/backtest_universe.py:222-228 | exactly one listing has the last open bar, the first one of a tie or of listings without bars, and it gives the exchange |
| UniverseListings.MergeSymbolMembers | backend/src/atrade/backtest/backtest_universe.py:237-243 | one member for each symbol in the order of the first listings: the merge of all its listings |
| UniverseListings.MergeKeepsStarts | backend/src/atrade/backtest/backtest_universe.py:217-234 | the merged bars ascend and have exactly the bar starts of the listings |
| UniverseListings.MergeKeepsLastListing | backend/src/atrade/backtest/backtest_universe.py:217-219 | of listings with a bar of one start, the last one gives the bar |
| UniverseListings.OneListingStays | backend/src/atrade/backtest/backtest_universe.py:221-234 | a symbol with one listing keeps it as it is |
| UniverseListings.ReadUniverseBars | backend/src/atrade/backtest/backtest_universe.py:246-293 | the members are the merged listings, each with the answers to its own requests, and the counts are those of the ranges |
| UniverseReads.ReadIsInside | backend/src/atrade/backtest/backtest_universe.py:246-293 | when no answer has a bar outside its request: each bar of a member starts while one of its listings is in the universe, each look-back bar at most the look-back length before a listing joins it, each open bar in the whole range |
| UniverseReads.ReadIsOfStore | backend/src/atrade/backtest/backtest_universe.py:246-293 | when the answers are those of a bar store: a member has a bar, a look-back bar, or an open bar at a start exactly when the store has one of a listing of its symbol in the universe then, in the look-back length before a join, or in the whole range |
| UniverseReads.RangeCountsAdd | backend/src/atrade/backtest/backtest_universe.py:278-281 | the count of a source over the ranges of a member is the sum of the counts of their answers |
| UniverseReads.AllCountsAdd | backend/src/atrade/backtest/backtest_universe.py:274-281 | the count of a source over all members is the sum over the members |
| BacktestQueue.BacktestRunner.StartQueuedBacktests | backend/src/atrade/backtest/backtest_runner.py:95-105 | the loop starts the oldest unlocked queued backtests in their order, up to the limit or the end of the queue |
| BacktestQueue.OldestFree | backend/src/atrade/backtest/backtest_store.py:512-525 | the oldest queued row that is not locked, or none |
| BacktestQueueProtocol.StepKeepsInv | backend/src/atrade/backtest/backtest_runner.py:56-170 | the count of the runner is the number of its child processes that it still follows, and a working child has a running row |
| BacktestQueueProtocol.StatusChangesAreLegal | backend/src/atrade/backtest/backtest_store.py:512-564 | queued to running or cancelled, running to one final status, and nothing else |
| BacktestQueueProtocol.RunStatusesAreLegal | backend/src/atrade/backtest/backtest_store.py:512-642 | in every run each step changes a status only along its legal path, and only final rows go |
| BacktestQueueProtocol.EndTellsReason | backend/src/atrade/backtest/backtest_runner.py:133-148 | a child that saved its end keeps it; one that did not ends as timed out or failed, by the reason |
| BacktestQueueProtocol.FinalStatusStays | backend/src/atrade/backtest/backtest_store.py:528-642 | in every run a final status never changes, although the child writes without a guard |
| BacktestQueueProtocol.CountIsTasks | backend/src/atrade/backtest/backtest_runner.py:98-115 | in every run the count is right, and a start comes only below the limit |
| BacktestQueueProtocol.StartTakesOldest | backend/src/atrade/backtest/backtest_store.py:512-525 | a start takes the oldest queued row exactly when that row is not locked |
| BacktestQueueProtocol.StartsAreAscending | backend/src/atrade/backtest/backtest_runner.py:95-105 | when no start finds the oldest queued row locked, backtests start in the order of their IDs |
| BacktestQueueProtocol.LockedRowStartsLater | backend/src/atrade/backtest/backtest_store.py:371-384 | a run in which a locked oldest row starts after a later one |
| BacktestQueueHistories.RowsAreOfSteps | backend/src/atrade/backtest/backtest_store.py:512-580 | in every run a row comes only with its submit and goes only with its delete, and each change of a status has exactly its own steps: a start of the oldest free row, a cancel while queued, the end that the child saves, the end that the runner writes with its reason, or the restart |
| BacktestQueueHistories.RunningRowsAreFollowed | backend/src/atrade/backtest/backtest_runner.py:86-148 | in every run a running row has its child task, or waits for the restart that fails it, unless the write of its end failed |
| BacktestQueueHistories.LocksAreOfSteps | backend/src/atrade/backtest/backtest_store.py:371-390 | in every run a row is locked exactly in a delete transaction, and only a row with a final status is deleted |
| BacktestQueueHistories.QueueIsOfSteps | backend/src/atrade/backtest/backtest_runner.py:56-105 | in every run the queue can start a backtest exactly when its last read of the limits, or its last start, left fewer children than the limit; after a restart it first fails the running rows |
| BacktestQueueHistories.TaskFollowsProgram | backend/src/atrade/backtest/backtest_runner.py:107-148 | in every run the next step of a child task can be exactly one that its earlier steps allow: the start of the process, its own end, its exit or the timeout, and the write of the end |
| BacktestQueueHistories.TaskEndsOnce | backend/src/atrade/backtest/backtest_runner.py:107-148 | in every run a task ends exactly with the write of its end, with a failure after a failed start or a failed write, or with the Web process |
| Conversations.Conversations.BeginRun | assistant/src/conversations.ts:124-140 | a second run of an active conversation changes nothing |
| Conversations.Conversations.KeepSession | assistant/src/conversations.ts:159-167 | an aborted run drops its session |
| Conversations.Conversations.FinishRun | assistant/src/conversations.ts:133-137 | the cleanup leaves nothing of the conversation |
| Conversations.Conversations.Abort | assistant/src/conversations.ts:179-189 | an abort goes to the session, or marks the run |
| Conversations.OneActiveRun | assistant/src/conversations.ts:124-140 | in every interleaving at most one run is active, and no mark is left for the next run |
| Conversations.AbortsAreNotLost | assistant/src/conversations.ts:142-189 | in every interleaving an abort of an active run reaches its session, or the run never prompts |
| Conversations.FileGoesWhenNoRunWrites | assistant/src/conversations.ts:201-206 | in every interleaving the file goes only when each run of the conversation has ended, also the one that the delete stopped |
| Conversations.DeleteEndsWithRun | assistant/src/conversations.ts:201-206 | in every interleaving a delete waits only for the active run and is done when it ends |
| ConversationHistories.RunFollowsProgram | assistant/src/conversations.ts:124-176 | in every interleaving the next step of a run can be exactly one that its earlier steps and the aborts since its start allow, and the run is prompted exactly when its session came without an abort |
| ConversationHistories.RunStartsWhenIdle | assistant/src/conversations.ts:124-140 | in every interleaving a run starts exactly when all earlier ones had their cleanup, and else nothing changes |
| ConversationHistories.AbortReachesSession | assistant/src/conversations.ts:179-189 | in every interleaving an abort reaches a run exactly while it has a session that is not cleaned up |
| ConversationHistories.DeletesAreOfSteps | assistant/src/conversations.ts:201-206 | in every interleaving each delete stops the run that is active then, waits for its abort, then for the run that is active, and removes the file at the end of that run, or at once without one |
| LineFraming.JoinOfSplit | backend/src/atrade/assistant/assistant_service.py:348-353 | the lines of a text give the text back |
| LineFraming.PartsAreLines | backend/src/atrade/assistant/assistant_service.py:348-353 | no line has a newline |
| LineFraming.SplitOfJoin | backend/src/atrade/assistant/assistant_service.py:345-353 | lines without newlines come back from their joined text |
| LineFraming.StreamLines | backend/src/atrade/assistant/assistant_service.py:334-353 | the lines of a stream are those of its whole text, wherever the chunks end |
| LineFraming.LinesDependOnTextOnly | backend/src/atrade/assistant/assistant_service.py:348-353 | two streams have the same lines exactly when they have the same text |

## Left out

- Rounding of decimals to cents and of floats, the value of the normal distribution, the compound annual growth rate, and the Sortino, Calmar, profit factor, and turnover metrics: the properties are on unrounded values, and these metrics are single expressions.
- ForwardTestHistories.InterruptionsHaveCauses: the child reads one time for its 2 writes of a wait, and of a live start; the model takes the time of the write of the interruption.
- ForwardTestLaws.OnlyUnplannedEndsAreCrashes: a child that ends itself with one of the codes 0, 3, 4, or 5 outside its own return statements is not modelled.
- ForwardTestProtocol.StepKeepsInv: the child process is a transition function and not a class, because each of its awaited calls is a step of its own; error messages, warm-up bars, and the instrument list of the child are not in the model.
- ForwardTestEnds.WantedStopEnds: the bound is for the schedule in which each call returns, the cancel step succeeds, and the worker compares the row when no child with a stop runs; a call that fails again and again has no bound.
- ForwardTestRuns.RunKeepsInv: the rows are compared independently of each other, which allows more runs than the loop over the rows.
- ExecutionClientLaws.CancelsAreSound: the answer to a read of the open orders can lack only orders of the last interval, or be the first empty list after a reconnect; the order rules of the owner ledger, the reports for reconciliation, and the cancel command of the strategy are not modelled.
- ExecutionClientLaws.FillsAreSentOnce: the quantity, the price, and the commission of a fill are not in the model, only its identity.
- CashFit.CashStaysNonNegative: the engine is the rule that it refuses a quantity times the tick price above the cash, fills the tick size at the price, and fills the rest one step worse; limit and stop orders and order lists are not held.
- HeldOrderLaws.RunKeepsInv: after a hold took the name of a waiting order, only the conservation of the orders is proved; the model lets the alert of the new order replace the old one, as the clock of the engine is not in the model.
- SplitMetrics.SplitDividesByZero: only the divisions of the total return and the drawdown; the division of the profit of a win by its entry amount is not modelled.
- LongOnly.UniverseSplitIsDefined: that the engine ends a run at a fill above the cash and sells no more than the position is a rule of the engine, as are fills without a commission (backend/src/atrade/backtest/strategy_engine_run.py:225-229, 441-443); closes and fill prices are above 0.
- UniverseInstruments.SummarizeInstruments: the members are a list in the order of their names.
- RecordedPeriods.FindScreenPeriodStarts: the calendar is an ascending function from month numbers to times.
- RoundTripLists.FindRoundTripNetProfits: the object identity of a fill is a number, different for each fill of a list.
- BacktestQueueProtocol.FinalStatusStays: a killed child writes nothing any more, and a Web process that died has no children when the next one starts.
- Conversations.FileGoesWhenNoRunWrites: a settled await goes on before the next request, because a run starts only after its request body was read; the file itself is not in the model.
- The NautilusTrader engine, ib_async, PostgreSQL, FastAPI, and the pi SDK: their calls are steps of the environment.
- The routes, the frontend, the migrations, the settings checks, and the message texts.
- The owner ledger, the bar store, the screens, and the strategies: only the allocation and the transfer back of the capital are steps of the model.
