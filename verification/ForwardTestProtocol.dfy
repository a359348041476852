/**
 * One forward test as a transition system: its row, its child process, and the worker's place in its comparison.
 * Each awaited call is one step, so the Web process, the child, and the clock can step between two of them.
 */
module ForwardTestProtocol {
  import opened Sequences
  import opened ForwardTestStore
  import opened ForwardTestWorker

  datatype LedgerEvent = CapitalAllocated(usd: real) | TransferredToByHand

  datatype Crash = Crash(startedAtUtc: int, recordedAtUtc: int)

  /**
   * `hasUncancelledOrders`: an order was sent after the last cancel step that succeeded.
   * `crashes` and `runStarts` are the history of the recorded crashes and of the starts of a run child.
   */
  datatype Cell = Cell(row: Row, interruptions: seq<Interruption>, child: Option<RunningChild>, await: Await,
                       ledger: seq<LedgerEvent>, hasUncancelledOrders: bool, crashes: seq<Crash>, runStarts: nat)

  datatype ChildEvent =
    | ReadRow
    | GatewayIsUnreachable
    | PaperCheckFails
    | PrepareFails
    | PrepareSucceeds
    | WriteWait
    | WriteWaitInterruption
    | RetryTimePasses
    | StopEndsWait
    | WriteLiveStart
    | WriteInterruptionEnd
    | SendOrder
    | LiveNodeEnds(isGatewayLost: bool)
    | CancelSucceeds
    | FillIsHeld
    | CancelFails
    | Dies(code: int)

  datatype CellStep =
    | WebStops
    | WorkerSelects
    | WorkerCompares(isReadyToRun: bool)
    | CallReturns
    | CallFails
    | SplitRestart
    | ChildSteps(event: ChildEvent)

  function NewCell(row: Row): Cell {
    Cell(row, [], None, AtIdle, [CapitalAllocated(row.allocatedCapitalUsd)], false, [], 0)
  }

  // ---------------------------------------------------------------- the child process

  /** An exception, a failed write, or a kill ends the child with a code that its own steps do not return. */
  predicate IsUnplannedCode(code: int) {
    code != SUCCESS_EXIT_CODE && code != PAPER_CHECK_FAILED_EXIT_CODE && code != GATEWAY_UNREACHABLE_EXIT_CODE
    && code != HELD_FILL_EXIT_CODE
  }

  predicate IsChildEventEnabled(child: RunningChild, event: ChildEvent) {
    var phase := child.process.phase;
    match event
    case ReadRow => phase == ReadingRow
    case GatewayIsUnreachable => phase == Preparing
    case PaperCheckFails => phase == Preparing
    case PrepareFails => phase == Preparing
    case PrepareSucceeds => phase == Preparing
    case WriteWait => phase == WritingWait
    case WriteWaitInterruption => phase == WritingWaitInterruption
    case RetryTimePasses => phase == Waiting
    case StopEndsWait => phase == Waiting && child.process.isStopSignalled
    case WriteLiveStart => phase == WritingLiveStart
    case WriteInterruptionEnd => phase == EndingInterruption
    case SendOrder => phase == Live
    case LiveNodeEnds(_) => phase == Live
    case CancelSucceeds => phase == Cancelling
    case FillIsHeld => phase == Cancelling
    case CancelFails => phase == Cancelling
    case Dies(code) => !phase.Exited? && IsUnplannedCode(code)
  }

  /**
   * Preparing covers the connection, the paper account check, the cancel of old orders, and the save of their fills.
   */
  function NextPhase(child: RunningChild, clientId: Option<int>, event: ChildEvent): Phase {
    match event
    case ReadRow =>
      if clientId.None? then Exited(FAILURE_EXIT_CODE)
      else if child.mode == CancelOrdersMode then Cancelling else Preparing
    case GatewayIsUnreachable => WritingWait
    case PaperCheckFails => Exited(PAPER_CHECK_FAILED_EXIT_CODE)
    case PrepareFails => Exited(FAILURE_EXIT_CODE)
    case PrepareSucceeds => WritingLiveStart
    case WriteWait => WritingWaitInterruption
    case WriteWaitInterruption => Waiting
    case RetryTimePasses => Preparing
    case StopEndsWait => Cancelling
    case WriteLiveStart => EndingInterruption
    case WriteInterruptionEnd => Live
    case SendOrder => Live
    case LiveNodeEnds(isGatewayLost) =>
      if child.process.isStopSignalled then Cancelling
      else Exited(if isGatewayLost then GATEWAY_UNREACHABLE_EXIT_CODE else FAILURE_EXIT_CODE)
    case CancelSucceeds => Exited(SUCCESS_EXIT_CODE)
    case FillIsHeld => Exited(HELD_FILL_EXIT_CODE)
    case CancelFails => Exited(FAILURE_EXIT_CODE)
    case Dies(code) => Exited(code)
  }

  function AfterChildEvent(cell: Cell, nowUtc: int, event: ChildEvent): Cell
    requires cell.child.Some?
  {
    var child := cell.child.value;
    var phase := NextPhase(child, cell.row.clientId, event);
    var next := cell.(child := Some(child.(process := child.process.(phase := phase))));
    match event
    case WriteWait => next.(row := WriteActiveStatus(cell.row, WaitingForGateway))
    case WriteWaitInterruption => next.(interruptions := StartInterruption(cell.interruptions, GatewayReason, nowUtc))
    case WriteLiveStart => next.(row := WriteActiveStatus(cell.row, Running))
    case WriteInterruptionEnd => next.(interruptions := EndInterruption(cell.interruptions, nowUtc))
    case SendOrder => next.(hasUncancelledOrders := true)
    case PrepareSucceeds => next.(hasUncancelledOrders := false)
    case CancelSucceeds => next.(hasUncancelledOrders := false)
    case _ => next
  }

  // ---------------------------------------------------------------- the worker

  /** `write_end`, the end of the interruption, and the transfer back to "By hand" are one transaction. */
  function RecordEnd(cell: Cell, status: Status, stoppedAtUtc: int): Cell {
    cell.(row := WriteEnd(cell.row, status, stoppedAtUtc),
          interruptions := EndInterruption(cell.interruptions, stoppedAtUtc),
          ledger := cell.ledger + [TransferredToByHand],
          child := None, await := AtIdle)
  }

  /** The awaited call returns, and the comparison runs on to its next awaited call or to its end. */
  function AfterCall(cell: Cell, nowUtc: int): Cell {
    match cell.await
    case AtIdle => cell
    case AtCompare(_) => cell
    case AtStartCancel => cell.(child := Some(NewChild(CancelOrdersMode, nowUtc)), await := AtWriteStopping)
    case AtWriteStopping => cell.(row := cell.row.(status := Stopping), await := AtIdle)
    case AtRestartInterruption(startedAtUtc, status) =>
      cell.(interruptions := StartInterruption(cell.interruptions, WorkerRestartReason, startedAtUtc),
            await := AtStartRun(status))
    case AtStartRun(status) =>
      cell.(child := Some(NewChild(RunMode, nowUtc)), runStarts := cell.runStarts + 1,
            await := if status == WaitingForGateway then AtIdle else AtWriteRunning)
    case AtWriteRunning => cell.(row := cell.row.(status := Running), await := AtIdle)
    case AtRecordRestart => cell.(row := cell.row.(status := Starting), child := None, await := AtIdle)
    case AtRecordStopped(stoppedAtUtc) => RecordEnd(cell, Stopped, stoppedAtUtc)
    case AtRecordStopFailed => cell.(row := cell.row.(status := StopFailed), child := None, await := AtIdle)
    case AtRecordPaperFailed(stoppedAtUtc) => RecordEnd(cell, Failed, stoppedAtUtc)
    case AtRecordGateway(startedAtUtc) =>
      cell.(row := WriteActiveStatus(cell.row, WaitingForGateway), await := AtRecordGatewayInterruption(startedAtUtc))
    case AtRecordGatewayInterruption(startedAtUtc) =>
      cell.(interruptions := StartInterruption(cell.interruptions, GatewayReason, startedAtUtc),
            child := None, await := AtIdle)
    case AtCrashInterruption(recordedAtUtc, crashCount) =>
      cell.(interruptions := StartInterruption(cell.interruptions, CrashReason, recordedAtUtc),
            await := AtWriteCrash(recordedAtUtc, crashCount))
    case AtWriteCrash(recordedAtUtc, crashCount) =>
      var started := if cell.child.Some? then cell.child.value.startedAtUtc else recordedAtUtc;
      cell.(row := cell.row.(status := CrashStatus(crashCount), crashCount := crashCount),
            crashes := cell.crashes + [Crash(started, recordedAtUtc)], child := None, await := AtIdle)
  }

  predicate IsCalling(await: Await) { !await.AtIdle? && !await.AtCompare? }

  predicate IsEnabled(cell: Cell, step: CellStep) {
    match step
    case WebStops => true
    case WorkerSelects => cell.await.AtIdle? && IsCompared(cell.row)
    case WorkerCompares(_) => cell.await.AtCompare?
    case CallReturns => IsCalling(cell.await)
    case CallFails => IsCalling(cell.await)
    case SplitRestart => cell.child.Some?
    case ChildSteps(event) => cell.child.Some? && IsChildEventEnabled(cell.child.value, event)
  }

  function AfterStep(cell: Cell, nowUtc: int, step: CellStep): Cell
    requires IsEnabled(cell, step)
  {
    match step
    case WebStops => cell.(row := cell.row.(desired := WantStopped))
    case WorkerSelects => cell.(await := AtCompare(cell.row))
    case WorkerCompares(isReadyToRun) =>
      var row := cell.await.row;
      cell.(child := ComparedChild(row, cell.child, nowUtc), await := NextAwait(row, cell.child, nowUtc, isReadyToRun))
    case CallReturns => AfterCall(cell, nowUtc)
    case CallFails => cell.(await := AtIdle)
    case SplitRestart => cell.(child := Some(AskRestart(cell.child.value)))
    case ChildSteps(event) => AfterChildEvent(cell, nowUtc, event)
  }

  /** The worker process dies, and its children with it. */
  function AfterWorkerDeath(cell: Cell): Cell {
    cell.(child := None, await := AtIdle)
  }

  // ---------------------------------------------------------------- the invariant

  /** The number of recorded crashes since and including the last crash of a child that ran long. */
  function CountSinceLongRun(crashes: seq<Crash>): nat {
    if crashes == [] then 0
    else
      var last := crashes[|crashes| - 1];
      if IsLongRun(last.startedAtUtc, last.recordedAtUtc) then 1 else CountSinceLongRun(crashes[..|crashes| - 1]) + 1
  }

  ghost predicate RowInv(cell: Cell, nowUtc: int) {
    var row := cell.row;
    && (row.status == Stopped ==> row.clientId.None?)
    && (row.clientId.None? ==>
          (row.status == Stopped || row.status == Failed) && cell.child.None? && cell.await.AtIdle?)
    && (IsStopStatus(row.status) ==> IsStopWanted(row, nowUtc))
    && (row.status == Stopped ==> !cell.hasUncancelledOrders)
  }

  ghost predicate CrashInv(cell: Cell) {
    && cell.row.crashCount == CountSinceLongRun(cell.crashes) <= CRASH_LIMIT
    && (cell.row.crashCount == CRASH_LIMIT ==> !IsActive(cell.row.status))
  }

  ghost predicate LedgerInv(cell: Cell) {
    cell.ledger == [CapitalAllocated(cell.row.allocatedCapitalUsd)]
      + if cell.row.clientId.None? then [TransferredToByHand] else []
  }

  ghost predicate InterruptionInv(cell: Cell) {
    && AtMostOneOpen(cell.interruptions)
    && (cell.row.clientId.None? ==> !HasOpen(cell.interruptions))
  }

  predicate IsStopStepCode(code: int) { code == SUCCESS_EXIT_CODE || code == HELD_FILL_EXIT_CODE }

  ghost predicate ProcessInv(child: RunningChild, hasUncancelledOrders: bool) {
    var process := child.process;
    && (process.isStopSignalled ==> child.isStopRequested || child.isRestartRequested)
    && (child.isStopRequested ==> process.isStopSignalled)
    && (child.mode == CancelOrdersMode ==> !child.isRestartRequested)
    && (process.phase == Exited(SUCCESS_EXIT_CODE) ==> !hasUncancelledOrders)
    && (child.mode == RunMode
        && (process.phase == Cancelling || (process.phase.Exited? && IsStopStepCode(process.phase.code)))
        ==> process.isStopSignalled)
    && (child.mode == CancelOrdersMode ==>
          process.phase == ReadingRow || process.phase == Cancelling || process.phase.Exited?)
  }

  ghost predicate ChildInv(cell: Cell, nowUtc: int) {
    cell.child.Some? ==>
      && ProcessInv(cell.child.value, cell.hasUncancelledOrders)
      && (if IsStopChild(cell.child.value) then IsStopWanted(cell.row, nowUtc) else IsActive(cell.row.status))
  }

  ghost predicate IsExitedRunChild(child: Option<RunningChild>) {
    child.Some? && child.value.process.phase.Exited? && !IsStopChild(child.value)
  }

  ghost predicate IsExitedStopChild(child: Option<RunningChild>) {
    child.Some? && child.value.process.phase.Exited? && IsStopChild(child.value)
  }

  predicate HasExitCode(child: Option<RunningChild>, code: int) {
    child.Some? && child.value.process.phase == Exited(code)
  }

  /** The row that a comparison selected: the worker alone writes the status while there is no child. */
  ghost predicate IsSnapshot(cell: Cell, row: Row) {
    && row == cell.row.(desired := row.desired, status := row.status)
    && row.clientId.Some?
    && (row.desired == WantStopped ==> cell.row.desired == WantStopped)
    && (cell.child.None? ==> row.status == cell.row.status)
  }

  ghost predicate AwaitInv(cell: Cell, nowUtc: int) {
    match cell.await
    case AtIdle => true
    case AtCompare(row) => IsSnapshot(cell, row)
    case AtStartCancel => cell.child.None? && IsStopWanted(cell.row, nowUtc)
    case AtWriteStopping => cell.child.Some? && IsStopChild(cell.child.value)
    case AtRestartInterruption(_, status) => cell.child.None? && cell.row.status == status && IsActive(status)
    case AtStartRun(status) => cell.child.None? && cell.row.status == status && IsActive(status)
    case AtWriteRunning => cell.child.Some? && !IsStopChild(cell.child.value)
    case AtRecordRestart => IsExitedRunChild(cell.child) && IsStopStepCode(cell.child.value.process.phase.code)
    case AtRecordStopped(_) => IsExitedStopChild(cell.child) && HasExitCode(cell.child, SUCCESS_EXIT_CODE)
    case AtRecordStopFailed => IsExitedStopChild(cell.child)
    case AtRecordPaperFailed(_) => IsExitedRunChild(cell.child) && HasExitCode(cell.child, PAPER_CHECK_FAILED_EXIT_CODE)
    case AtRecordGateway(_) => IsExitedRunChild(cell.child) && HasExitCode(cell.child, GATEWAY_UNREACHABLE_EXIT_CODE)
    case AtRecordGatewayInterruption(_) =>
      IsExitedRunChild(cell.child) && HasExitCode(cell.child, GATEWAY_UNREACHABLE_EXIT_CODE)
    case AtCrashInterruption(recordedAtUtc, crashCount) => IsCrashRecord(cell, recordedAtUtc, crashCount)
    case AtWriteCrash(recordedAtUtc, crashCount) => IsCrashRecord(cell, recordedAtUtc, crashCount)
  }

  ghost predicate IsCrashRecord(cell: Cell, recordedAtUtc: int, crashCount: nat) {
    && IsExitedRunChild(cell.child)
    && IsUnplannedCode(cell.child.value.process.phase.code)
    && crashCount == NextCrashCount(cell.row, cell.child.value, recordedAtUtc)
  }

  ghost predicate CellInv(cell: Cell, nowUtc: int) {
    && RowInv(cell, nowUtc)
    && CrashInv(cell)
    && LedgerInv(cell)
    && InterruptionInv(cell)
    && ChildInv(cell, nowUtc)
    && AwaitInv(cell, nowUtc)
  }

  // ---------------------------------------------------------------- every step keeps the invariant

  lemma NewCellInv(row: Row, nowUtc: int)
    requires row.status == Starting && row.clientId.Some? && row.crashCount == 0
    ensures CellInv(NewCell(row), nowUtc)
  {
  }

  lemma ClockKeepsInv(cell: Cell, earlierUtc: int, laterUtc: int)
    requires CellInv(cell, earlierUtc) && earlierUtc <= laterUtc
    ensures CellInv(cell, laterUtc)
  {
  }

  lemma WebStopKeepsInv(cell: Cell, nowUtc: int)
    requires CellInv(cell, nowUtc)
    ensures CellInv(AfterStep(cell, nowUtc, WebStops), nowUtc)
  {
  }

  lemma CompareKeepsInv(cell: Cell, nowUtc: int, isReadyToRun: bool)
    requires CellInv(cell, nowUtc) && cell.await.AtCompare?
    ensures CellInv(AfterStep(cell, nowUtc, WorkerCompares(isReadyToRun)), nowUtc)
  {
  }

  predicate IsChildWrite(event: ChildEvent) {
    event.WriteWait? || event.WriteWaitInterruption? || event.WriteLiveStart? || event.WriteInterruptionEnd?
  }

  predicate IsChildOrderStep(event: ChildEvent) { event.SendOrder? || event.PrepareSucceeds? || event.CancelSucceeds? }

  lemma ChildWriteKeepsInv(cell: Cell, nowUtc: int, event: ChildEvent)
    requires CellInv(cell, nowUtc) && IsEnabled(cell, ChildSteps(event)) && IsChildWrite(event)
    ensures CellInv(AfterChildEvent(cell, nowUtc, event), nowUtc)
  {
  }

  lemma ChildOrderStepKeepsInv(cell: Cell, nowUtc: int, event: ChildEvent)
    requires CellInv(cell, nowUtc) && IsEnabled(cell, ChildSteps(event)) && IsChildOrderStep(event)
    ensures CellInv(AfterChildEvent(cell, nowUtc, event), nowUtc)
  {
  }

  /** The other steps change only the phase of the child. */
  lemma ChildMoveKeepsInv(cell: Cell, nowUtc: int, event: ChildEvent)
    requires CellInv(cell, nowUtc) && IsEnabled(cell, ChildSteps(event)) && !IsChildWrite(event)
    requires !IsChildOrderStep(event)
    ensures CellInv(AfterChildEvent(cell, nowUtc, event), nowUtc)
  {
  }

  lemma ChildEventKeepsInv(cell: Cell, nowUtc: int, event: ChildEvent)
    requires CellInv(cell, nowUtc) && IsEnabled(cell, ChildSteps(event))
    ensures CellInv(AfterStep(cell, nowUtc, ChildSteps(event)), nowUtc)
  {
    assert AfterStep(cell, nowUtc, ChildSteps(event)) == AfterChildEvent(cell, nowUtc, event);
    if IsChildWrite(event) {
      ChildWriteKeepsInv(cell, nowUtc, event);
    } else if IsChildOrderStep(event) {
      ChildOrderStepKeepsInv(cell, nowUtc, event);
    } else {
      ChildMoveKeepsInv(cell, nowUtc, event);
    }
  }

  lemma CrashIsCounted(crashes: seq<Crash>, crash: Crash)
    ensures CountSinceLongRun(crashes + [crash])
         == if IsLongRun(crash.startedAtUtc, crash.recordedAtUtc) then 1 else CountSinceLongRun(crashes) + 1
  {
    assert (crashes + [crash])[..|crashes|] == crashes;
  }

  predicate IsCrashCall(await: Await) { await.AtCrashInterruption? || await.AtWriteCrash? }

  predicate IsStartCall(await: Await) {
    await.AtStartCancel? || await.AtRestartInterruption? || await.AtStartRun?
  }

  lemma EndRecordKeepsInv(cell: Cell, nowUtc: int)
    requires CellInv(cell, nowUtc) && FreesClientId(cell.await)
    ensures CellInv(AfterCall(cell, nowUtc), nowUtc)
  {
  }

  lemma CrashCallKeepsInv(cell: Cell, nowUtc: int)
    requires CellInv(cell, nowUtc) && IsCrashCall(cell.await)
    ensures CellInv(AfterCall(cell, nowUtc), nowUtc)
  {
    if cell.await.AtWriteCrash? {
      CrashIsCounted(cell.crashes, Crash(cell.child.value.startedAtUtc, cell.await.recordedAtUtc));
    }
  }

  lemma StartCallKeepsInv(cell: Cell, nowUtc: int)
    requires CellInv(cell, nowUtc) && IsStartCall(cell.await)
    ensures CellInv(AfterCall(cell, nowUtc), nowUtc)
  {
  }

  lemma OtherCallKeepsInv(cell: Cell, nowUtc: int)
    requires CellInv(cell, nowUtc) && IsCalling(cell.await)
    requires !FreesClientId(cell.await) && !IsCrashCall(cell.await) && !IsStartCall(cell.await)
    ensures CellInv(AfterCall(cell, nowUtc), nowUtc)
  {
  }

  lemma CallKeepsInv(cell: Cell, nowUtc: int)
    requires CellInv(cell, nowUtc) && IsCalling(cell.await)
    ensures CellInv(AfterCall(cell, nowUtc), nowUtc)
  {
    if FreesClientId(cell.await) {
      EndRecordKeepsInv(cell, nowUtc);
    } else if IsCrashCall(cell.await) {
      CrashCallKeepsInv(cell, nowUtc);
    } else if IsStartCall(cell.await) {
      StartCallKeepsInv(cell, nowUtc);
    } else {
      OtherCallKeepsInv(cell, nowUtc);
    }
  }

  lemma StepKeepsInv(cell: Cell, nowUtc: int, step: CellStep)
    requires CellInv(cell, nowUtc) && IsEnabled(cell, step)
    ensures CellInv(AfterStep(cell, nowUtc, step), nowUtc)
  {
    match step
    case WebStops => WebStopKeepsInv(cell, nowUtc);
    case WorkerSelects =>
    case WorkerCompares(isReadyToRun) => CompareKeepsInv(cell, nowUtc, isReadyToRun);
    case CallReturns => CallKeepsInv(cell, nowUtc);
    case CallFails =>
    case SplitRestart =>
    case ChildSteps(event) => ChildEventKeepsInv(cell, nowUtc, event);
  }

  lemma WorkerDeathKeepsInv(cell: Cell, nowUtc: int)
    requires CellInv(cell, nowUtc)
    ensures CellInv(AfterWorkerDeath(cell), nowUtc)
  {
  }
}
