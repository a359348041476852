/**
 * A wanted stop ends a forward test after a bounded number of steps, when its calls return and its child does not fail.
 */
module ForwardTestEnds {
  import opened Sequences
  import opened ForwardTestStore
  import opened ForwardTestWorker
  import opened ForwardTestProtocol
  import opened ForwardTestRuns
  import opened ForwardTestLaws

  // ---------------------------------------------------------------- the schedule

  /** The next step of a child that does not fail and that has its stop signal, or that cancels the orders. */
  function NextEvent(phase: Phase): ChildEvent
    requires !phase.Exited?
  {
    match phase
    case ReadingRow => ReadRow
    case Preparing => PrepareSucceeds
    case WritingWait => WriteWait
    case WritingWaitInterruption => WriteWaitInterruption
    case Waiting => StopEndsWait
    case WritingLiveStart => WriteLiveStart
    case EndingInterruption => WriteInterruptionEnd
    case Live => LiveNodeEnds(false)
    case Cancelling => CancelSucceeds
  }

  predicate IsLiveStopChild(child: Option<RunningChild>) {
    child.Some? && IsStopChild(child.value) && !child.value.process.phase.Exited?
  }

  /** Each call returns, a child that stops goes on, and the worker compares the row whenever it waits for neither. */
  function NextStep(cell: Cell): CellStep {
    if IsCalling(cell.await) then CallReturns
    else if cell.await.AtCompare? then WorkerCompares(true)
    else if IsLiveStopChild(cell.child) then ChildSteps(NextEvent(cell.child.value.process.phase))
    else WorkerSelects
  }

  /** The schedule clears the client ID with this status after at most `count` steps. */
  predicate EndsAs(cell: Cell, nowUtc: int, count: nat, status: Status)
    decreases count
  {
    || (cell.row.clientId.None? && cell.row.status == status)
    || (count > 0 && IsEnabled(cell, NextStep(cell))
        && EndsAs(AfterStep(cell, nowUtc, NextStep(cell)), nowUtc, count - 1, status))
  }

  // ---------------------------------------------------------------- the number of steps

  /** The steps of a child with a stop up to its exit. */
  function StepsToExit(child: RunningChild): nat {
    match child.process.phase
    case ReadingRow => if child.mode == CancelOrdersMode then 2 else 6
    case Preparing => 5
    case WritingWait => 4
    case WritingWaitInterruption => 3
    case Waiting => 2
    case WritingLiveStart => 4
    case EndingInterruption => 3
    case Live => 2
    case Cancelling => 1
    case Exited(_) => 0
  }

  /** The steps from a worker between 2 comparisons. */
  function IdleSteps(child: Option<RunningChild>): nat {
    if child.None? then 9
    else
      var phase := child.value.process.phase;
      if IsStopChild(child.value) then
        if phase.Exited? && phase.code != SUCCESS_EXIT_CODE then 12 else 3 + StepsToExit(child.value)
      else if !phase.Exited? then 12
      else if phase.code == PAPER_CHECK_FAILED_EXIT_CODE then 3
      else 13
  }

  function StepsLeft(cell: Cell, nowUtc: int): nat {
    match cell.await
    case AtIdle => IdleSteps(cell.child)
    case AtCompare(row) =>
      if !IsStopWanted(row, nowUtc) then 16
      else if IsLiveStopChild(cell.child) then IdleSteps(cell.child) + 1
      else IdleSteps(cell.child) - 1
    case AtStartCancel => 7
    case AtWriteStopping => 1 + IdleSteps(cell.child)
    case AtRestartInterruption(_, _) => 15
    case AtStartRun(_) => 14
    case AtWriteRunning => 1 + IdleSteps(cell.child)
    case AtRecordRestart => 10
    case AtRecordStopped(_) => 1
    case AtRecordStopFailed => 10
    case AtRecordPaperFailed(_) => 1
    case AtRecordGateway(_) => 11
    case AtRecordGatewayInterruption(_) => 10
    case AtCrashInterruption(_, _) => 11
    case AtWriteCrash(_, _) => 10
  }

  /** A run child whose paper account check failed ends the test as failed. */
  function EndStatus(cell: Cell): Status {
    if cell.child.Some? && !IsStopChild(cell.child.value) && HasExitCode(cell.child, PAPER_CHECK_FAILED_EXIT_CODE)
    then Failed else Stopped
  }

  predicate IsCloser(cell: Cell, next: Cell, nowUtc: int) {
    if next.row.clientId.None? then next.row.status == EndStatus(cell)
    else StepsLeft(next, nowUtc) < StepsLeft(cell, nowUtc) && EndStatus(next) == EndStatus(cell)
  }

  ghost predicate IsEnding(cell: Cell, nowUtc: int) {
    CellInv(cell, nowUtc) && IsStopWanted(cell.row, nowUtc) && cell.row.clientId.Some?
  }

  lemma SelectIsCloser(cell: Cell, nowUtc: int)
    requires IsEnding(cell, nowUtc) && cell.await.AtIdle? && !IsLiveStopChild(cell.child)
    ensures IsEnabled(cell, WorkerSelects) && IsCloser(cell, AfterStep(cell, nowUtc, WorkerSelects), nowUtc)
  {
  }

  lemma ChildStepIsCloser(cell: Cell, nowUtc: int)
    requires IsEnding(cell, nowUtc) && cell.await.AtIdle? && IsLiveStopChild(cell.child)
    ensures var step := ChildSteps(NextEvent(cell.child.value.process.phase));
      IsEnabled(cell, step) && IsCloser(cell, AfterStep(cell, nowUtc, step), nowUtc)
  {
  }

  lemma FreshCompareIsCloser(cell: Cell, nowUtc: int)
    requires IsEnding(cell, nowUtc) && cell.await.AtCompare? && IsStopWanted(cell.await.row, nowUtc)
    ensures IsCloser(cell, AfterStep(cell, nowUtc, WorkerCompares(true)), nowUtc)
  {
  }

  lemma StaleCompareIsCloser(cell: Cell, nowUtc: int)
    requires IsEnding(cell, nowUtc) && cell.await.AtCompare? && !IsStopWanted(cell.await.row, nowUtc)
    ensures IsCloser(cell, AfterStep(cell, nowUtc, WorkerCompares(true)), nowUtc)
  {
  }

  lemma StartCallIsCloser(cell: Cell, nowUtc: int)
    requires IsEnding(cell, nowUtc) && IsStartCall(cell.await)
    ensures IsCloser(cell, AfterCall(cell, nowUtc), nowUtc)
  {
  }

  lemma EndCallIsCloser(cell: Cell, nowUtc: int)
    requires IsEnding(cell, nowUtc) && FreesClientId(cell.await)
    ensures IsCloser(cell, AfterCall(cell, nowUtc), nowUtc)
  {
  }

  lemma StatusWriteIsCloser(cell: Cell, nowUtc: int)
    requires IsEnding(cell, nowUtc) && (cell.await.AtWriteStopping? || cell.await.AtWriteRunning?)
    ensures IsCloser(cell, AfterCall(cell, nowUtc), nowUtc)
  {
  }

  lemma CrashCallIsCloser(cell: Cell, nowUtc: int)
    requires IsEnding(cell, nowUtc) && IsCrashCall(cell.await)
    ensures IsCloser(cell, AfterCall(cell, nowUtc), nowUtc)
  {
  }

  lemma OtherCallIsCloser(cell: Cell, nowUtc: int)
    requires IsEnding(cell, nowUtc) && IsCalling(cell.await) && !IsStartCall(cell.await) && !FreesClientId(cell.await)
    requires !IsCrashCall(cell.await) && !cell.await.AtWriteStopping? && !cell.await.AtWriteRunning?
    ensures IsCloser(cell, AfterCall(cell, nowUtc), nowUtc)
  {
  }

  lemma CallIsCloser(cell: Cell, nowUtc: int)
    requires IsEnding(cell, nowUtc) && IsCalling(cell.await)
    ensures IsCloser(cell, AfterCall(cell, nowUtc), nowUtc)
  {
    if IsStartCall(cell.await) {
      StartCallIsCloser(cell, nowUtc);
    } else if FreesClientId(cell.await) {
      EndCallIsCloser(cell, nowUtc);
    } else if IsCrashCall(cell.await) {
      CrashCallIsCloser(cell, nowUtc);
    } else if cell.await.AtWriteStopping? || cell.await.AtWriteRunning? {
      StatusWriteIsCloser(cell, nowUtc);
    } else {
      OtherCallIsCloser(cell, nowUtc);
    }
  }

  lemma NextIsCloser(cell: Cell, nowUtc: int)
    requires IsEnding(cell, nowUtc)
    ensures IsEnabled(cell, NextStep(cell)) && IsCloser(cell, AfterStep(cell, nowUtc, NextStep(cell)), nowUtc)
  {
    if IsCalling(cell.await) {
      CallIsCloser(cell, nowUtc);
    } else if cell.await.AtCompare? {
      if IsStopWanted(cell.await.row, nowUtc) {
        FreshCompareIsCloser(cell, nowUtc);
      } else {
        StaleCompareIsCloser(cell, nowUtc);
      }
    } else if IsLiveStopChild(cell.child) {
      ChildStepIsCloser(cell, nowUtc);
    } else {
      SelectIsCloser(cell, nowUtc);
    }
  }

  lemma {:induction false} EndsInSteps(cell: Cell, nowUtc: int, count: nat)
    requires IsEnding(cell, nowUtc) && StepsLeft(cell, nowUtc) <= count
    ensures EndsAs(cell, nowUtc, count, EndStatus(cell))
    decreases count
  {
    NextIsCloser(cell, nowUtc);
    var next := AfterStep(cell, nowUtc, NextStep(cell));
    if next.row.clientId.Some? {
      StepKeepsInv(cell, nowUtc, NextStep(cell));
      WantedStopStays(cell, nowUtc, NextStep(cell));
      EndsInSteps(next, nowUtc, count - 1);
    }
  }

  /**
   * From any point of any run after a stop or the end time, at most 16 steps of the
   * schedule end the test. It stops, or fails when its paper account check had failed.
   */
  lemma WantedStopEnds(states: seq<System>, steps: seq<SystemStep>, k: nat, index: nat)
    requires IsRun(states, steps) && k < |states| && index < |states[k].cells|
    requires IsStopWanted(states[k].cells[index].row, states[k].nowUtc) && states[k].cells[index].row.clientId.Some?
    ensures EndsAs(states[k].cells[index], states[k].nowUtc, 16, EndStatus(states[k].cells[index]))
  {
    RunKeepsInv(states, steps, k);
    EndsInSteps(states[k].cells[index], states[k].nowUtc, 16);
  }
}
