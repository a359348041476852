/** The forward-test worker: the comparison of one row, up to the next awaited call, and the in-memory children. */
module ForwardTestWorker {
  import opened Sequences
  import opened ForwardTestStore

  const SUCCESS_EXIT_CODE := 0
  const FAILURE_EXIT_CODE := 1
  const PAPER_CHECK_FAILED_EXIT_CODE := 3
  const GATEWAY_UNREACHABLE_EXIT_CODE := 4
  const HELD_FILL_EXIT_CODE := 5
  const CRASH_LIMIT := 3
  /** 10 minutes in microseconds. */
  const CRASH_COUNT_RESET_AFTER := 600_000_000

  datatype ChildMode = RunMode | CancelOrdersMode

  /** Where a child process is in its steps. */
  datatype Phase =
    | ReadingRow
    | Preparing
    | WritingWait
    | WritingWaitInterruption
    | Waiting
    | WritingLiveStart
    | EndingInterruption
    | Live
    | Cancelling
    | Exited(code: int)

  datatype ChildProcess = ChildProcess(phase: Phase, isStopSignalled: bool)

  datatype RunningChild = RunningChild(process: ChildProcess, mode: ChildMode, startedAtUtc: int,
                                       isStopRequested: bool, isRestartRequested: bool)

  /** Where the worker is with one row: between two comparisons, or before an awaited call of the comparison. */
  datatype Await =
    | AtIdle
    | AtCompare(row: Row)
    | AtStartCancel
    | AtWriteStopping
    | AtRestartInterruption(startedAtUtc: int, status: Status)
    | AtStartRun(status: Status)
    | AtWriteRunning
    | AtRecordRestart
    | AtRecordStopped(stoppedAtUtc: int)
    | AtRecordStopFailed
    | AtRecordPaperFailed(stoppedAtUtc: int)
    | AtRecordGateway(startedAtUtc: int)
    | AtRecordGatewayInterruption(startedAtUtc: int)
    | AtCrashInterruption(recordedAtUtc: int, crashCount: nat)
    | AtWriteCrash(recordedAtUtc: int, crashCount: nat)

  predicate IsStopChild(child: RunningChild) {
    child.mode == CancelOrdersMode || child.isStopRequested
  }

  function SignalStop(child: RunningChild): RunningChild {
    child.(process := child.process.(isStopSignalled := true))
  }

  predicate IsRestartable(child: RunningChild) {
    child.mode == RunMode && !child.isStopRequested
  }

  function AskRestart(child: RunningChild): RunningChild {
    if IsRestartable(child) then SignalStop(child).(isRestartRequested := true) else child
  }

  function NewChild(mode: ChildMode, nowUtc: int): RunningChild {
    RunningChild(ChildProcess(ReadingRow, false), mode, nowUtc, false, false)
  }

  predicate IsLongRun(startedAtUtc: int, recordedAtUtc: int) {
    recordedAtUtc - startedAtUtc >= CRASH_COUNT_RESET_AFTER
  }

  function NextCrashCount(row: Row, child: RunningChild, nowUtc: int): nat {
    if IsLongRun(child.startedAtUtc, nowUtc) then 1 else row.crashCount + 1
  }

  function CrashStatus(crashCount: nat): Status {
    if crashCount >= CRASH_LIMIT then Failed else Starting
  }

  // ---------------------------------------------------------------- the decisions of one comparison

  function StartChildWhenNeeded(row: Row, nowUtc: int, isReadyToRun: bool): Await {
    if IsStopWanted(row, nowUtc) then
      if row.clientId.Some? then AtStartCancel else AtIdle
    else if !IsActive(row.status) || !isReadyToRun then
      AtIdle
    else if row.status == Running then
      AtRestartInterruption(nowUtc, row.status)
    else
      AtStartRun(row.status)
  }

  function RecordChildEnd(row: Row, child: RunningChild, nowUtc: int, exitCode: int): Await {
    if child.isRestartRequested && (exitCode == SUCCESS_EXIT_CODE || exitCode == HELD_FILL_EXIT_CODE)
       && !child.isStopRequested then
      AtRecordRestart
    else if IsStopChild(child) then
      if exitCode == SUCCESS_EXIT_CODE then AtRecordStopped(nowUtc) else AtRecordStopFailed
    else if exitCode == PAPER_CHECK_FAILED_EXIT_CODE then
      AtRecordPaperFailed(nowUtc)
    else if exitCode == GATEWAY_UNREACHABLE_EXIT_CODE then
      AtRecordGateway(nowUtc)
    else
      AtCrashInterruption(nowUtc, NextCrashCount(row, child, nowUtc))
  }

  predicate IsStopRequestDue(row: Row, child: RunningChild, nowUtc: int) {
    !child.process.phase.Exited? && IsStopWanted(row, nowUtc) && IsRestartable(child)
  }

  function NextAwait(row: Row, child: Option<RunningChild>, nowUtc: int, isReadyToRun: bool): Await {
    if child.None? then
      StartChildWhenNeeded(row, nowUtc, isReadyToRun)
    else if child.value.process.phase.Exited? then
      RecordChildEnd(row, child.value, nowUtc, child.value.process.phase.code)
    else if IsStopRequestDue(row, child.value, nowUtc) then
      AtWriteStopping
    else
      AtIdle
  }

  function ComparedChild(row: Row, child: Option<RunningChild>, nowUtc: int): Option<RunningChild> {
    if child.Some? && IsStopRequestDue(row, child.value, nowUtc)
    then Some(SignalStop(child.value).(isStopRequested := true))
    else child
  }

  function Find(children: map<int, RunningChild>, id: int): Option<RunningChild> {
    if id in children then Some(children[id]) else None
  }

  /** The call starts a run child, at once or after an interruption. */
  predicate IsRunStart(await: Await) { await.AtStartRun? || await.AtRestartInterruption? }

  /** The stock split restart ended as planned. */
  predicate IsPlannedEnd(child: RunningChild, exitCode: int) {
    child.isRestartRequested && !child.isStopRequested && exitCode in {SUCCESS_EXIT_CODE, HELD_FILL_EXIT_CODE}
  }

  /** The exit code after which the client ID is free: the stop succeeded, or the paper account check failed. */
  function FreeingCode(child: RunningChild): int {
    if IsStopChild(child) then SUCCESS_EXIT_CODE else PAPER_CHECK_FAILED_EXIT_CODE
  }

  predicate FreesClientId(await: Await) { await.AtRecordStopped? || await.AtRecordPaperFailed? }

  predicate IsEndRecord(await: Await) {
    || FreesClientId(await) || await == AtRecordRestart || await == AtRecordStopFailed
    || await.AtRecordGateway? || await.AtCrashInterruption?
  }

  class Worker {
    var runningChildren: map<int, RunningChild>

    constructor ()
      ensures runningChildren == map[]
    {
      runningChildren := map[];
    }

    /**
     * Each running run child without a stop request gets the stop signal and the restart mark. Nothing else changes.
     */
    method RequestRestart(ids: seq<int>)
      modifies this
      ensures runningChildren.Keys == old(runningChildren.Keys)
      ensures forall id <- runningChildren ::
                runningChildren[id] == if id in ids then AskRestart(old(runningChildren)[id])
                                       else old(runningChildren)[id]
    {
      for k := 0 to |ids|
        invariant runningChildren.Keys == old(runningChildren.Keys)
        invariant forall id <- runningChildren ::
                    runningChildren[id] == if id in ids[..k] then AskRestart(old(runningChildren)[id])
                                           else old(runningChildren)[id]
      {
        var id := ids[k];
        if id in runningChildren {
          var child := runningChildren[id];
          if child.mode == RunMode && !child.isStopRequested {
            child := child.(process := child.process.(isStopSignalled := true));
            child := child.(isRestartRequested := true);
            runningChildren := runningChildren[id := child];
          }
        }
        TakeNext(ids, k);
      }
      assert ids[..|ids|] == ids;
    }

    /** The comparison of one row up to its first awaited call. Only the flags of the child of the row can change. */
    method CompareRow(id: int, row: Row, nowUtc: int, isReadyToRun: bool) returns (next: Await)
      modifies this
      ensures next == NextAwait(row, old(Find(runningChildren, id)), nowUtc, isReadyToRun)
      ensures Find(runningChildren, id) == ComparedChild(row, old(Find(runningChildren, id)), nowUtc)
      ensures forall other :: other != id ==> Find(runningChildren, other) == old(Find(runningChildren, other))
    {
      if id !in runningChildren {
        next := DecideStart(row, nowUtc, isReadyToRun);
        return;
      }
      var child := runningChildren[id];
      if child.process.phase.Exited? {
        next := DecideEnd(row, child, nowUtc, child.process.phase.code);
        return;
      }
      if IsStopWanted(row, nowUtc) && child.mode == RunMode && !child.isStopRequested {
        child := child.(process := child.process.(isStopSignalled := true));
        child := child.(isStopRequested := true);
        runningChildren := runningChildren[id := child];
        return AtWriteStopping;
      }
      return AtIdle;
    }

    /** A row without a child: a wanted stop goes first, then the start or the restart. */
    method DecideStart(row: Row, nowUtc: int, isReadyToRun: bool) returns (next: Await)
      ensures next.AtStartCancel? <==> IsStopWanted(row, nowUtc) && row.clientId.Some?
      ensures IsRunStart(next) <==> !IsStopWanted(row, nowUtc) && IsActive(row.status) && isReadyToRun
      ensures IsRunStart(next) ==> next.status == row.status && (next.AtRestartInterruption? <==> row.status == Running)
      ensures next.AtRestartInterruption? ==> next.startedAtUtc == nowUtc
      ensures !next.AtStartCancel? && !IsRunStart(next) ==> next == AtIdle
    {
      if IsStopWanted(row, nowUtc) {
        if row.clientId.Some? {
          return AtStartCancel;
        }
        return AtIdle;
      }
      if row.status !in {Starting, Running, WaitingForGateway} || !isReadyToRun {
        return AtIdle;
      }
      if row.status == Running {
        return AtRestartInterruption(nowUtc, row.status);
      }
      return AtStartRun(row.status);
    }

    /** Which ends start the child again, stop the test, fail it, wait for the gateway, or count as a crash. */
    method DecideEnd(row: Row, child: RunningChild, nowUtc: int, exitCode: int) returns (next: Await)
      ensures next == AtRecordRestart <==> IsPlannedEnd(child, exitCode)
      ensures FreesClientId(next) <==> !IsPlannedEnd(child, exitCode) && exitCode == FreeingCode(child)
      ensures next.AtRecordPaperFailed? ==> !IsStopChild(child)
      ensures next == AtRecordStopFailed
         <==> IsStopChild(child) && exitCode != SUCCESS_EXIT_CODE && !IsPlannedEnd(child, exitCode)
      ensures next.AtRecordStopped? || next == AtRecordStopFailed ==> IsStopChild(child)
      ensures next.AtRecordGateway? ==>
                next.startedAtUtc == nowUtc && !IsStopChild(child) && exitCode == GATEWAY_UNREACHABLE_EXIT_CODE
      ensures FreesClientId(next) ==> next.stoppedAtUtc == nowUtc
      ensures next.AtCrashInterruption? <==>
                !IsPlannedEnd(child, exitCode) && !IsStopChild(child)
                && exitCode !in {PAPER_CHECK_FAILED_EXIT_CODE, GATEWAY_UNREACHABLE_EXIT_CODE}
      ensures next.AtCrashInterruption? ==>
                next.recordedAtUtc == nowUtc
                && next.crashCount == if IsLongRun(child.startedAtUtc, nowUtc) then 1 else row.crashCount + 1
      ensures IsEndRecord(next)
    {
      if child.isRestartRequested && exitCode in {SUCCESS_EXIT_CODE, HELD_FILL_EXIT_CODE} && !child.isStopRequested {
        return AtRecordRestart;
      }
      var isStop := child.mode == CancelOrdersMode || child.isStopRequested;
      if isStop && exitCode == SUCCESS_EXIT_CODE {
        return AtRecordStopped(nowUtc);
      }
      if isStop {
        return AtRecordStopFailed;
      }
      if exitCode == PAPER_CHECK_FAILED_EXIT_CODE {
        return AtRecordPaperFailed(nowUtc);
      }
      if exitCode == GATEWAY_UNREACHABLE_EXIT_CODE {
        return AtRecordGateway(nowUtc);
      }
      var isNewCount := nowUtc - child.startedAtUtc >= CRASH_COUNT_RESET_AFTER;
      var crashCount: nat := if isNewCount then 1 else row.crashCount + 1;
      return AtCrashInterruption(nowUtc, crashCount);
    }

    method StartRunningChild(id: int, mode: ChildMode, nowUtc: int)
      modifies this
      ensures runningChildren == old(runningChildren)[id := NewChild(mode, nowUtc)]
    {
      runningChildren := runningChildren[id := RunningChild(ChildProcess(ReadingRow, false), mode,
                                                            nowUtc, false, false)];
    }

    /** After the end of the child is recorded. */
    method ForgetChild(id: int)
      modifies this
      ensures runningChildren == old(runningChildren) - {id}
    {
      runningChildren := runningChildren - {id};
    }
  }
}
