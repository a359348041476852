/** The status of a forward test while its child waits for IB Gateway. */
module ForwardTestWaits {
  import opened Sequences
  import opened ForwardTestStore
  import opened ForwardTestWorker
  import opened ForwardTestProtocol
  import opened ForwardTestRuns
  import opened ForwardTestLaws

  /** A run child without a stop request that has written its wait, and has not tried the connection again. */
  predicate IsWaitingChild(cell: Cell) {
    && cell.child.Some? && !IsStopChild(cell.child.value)
    && (cell.child.value.process.phase == WritingWaitInterruption || cell.child.value.process.phase == Waiting)
  }

  /** The write of "running" by the worker returns. */
  predicate IsRunningWrite(cell: Cell, step: CellStep) { step == CallReturns && cell.await.AtWriteRunning? }

  /** Only the write of the wait and the write of "running" change the status of a row whose child waits. */
  lemma StepOfWaitingChild(cell: Cell, nowUtc: int, step: CellStep)
    requires CellInv(cell, nowUtc) && IsEnabled(cell, step) && IsWaitingChild(AfterStep(cell, nowUtc, step))
    ensures step == ChildSteps(WriteWait) || IsWaitingChild(cell)
    ensures AfterStep(cell, nowUtc, step).row.status
         == if step == ChildSteps(WriteWait) then WaitingForGateway
            else if IsRunningWrite(cell, step) then Running
            else cell.row.status
  {
    if step.CallReturns? {
      CallOfWaitingChild(cell, nowUtc);
    } else if step.ChildSteps? {
      ChildStepOfWaitingChild(cell, nowUtc, step.event);
    }
  }

  lemma CallOfWaitingChild(cell: Cell, nowUtc: int)
    requires CellInv(cell, nowUtc) && IsCalling(cell.await) && IsWaitingChild(AfterCall(cell, nowUtc))
    ensures IsWaitingChild(cell)
    ensures AfterCall(cell, nowUtc).row.status == if cell.await.AtWriteRunning? then Running else cell.row.status
  {
  }

  lemma ChildStepOfWaitingChild(cell: Cell, nowUtc: int, event: ChildEvent)
    requires CellInv(cell, nowUtc) && IsEnabled(cell, ChildSteps(event))
    requires IsWaitingChild(AfterChildEvent(cell, nowUtc, event))
    ensures event == WriteWait || IsWaitingChild(cell)
    ensures AfterChildEvent(cell, nowUtc, event).row.status
         == if event == WriteWait then WaitingForGateway else cell.row.status
  {
  }

  // ---------------------------------------------------------------- over every run

  /** In step `m` a write of "running" returned for the row. */
  ghost predicate IsRunningWriteStep(states: seq<System>, steps: seq<SystemStep>, index: nat, m: nat)
    requires |steps| < |states|
  {
    && m < |steps| && index < |states[m].cells| && steps[m] == RowSteps(index, CallReturns)
    && states[m].cells[index].await.AtWriteRunning?
  }

  /** In step `m` a write of "running" returned, and no child of the row wrote its wait from then up to step `k`. */
  ghost predicate IsOverwrite(states: seq<System>, steps: seq<SystemStep>, index: nat, m: nat, k: nat)
    requires k <= |steps| < |states|
  {
    && m < k && IsRunningWriteStep(states, steps, index, m)
    && forall n :: m < n < k ==> steps[n] != RowSteps(index, ChildSteps(WriteWait))
  }

  ghost predicate HasOverwrite(states: seq<System>, steps: seq<SystemStep>, index: nat, k: nat)
    requires k <= |steps| < |states|
  {
    exists m :: IsOverwrite(states, steps, index, m, k)
  }

  lemma NextOverwrite(states: seq<System>, steps: seq<SystemStep>, index: nat, k: nat)
    requires k < |steps| < |states|
    ensures HasOverwrite(states, steps, index, k + 1)
       <==> IsRunningWriteStep(states, steps, index, k)
            || (HasOverwrite(states, steps, index, k) && steps[k] != RowSteps(index, ChildSteps(WriteWait)))
  {
    if IsRunningWriteStep(states, steps, index, k) {
      assert IsOverwrite(states, steps, index, k, k + 1);
    } else if HasOverwrite(states, steps, index, k) && steps[k] != RowSteps(index, ChildSteps(WriteWait)) {
      var m :| IsOverwrite(states, steps, index, m, k);
      assert IsOverwrite(states, steps, index, m, k + 1);
    }
    if HasOverwrite(states, steps, index, k + 1) && !IsRunningWriteStep(states, steps, index, k) {
      var m :| IsOverwrite(states, steps, index, m, k + 1);
      assert IsOverwrite(states, steps, index, m, k);
    }
  }

  /** What holds of a row whose child waits: its status, by whether the worker wrote "running" after the wait. */
  ghost predicate HasWaitStatus(status: Status, isOverwritten: bool) {
    status == if isOverwritten then Running else WaitingForGateway
  }

  lemma StepKeepsWaitStatus(states: seq<System>, steps: seq<SystemStep>, index: nat, k: nat)
    requires IsRun(states, steps) && k < |steps| && index < |states[k].cells|
    requires IsWaitingChild(states[k].cells[index]) ==>
               HasWaitStatus(states[k].cells[index].row.status, HasOverwrite(states, steps, index, k))
    ensures index < |states[k + 1].cells|
    ensures IsWaitingChild(states[k + 1].cells[index]) ==>
              HasWaitStatus(states[k + 1].cells[index].row.status, HasOverwrite(states, steps, index, k + 1))
  {
    RunKeepsInv(states, steps, k);
    assert IsRunStep(states, steps, k);
    NextOverwrite(states, steps, index, k);
    if IsWaitingChild(states[k + 1].cells[index]) && steps[k].RowSteps? && steps[k].index == index {
      StepOfWaitingChild(states[k].cells[index], states[k].nowUtc, steps[k].step);
    }
  }

  /**
   * While a child waits for IB Gateway, the status is "running" exactly when the worker's write
   * of "running" returned after the child wrote its wait, and else "waiting_for_gateway".
   */
  lemma {:induction false} WaitStatus(states: seq<System>, steps: seq<SystemStep>, index: nat, k: nat)
    requires IsRun(states, steps) && k < |states| && index < |states[k].cells|
    ensures IsWaitingChild(states[k].cells[index]) ==>
              HasWaitStatus(states[k].cells[index].row.status, HasOverwrite(states, steps, index, k))
    decreases k
  {
    if k > 0 {
      assert IsRunStep(states, steps, k - 1);
      if index < |states[k - 1].cells| {
        WaitStatus(states, steps, index, k - 1);
        StepKeepsWaitStatus(states, steps, index, k - 1);
      }
    }
  }
}
