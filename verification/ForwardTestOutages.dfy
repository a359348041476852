/** What the status and the interruptions of a forward test say about its child, and what caused each interruption. */
module ForwardTestOutages {
  import opened Sequences
  import opened ForwardTestStore
  import opened ForwardTestWorker
  import opened ForwardTestProtocol
  import opened ForwardTestRuns
  import opened ForwardTestLaws

  // ---------------------------------------------------------------- a live child and a waiting child

  predicate IsIn(child: Option<RunningChild>, phase: Phase) { child.Some? && child.value.process.phase == phase }

  /** The row of a live child: "running" unless a stop came, and no open interruption. */
  ghost predicate LiveInv(cell: Cell) {
    && ((IsIn(cell.child, EndingInterruption) || IsIn(cell.child, Live)) && !IsStopChild(cell.child.value) ==>
          cell.row.status == Running)
    && (IsIn(cell.child, Live) ==> !HasOpen(cell.interruptions))
  }

  /** An open interruption while a child waits for IB Gateway, and before a child of a row that was running starts. */
  ghost predicate DownInv(cell: Cell) {
    && (IsIn(cell.child, Waiting) ==> HasOpen(cell.interruptions))
    && (cell.await == AtStartRun(Running) ==> HasOpen(cell.interruptions))
  }

  lemma CallKeepsLive(cell: Cell, nowUtc: int)
    requires CellInv(cell, nowUtc) && LiveInv(cell) && DownInv(cell) && IsCalling(cell.await)
    ensures LiveInv(AfterCall(cell, nowUtc)) && DownInv(AfterCall(cell, nowUtc))
  {
  }

  lemma ChildKeepsLive(cell: Cell, nowUtc: int, event: ChildEvent)
    requires CellInv(cell, nowUtc) && LiveInv(cell) && DownInv(cell) && IsEnabled(cell, ChildSteps(event))
    ensures LiveInv(AfterChildEvent(cell, nowUtc, event)) && DownInv(AfterChildEvent(cell, nowUtc, event))
  {
  }

  lemma StepKeepsLive(cell: Cell, nowUtc: int, step: CellStep)
    requires CellInv(cell, nowUtc) && LiveInv(cell) && DownInv(cell) && IsEnabled(cell, step)
    ensures LiveInv(AfterStep(cell, nowUtc, step)) && DownInv(AfterStep(cell, nowUtc, step))
  {
    if step.CallReturns? {
      CallKeepsLive(cell, nowUtc);
    } else if step.ChildSteps? {
      ChildKeepsLive(cell, nowUtc, step.event);
    }
  }

  lemma {:induction false} RunKeepsLive(states: seq<System>, steps: seq<SystemStep>, k: nat, index: nat)
    requires IsRun(states, steps) && k < |states| && index < |states[k].cells|
    ensures LiveInv(states[k].cells[index]) && DownInv(states[k].cells[index])
    decreases k
  {
    if k > 0 {
      assert IsRunStep(states, steps, k - 1);
      RunKeepsInv(states, steps, k - 1);
      if index < |states[k - 1].cells| {
        RunKeepsLive(states, steps, k - 1, index);
        if steps[k - 1].RowSteps? && steps[k - 1].index == index {
          StepKeepsLive(states[k - 1].cells[index], states[k - 1].nowUtc, steps[k - 1].step);
        }
      }
    }
  }

  /** While a child is live, the test has no open interruption, and it is "running" unless a stop came. */
  lemma LiveChildIsRunning(states: seq<System>, steps: seq<SystemStep>, k: nat, index: nat)
    requires IsRun(states, steps) && k < |states| && index < |states[k].cells|
    requires IsIn(states[k].cells[index].child, Live)
    ensures !HasOpen(states[k].cells[index].interruptions)
    ensures if IsStopChild(states[k].cells[index].child.value)
            then IsStopWanted(states[k].cells[index].row, states[k].nowUtc)
            else states[k].cells[index].row.status == Running
  {
    RunKeepsLive(states, steps, k, index);
    RunKeepsInv(states, steps, k);
    assert CellInv(states[k].cells[index], states[k].nowUtc);
  }

  /** A wait for IB Gateway, and the downtime of the worker before a restarted child, are in an open interruption. */
  lemma DowntimeIsRecorded(states: seq<System>, steps: seq<SystemStep>, k: nat, index: nat)
    requires IsRun(states, steps) && k < |states| && index < |states[k].cells|
    requires IsIn(states[k].cells[index].child, Waiting) || states[k].cells[index].await == AtStartRun(Running)
    ensures HasOpen(states[k].cells[index].interruptions)
  {
    RunKeepsLive(states, steps, k, index);
  }

  // ---------------------------------------------------------------- the cause of each interruption

  /** What opens an interruption: a wait of the child, a lost gateway, a crash, or a running row without a child. */
  predicate IsCause(cell: Cell, nowUtc: int, step: CellStep, reason: InterruptionReason, startedAtUtc: int) {
    match reason
    case GatewayReason =>
      (step == ChildSteps(WriteWaitInterruption) && startedAtUtc == nowUtc)
      || (step == CallReturns && cell.await == AtRecordGatewayInterruption(startedAtUtc))
    case CrashReason =>
      step == CallReturns && cell.await.AtCrashInterruption? && cell.await.recordedAtUtc == startedAtUtc
    case WorkerRestartReason =>
      step == CallReturns && cell.await == AtRestartInterruption(startedAtUtc, Running) && cell.child.None?
  }

  /** What ends the open one: the live start of the child, or the end of the test. */
  predicate IsRelief(cell: Cell, nowUtc: int, step: CellStep, endedAtUtc: int) {
    || (step == ChildSteps(WriteInterruptionEnd) && endedAtUtc == nowUtc)
    || (step == CallReturns && FreesClientId(cell.await) && cell.await.stoppedAtUtc == endedAtUtc)
  }

  predicate HasRelief(cell: Cell, step: CellStep) {
    step == ChildSteps(WriteInterruptionEnd) || (step == CallReturns && FreesClientId(cell.await))
  }

  predicate HasCause(cell: Cell, step: CellStep) {
    || step == ChildSteps(WriteWaitInterruption)
    || (step == CallReturns && (cell.await.AtRecordGatewayInterruption? || cell.await.AtCrashInterruption?
                                || cell.await.AtRestartInterruption?))
  }

  ghost predicate IsOpenedBy(cell: Cell, nowUtc: int, step: CellStep, before: seq<Interruption>,
                             after: seq<Interruption>) {
    && |after| == |before| + 1 && after[..|before|] == before
    && after[|before|].endedAtUtc.None?
    && IsCause(cell, nowUtc, step, after[|before|].reason, after[|before|].startedAtUtc)
  }

  ghost predicate IsEndedBy(cell: Cell, nowUtc: int, step: CellStep, before: seq<Interruption>,
                            after: seq<Interruption>) {
    && |after| == |before|
    && forall i :: 0 <= i < |after| ==>
         && after[i].reason == before[i].reason && after[i].startedAtUtc == before[i].startedAtUtc
         && (before[i].endedAtUtc.Some? ==> after[i] == before[i])
         && (before[i].endedAtUtc.None? ==>
               after[i].endedAtUtc.Some? && IsRelief(cell, nowUtc, step, after[i].endedAtUtc.value))
  }

  /** A restarted child is one of a row that the worker found running. */
  ghost predicate RestartInv(cell: Cell) {
    cell.await.AtRestartInterruption? ==> cell.await.status == Running
  }

  /** A step opens an interruption exactly when it has a cause and none is open, and ends it exactly by a relief. */
  lemma StepChangesInterruptions(cell: Cell, nowUtc: int, step: CellStep)
    requires CellInv(cell, nowUtc) && RestartInv(cell) && IsEnabled(cell, step)
    ensures RestartInv(AfterStep(cell, nowUtc, step))
    ensures var before, after := cell.interruptions, AfterStep(cell, nowUtc, step).interruptions;
      if HasRelief(cell, step) then IsEndedBy(cell, nowUtc, step, before, after)
      else if HasCause(cell, step) && !HasOpen(before) then IsOpenedBy(cell, nowUtc, step, before, after)
      else after == before
  {
    if step.CallReturns? {
      CallChangesInterruptions(cell, nowUtc);
    } else if step.ChildSteps? {
      ChildChangesInterruptions(cell, nowUtc, step.event);
    }
  }

  lemma CallChangesInterruptions(cell: Cell, nowUtc: int)
    requires CellInv(cell, nowUtc) && RestartInv(cell) && IsCalling(cell.await)
    ensures RestartInv(AfterCall(cell, nowUtc))
    ensures var before, after := cell.interruptions, AfterCall(cell, nowUtc).interruptions;
      if HasRelief(cell, CallReturns) then IsEndedBy(cell, nowUtc, CallReturns, before, after)
      else if HasCause(cell, CallReturns) && !HasOpen(before) then IsOpenedBy(cell, nowUtc, CallReturns, before, after)
      else after == before
  {
  }

  lemma ChildChangesInterruptions(cell: Cell, nowUtc: int, event: ChildEvent)
    requires CellInv(cell, nowUtc) && IsEnabled(cell, ChildSteps(event))
    ensures var before, after := cell.interruptions, AfterChildEvent(cell, nowUtc, event).interruptions;
      if HasRelief(cell, ChildSteps(event)) then IsEndedBy(cell, nowUtc, ChildSteps(event), before, after)
      else if HasCause(cell, ChildSteps(event)) && !HasOpen(before)
      then IsOpenedBy(cell, nowUtc, ChildSteps(event), before, after)
      else after == before
  {
  }
}
