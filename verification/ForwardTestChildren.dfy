/** The child process of a forward test by its events: what comes after what, and what its exit code tells. */
module ForwardTestChildren {
  import opened Sequences
  import opened ForwardTestStore
  import opened ForwardTestWorker
  import opened ForwardTestProtocol
  import opened ForwardTestRuns
  import opened ForwardTestLaws

  /** An event of a child, and whether the child had its stop signal then. */
  datatype Entry = Entry(event: ChildEvent, isStopSignalled: bool)

  /** The events of the current child since its start. */
  ghost function ChildLog(states: seq<System>, steps: seq<SystemStep>, index: nat, k: nat): seq<Entry>
    requires k <= |steps| < |states|
  {
    if k == 0 || index >= |states[k].cells| || states[k].cells[index].child.None? then []
    else ChildLog(states, steps, index, k - 1) + EntryOf(states[k - 1], steps[k - 1], index)
  }

  ghost function EntryOf(system: System, step: SystemStep, index: nat): seq<Entry> {
    if step.RowSteps? && step.index == index && step.step.ChildSteps? && index < |system.cells|
       && system.cells[index].child.Some?
    then [Entry(step.step.event, system.cells[index].child.value.process.isStopSignalled)] else []
  }

  // ---------------------------------------------------------------- the order of the events

  /** The start steps begin after the read of the row, and again after each retry time. */
  predicate IsStartEvent(event: ChildEvent) {
    event.GatewayIsUnreachable? || event.PaperCheckFails? || event.PrepareFails? || event.PrepareSucceeds?
  }

  predicate IsCancelEvent(event: ChildEvent) { event.CancelSucceeds? || event.FillIsHeld? || event.CancelFails? }

  /** The exit code that an event gives. A live node that ends after a stop signal goes on to the cancel step. */
  function EndCode(entry: Entry): Option<int> {
    match entry.event
    case PaperCheckFails => Some(PAPER_CHECK_FAILED_EXIT_CODE)
    case PrepareFails => Some(FAILURE_EXIT_CODE)
    case LiveNodeEnds(isGatewayLost) =>
      if entry.isStopSignalled then None
      else Some(if isGatewayLost then GATEWAY_UNREACHABLE_EXIT_CODE else FAILURE_EXIT_CODE)
    case CancelSucceeds => Some(SUCCESS_EXIT_CODE)
    case FillIsHeld => Some(HELD_FILL_EXIT_CODE)
    case CancelFails => Some(FAILURE_EXIT_CODE)
    case Dies(code) => Some(code)
    case _ => None
  }

  /** The events that can come after an event of a child that goes on. */
  predicate CanFollow(mode: ChildMode, last: ChildEvent, event: ChildEvent) {
    match last
    case ReadRow => if mode == RunMode then IsStartEvent(event) else IsCancelEvent(event)
    case GatewayIsUnreachable => event.WriteWait?
    case WriteWait => event.WriteWaitInterruption?
    case WriteWaitInterruption => event.RetryTimePasses? || event.StopEndsWait?
    case RetryTimePasses => IsStartEvent(event)
    case PrepareSucceeds => event.WriteLiveStart?
    case WriteLiveStart => event.WriteInterruptionEnd?
    case WriteInterruptionEnd => event.SendOrder? || event.LiveNodeEnds?
    case SendOrder => event.SendOrder? || event.LiveNodeEnds?
    case LiveNodeEnds(_) => IsCancelEvent(event)
    case StopEndsWait => IsCancelEvent(event)
    case _ => false
  }

  predicate IsNextEvent(mode: ChildMode, log: seq<Entry>, isStopSignalled: bool, event: ChildEvent) {
    if log == [] then event.ReadRow? || IsDeath(event)
    else
      var last := log[|log| - 1];
      && EndCode(last).None?
      && (event.StopEndsWait? ==> isStopSignalled)
      && (IsDeath(event) || CanFollow(mode, last.event, event))
  }

  predicate IsDeath(event: ChildEvent) { event.Dies? && IsUnplannedCode(event.code) }

  /** The phase of a child is that of its last event. */
  predicate IsPhaseAfter(child: RunningChild, log: seq<Entry>) {
    var phase := child.process.phase;
    if log == [] then phase == ReadingRow
    else
      var last := log[|log| - 1];
      if EndCode(last).Some? then phase == Exited(EndCode(last).value)
      else match last.event
        case ReadRow => phase == (if child.mode == RunMode then Preparing else Cancelling)
        case GatewayIsUnreachable => phase == WritingWait
        case WriteWait => phase == WritingWaitInterruption
        case WriteWaitInterruption => phase == Waiting
        case RetryTimePasses => phase == Preparing
        case PrepareSucceeds => phase == WritingLiveStart
        case WriteLiveStart => phase == EndingInterruption
        case LiveNodeEnds(_) => phase == Cancelling
        case StopEndsWait => phase == Cancelling
        case _ => phase == Live
  }

  /** Each event of the log could come where it came. */
  ghost predicate IsProgram(mode: ChildMode, log: seq<Entry>) {
    forall i :: 0 <= i < |log| ==> IsNextEvent(mode, log[..i], log[i].isStopSignalled, log[i].event)
  }

  lemma EnabledIsNext(cell: Cell, log: seq<Entry>, event: ChildEvent)
    requires cell.child.Some? && IsPhaseAfter(cell.child.value, log)
    ensures IsEnabled(cell, ChildSteps(event))
       <==> IsNextEvent(cell.child.value.mode, log, cell.child.value.process.isStopSignalled, event)
  {
  }

  lemma NextPhaseIsAfter(cell: Cell, nowUtc: int, log: seq<Entry>, event: ChildEvent)
    requires CellInv(cell, nowUtc) && IsEnabled(cell, ChildSteps(event)) && IsPhaseAfter(cell.child.value, log)
    ensures var next := AfterChildEvent(cell, nowUtc, event);
      next.child.Some? && next.child.value.mode == cell.child.value.mode
      && IsPhaseAfter(next.child.value, log + [Entry(event, cell.child.value.process.isStopSignalled)])
  {
  }

  /** The other steps start or end a child, or change only its marks. */
  lemma OtherStepKeepsPhase(cell: Cell, nowUtc: int, step: CellStep, log: seq<Entry>)
    requires CellInv(cell, nowUtc) && IsEnabled(cell, step) && !step.ChildSteps?
    requires if cell.child.Some? then IsPhaseAfter(cell.child.value, log) else log == []
    ensures var next := AfterStep(cell, nowUtc, step);
      next.child.Some? ==> IsPhaseAfter(next.child.value, log)
                           && (cell.child.Some? ==> next.child.value.mode == cell.child.value.mode)
  {
    if step.CallReturns? {
      CallKeepsPhase(cell, nowUtc, log);
    }
  }

  lemma CallKeepsPhase(cell: Cell, nowUtc: int, log: seq<Entry>)
    requires CellInv(cell, nowUtc) && IsCalling(cell.await)
    requires if cell.child.Some? then IsPhaseAfter(cell.child.value, log) else log == []
    ensures var next := AfterCall(cell, nowUtc);
      next.child.Some? ==> IsPhaseAfter(next.child.value, log)
                           && (cell.child.Some? ==> next.child.value.mode == cell.child.value.mode)
  {
  }

  lemma ProgramGrows(mode: ChildMode, log: seq<Entry>, entry: Entry)
    requires IsProgram(mode, log) && IsNextEvent(mode, log, entry.isStopSignalled, entry.event)
    ensures IsProgram(mode, log + [entry])
  {
    var longer := log + [entry];
    forall i | 0 <= i < |longer| ensures IsNextEvent(mode, longer[..i], longer[i].isStopSignalled, longer[i].event) {
      assert longer[..i] == log[..i];
      assert log[..|log|] == log;
    }
  }

  ghost predicate IsLogged(cell: Cell, log: seq<Entry>) {
    if cell.child.Some? then IsPhaseAfter(cell.child.value, log) && IsProgram(cell.child.value.mode, log)
    else log == []
  }

  lemma StepIsLogged(states: seq<System>, steps: seq<SystemStep>, index: nat, k: nat)
    requires IsRun(states, steps) && k < |steps| && index < |states[k].cells|
    requires IsLogged(states[k].cells[index], ChildLog(states, steps, index, k))
    ensures index < |states[k + 1].cells|
    ensures IsLogged(states[k + 1].cells[index], ChildLog(states, steps, index, k + 1))
  {
    assert IsRunStep(states, steps, k);
    RunKeepsInv(states, steps, k);
    var cell, log := states[k].cells[index], ChildLog(states, steps, index, k);
    if steps[k].RowSteps? && steps[k].index == index {
      if steps[k].step.ChildSteps? {
        var event := steps[k].step.event;
        EnabledIsNext(cell, log, event);
        NextPhaseIsAfter(cell, states[k].nowUtc, log, event);
        ProgramGrows(cell.child.value.mode, log, Entry(event, cell.child.value.process.isStopSignalled));
      } else {
        OtherStepKeepsPhase(cell, states[k].nowUtc, steps[k].step, log);
        assert log + [] == log;
      }
    } else {
      assert log + [] == log;
    }
  }

  lemma {:induction false} RunIsLogged(states: seq<System>, steps: seq<SystemStep>, index: nat, k: nat)
    requires IsRun(states, steps) && k < |states| && index < |states[k].cells|
    ensures IsLogged(states[k].cells[index], ChildLog(states, steps, index, k))
    decreases k
  {
    if k > 0 {
      assert IsRunStep(states, steps, k - 1);
      if index < |states[k - 1].cells| {
        RunIsLogged(states, steps, index, k - 1);
        StepIsLogged(states, steps, index, k - 1);
      } else {
        assert states[k].cells[index].child.None?;
      }
    }
  }

  /** In each run, the next event of a child can be exactly one that the order of its earlier events allows. */
  lemma ChildFollowsProgram(states: seq<System>, steps: seq<SystemStep>, index: nat, k: nat, event: ChildEvent)
    requires IsRun(states, steps) && k < |states| && index < |states[k].cells|
    requires states[k].cells[index].child.Some?
    ensures var child, log := states[k].cells[index].child.value, ChildLog(states, steps, index, k);
      && IsProgram(child.mode, log)
      && (IsEnabled(states[k].cells[index], ChildSteps(event))
          <==> IsNextEvent(child.mode, log, child.process.isStopSignalled, event))
  {
    RunIsLogged(states, steps, index, k);
    EnabledIsNext(states[k].cells[index], ChildLog(states, steps, index, k), event);
  }

  lemma EndedIsEnd(child: RunningChild, log: seq<Entry>, code: int)
    requires IsPhaseAfter(child, log)
    ensures child.process.phase == Exited(code) <==> log != [] && EndCode(log[|log| - 1]) == Some(code)
  {
  }

  /** In each run, a child has ended exactly when its last event is an end, and its exit code tells this event. */
  lemma ExitCodeTellsEnd(states: seq<System>, steps: seq<SystemStep>, index: nat, k: nat, code: int)
    requires IsRun(states, steps) && k < |states| && index < |states[k].cells|
    requires states[k].cells[index].child.Some?
    ensures var log := ChildLog(states, steps, index, k);
      states[k].cells[index].child.value.process.phase == Exited(code)
      <==> log != [] && EndCode(log[|log| - 1]) == Some(code)
  {
    RunIsLogged(states, steps, index, k);
    EndedIsEnd(states[k].cells[index].child.value, ChildLog(states, steps, index, k), code);
  }

  // ---------------------------------------------------------------- orders come after the checks

  predicate IsSend(entry: Entry) { entry.event.SendOrder? }

  /** The events end with a paper account check that passed, the live start, and then only orders. */
  ghost predicate IsTrading(log: seq<Entry>) {
    exists n :: 0 <= n && IsTradingFrom(log, n)
  }

  ghost predicate IsTradingFrom(log: seq<Entry>, n: nat) {
    && n + 3 <= |log|
    && log[n].event.PrepareSucceeds? && log[n + 1].event.WriteLiveStart? && log[n + 2].event.WriteInterruptionEnd?
    && forall i :: n + 3 <= i < |log| ==> IsSend(log[i])
  }

  /** The event before an event that only one can come before. */
  lemma BeforeSend(mode: ChildMode, log: seq<Entry>)
    requires IsProgram(mode, log) && log != [] && log[|log| - 1].event.SendOrder?
    ensures |log| > 1 && (log[|log| - 2].event.SendOrder? || log[|log| - 2].event.WriteInterruptionEnd?)
  {
    var last := |log| - 1;
    assert IsNextEvent(mode, log[..last], log[last].isStopSignalled, log[last].event);
  }

  lemma BeforeInterruptionEnd(mode: ChildMode, log: seq<Entry>)
    requires IsProgram(mode, log) && log != [] && log[|log| - 1].event.WriteInterruptionEnd?
    ensures |log| > 1 && log[|log| - 2].event.WriteLiveStart?
  {
    var last := |log| - 1;
    assert IsNextEvent(mode, log[..last], log[last].isStopSignalled, log[last].event);
  }

  lemma BeforeLiveStart(mode: ChildMode, log: seq<Entry>)
    requires IsProgram(mode, log) && log != [] && log[|log| - 1].event.WriteLiveStart?
    ensures |log| > 1 && log[|log| - 2].event.PrepareSucceeds?
  {
    var last := |log| - 1;
    assert IsNextEvent(mode, log[..last], log[last].isStopSignalled, log[last].event);
  }

  lemma LiveStartIsTrading(mode: ChildMode, log: seq<Entry>)
    requires IsProgram(mode, log) && log != [] && log[|log| - 1].event.WriteInterruptionEnd?
    ensures IsTrading(log)
  {
    BeforeInterruptionEnd(mode, log);
    ProgramPrefix(mode, log, |log| - 1);
    BeforeLiveStart(mode, log[..|log| - 1]);
    assert IsTradingFrom(log, |log| - 3);
  }

  lemma TradingGoesOn(log: seq<Entry>)
    requires log != [] && log[|log| - 1].event.SendOrder? && IsTrading(log[..|log| - 1])
    ensures IsTrading(log)
  {
    var n :| 0 <= n && IsTradingFrom(log[..|log| - 1], n);
    assert IsTradingFrom(log, n);
  }

  lemma {:induction false} SendIsTrading(mode: ChildMode, log: seq<Entry>)
    requires IsProgram(mode, log) && log != [] && log[|log| - 1].event.SendOrder?
    ensures IsTrading(log)
    decreases |log|
  {
    BeforeSend(mode, log);
    var before := log[..|log| - 1];
    ProgramPrefix(mode, log, |log| - 1);
    if before[|before| - 1].event.SendOrder? {
      SendIsTrading(mode, before);
    } else {
      LiveStartIsTrading(mode, before);
    }
    TradingGoesOn(log);
  }

  lemma IsTradingBefore(mode: ChildMode, log: seq<Entry>, isStopSignalled: bool)
    requires IsProgram(mode, log) && IsNextEvent(mode, log, isStopSignalled, SendOrder)
    ensures IsTrading(log)
  {
    if log[|log| - 1].event.SendOrder? {
      SendIsTrading(mode, log);
    } else {
      LiveStartIsTrading(mode, log);
    }
  }

  lemma ProgramPrefix(mode: ChildMode, log: seq<Entry>, n: nat)
    requires IsProgram(mode, log) && n <= |log|
    ensures IsProgram(mode, log[..n])
  {
    forall i | 0 <= i < n ensures IsNextEvent(mode, log[..n][..i], log[i].isStopSignalled, log[i].event) {
      assert log[..n][..i] == log[..i];
    }
  }

  /**
   * In each run, an order goes out only from a child whose last start steps passed, with the paper account check and
   * the cancel of the old orders, and which then wrote its live start. Only other orders came since then.
   */
  lemma OrdersFollowChecks(states: seq<System>, steps: seq<SystemStep>, index: nat, k: nat)
    requires IsRun(states, steps) && k < |steps| && steps[k] == RowSteps(index, ChildSteps(SendOrder))
    ensures IsTrading(ChildLog(states, steps, index, k))
  {
    assert IsRunStep(states, steps, k);
    ChildFollowsProgram(states, steps, index, k, SendOrder);
    var child := states[k].cells[index].child.value;
    IsTradingBefore(child.mode, ChildLog(states, steps, index, k), child.process.isStopSignalled);
  }
}
