/** What the forward-test protocol keeps over every run, and where it does not do what its documentation says. */
module ForwardTestLaws {
  import opened Sequences
  import opened ForwardTestStore
  import opened ForwardTestWorker
  import opened ForwardTestProtocol
  import opened ForwardTestRuns

  // ---------------------------------------------------------------- stop

  /** A row that reached a stop status keeps one, starts no run child again, and lets a running run child only stop. */
  lemma StopIsAbsorbing(states: seq<System>, steps: seq<SystemStep>, index: nat, i: nat, j: nat)
    requires IsRun(states, steps) && i <= j < |states| && index < |states[i].cells|
    requires IsStopStatus(states[i].cells[index].row.status)
    ensures index < |states[j].cells|
    ensures var later := states[j].cells[index];
      && IsStopStatus(later.row.status)
      && later.runStarts == states[i].cells[index].runStarts
      && (later.child.Some? ==> IsStopChild(later.child.value))
  {
    RunFollows(states, steps, index, i, j);
    RunKeepsInv(states, steps, j);
    assert CellInv(states[j].cells[index], states[j].nowUtc);
  }

  /** The worker goes for a start, or will when it compares the row that it has read. */
  predicate CanStillStart(cell: Cell, nowUtc: int) {
    || IsRunStart(cell.await)
    || (cell.await.AtCompare? && cell.child.None?
        && !IsStopWanted(cell.await.row, nowUtc) && IsActive(cell.await.row.status))
  }

  /** A stop is wanted that the worker cannot miss any more. */
  predicate IsStopSeen(cell: Cell, nowUtc: int) {
    IsStopWanted(cell.row, nowUtc) && !CanStillStart(cell, nowUtc)
  }

  lemma SeenStopStaysInCall(cell: Cell, nowUtc: int)
    requires CellInv(cell, nowUtc) && IsCalling(cell.await) && IsStopSeen(cell, nowUtc)
    ensures IsStopSeen(AfterCall(cell, nowUtc), nowUtc) && AfterCall(cell, nowUtc).runStarts == cell.runStarts
  {
  }

  lemma SeenStopStaysInChild(cell: Cell, nowUtc: int, event: ChildEvent)
    requires IsEnabled(cell, ChildSteps(event)) && IsStopSeen(cell, nowUtc)
    ensures var next := AfterChildEvent(cell, nowUtc, event);
      IsStopSeen(next, nowUtc) && next.runStarts == cell.runStarts
  {
  }

  lemma SeenStopStaysInCell(cell: Cell, nowUtc: int, step: CellStep)
    requires CellInv(cell, nowUtc) && IsEnabled(cell, step) && IsStopSeen(cell, nowUtc)
    ensures var next := AfterStep(cell, nowUtc, step); IsStopSeen(next, nowUtc) && next.runStarts == cell.runStarts
  {
    if step.CallReturns? {
      SeenStopStaysInCall(cell, nowUtc);
    } else if step.ChildSteps? {
      SeenStopStaysInChild(cell, nowUtc, step.event);
    }
  }

  lemma SeenStopStays(system: System, step: SystemStep, index: nat)
    requires Inv(system) && IsStepEnabled(system, step)
    requires index < |system.cells| && IsStopSeen(system.cells[index], system.nowUtc)
    ensures var next := AfterSystemStep(system, step);
      IsStopSeen(next.cells[index], next.nowUtc) && next.cells[index].runStarts == system.cells[index].runStarts
  {
    if step.RowSteps? && step.index == index {
      SeenStopStaysInCell(system.cells[index], system.nowUtc, step.step);
    }
  }

  /**
   * After a stop, or the end time, that the worker cannot miss, no run child ever starts, also after a worker restart.
   */
  lemma {:induction false} NoRunStartAfterSeenStop(states: seq<System>, steps: seq<SystemStep>,
                                                   index: nat, i: nat, j: nat)
    requires IsRun(states, steps) && i <= j < |states| && index < |states[i].cells|
    requires IsStopSeen(states[i].cells[index], states[i].nowUtc)
    ensures index < |states[j].cells| && IsStopSeen(states[j].cells[index], states[j].nowUtc)
    ensures states[j].cells[index].runStarts == states[i].cells[index].runStarts
    decreases j
  {
    if i < j {
      NoRunStartAfterSeenStop(states, steps, index, i, j - 1);
      RunKeepsInv(states, steps, j - 1);
      assert IsRunStep(states, steps, j - 1);
      SeenStopStays(states[j - 1], steps[j - 1], index);
    }
  }

  /** The number of run children that can still start after a wanted stop. */
  ghost function StartsLeft(cell: Cell, nowUtc: int): nat { if IsStopSeen(cell, nowUtc) then 0 else 1 }

  lemma WantedStopStays(cell: Cell, nowUtc: int, step: CellStep)
    requires IsEnabled(cell, step) && IsStopWanted(cell.row, nowUtc)
    ensures IsStopWanted(AfterStep(cell, nowUtc, step).row, nowUtc)
  {
  }

  lemma StepUsesStart(cell: Cell, nowUtc: int, step: CellStep)
    requires CellInv(cell, nowUtc) && IsEnabled(cell, step) && IsStopWanted(cell.row, nowUtc)
    ensures var next := AfterStep(cell, nowUtc, step);
      next.runStarts + StartsLeft(next, nowUtc) <= cell.runStarts + StartsLeft(cell, nowUtc)
  {
    WantedStopStays(cell, nowUtc, step);
    if IsStopSeen(cell, nowUtc) {
      SeenStopStaysInCell(cell, nowUtc, step);
    } else if step.ChildSteps? {
      assert AfterStep(cell, nowUtc, step).runStarts == cell.runStarts;
    }
  }

  lemma SystemStepUsesStart(system: System, step: SystemStep, index: nat)
    requires Inv(system) && IsStepEnabled(system, step)
    requires index < |system.cells| && IsStopWanted(system.cells[index].row, system.nowUtc)
    ensures var next := AfterSystemStep(system, step); var cell, after := system.cells[index], next.cells[index];
      && IsStopWanted(after.row, next.nowUtc)
      && after.runStarts + StartsLeft(after, next.nowUtc) <= cell.runStarts + StartsLeft(cell, system.nowUtc)
  {
    if step.RowSteps? && step.index == index {
      WantedStopStays(system.cells[index], system.nowUtc, step.step);
      StepUsesStart(system.cells[index], system.nowUtc, step.step);
    }
  }

  /**
   * After a stop, or the end time, that comes at any point of a run, at most 1 run child more starts, and none when the
   * worker cannot miss it.
   */
  lemma {:induction false} AtMostOneRunStartAfterStop(states: seq<System>, steps: seq<SystemStep>,
                                                      index: nat, i: nat, j: nat)
    requires IsRun(states, steps) && i <= j < |states| && index < |states[i].cells|
    requires IsStopWanted(states[i].cells[index].row, states[i].nowUtc)
    ensures index < |states[j].cells| && IsStopWanted(states[j].cells[index].row, states[j].nowUtc)
    ensures states[j].cells[index].runStarts + StartsLeft(states[j].cells[index], states[j].nowUtc)
         <= states[i].cells[index].runStarts + StartsLeft(states[i].cells[index], states[i].nowUtc)
    ensures states[j].cells[index].runStarts <= states[i].cells[index].runStarts + 1
    decreases j
  {
    if i < j {
      AtMostOneRunStartAfterStop(states, steps, index, i, j - 1);
      RunKeepsInv(states, steps, j - 1);
      assert IsRunStep(states, steps, j - 1);
      SystemStepUsesStart(states[j - 1], steps[j - 1], index);
    }
  }

  /** A stop is wanted, the row holds a client ID, and it has no child: a cancel child must start. */
  ghost predicate NeedsCancelChild(cell: Cell, nowUtc: int) {
    && IsStopWanted(cell.row, nowUtc) && cell.row.clientId.Some? && cell.child.None?
    && (cell.await.AtIdle? || cell.await.AtStartCancel?
        || (cell.await.AtCompare? && IsStopWanted(cell.await.row, nowUtc)))
  }

  ghost predicate HasNewCancelChild(cell: Cell) {
    cell.child.Some? && cell.child.value == NewChild(CancelOrdersMode, cell.child.value.startedAtUtc)
  }

  lemma NeedStaysOrCancelStarts(cell: Cell, nowUtc: int, step: CellStep)
    requires CellInv(cell, nowUtc) && IsEnabled(cell, step) && NeedsCancelChild(cell, nowUtc)
    ensures var next := AfterStep(cell, nowUtc, step);
      && (NeedsCancelChild(next, nowUtc) || (HasNewCancelChild(next) && next.await.AtWriteStopping?))
      && (step.WorkerCompares? ==> next.await.AtStartCancel?)
  {
  }

  lemma NeedStaysInSystem(system: System, step: SystemStep, index: nat)
    requires Inv(system) && IsStepEnabled(system, step)
    requires index < |system.cells| && NeedsCancelChild(system.cells[index], system.nowUtc)
    ensures var next := AfterSystemStep(system, step);
      && (NeedsCancelChild(next.cells[index], next.nowUtc) || HasNewCancelChild(next.cells[index]))
      && (step.RowSteps? && step.index == index && step.step.WorkerCompares? ==> next.cells[index].await.AtStartCancel?)
  {
    if step.RowSteps? && step.index == index {
      NeedStaysOrCancelStarts(system.cells[index], system.nowUtc, step.step);
    }
  }

  /**
   * A wanted stop of a row with a client ID and no child: each
   * comparison goes for a cancel child, until one has started.
   */
  lemma {:induction false} WantedStopStartsCancelChild(states: seq<System>, steps: seq<SystemStep>,
                                                       index: nat, i: nat, j: nat)
    requires IsRun(states, steps) && i <= j < |states| && index < |states[i].cells|
    requires NeedsCancelChild(states[i].cells[index], states[i].nowUtc)
    requires forall k :: i < k <= j && index < |states[k].cells| ==> !HasNewCancelChild(states[k].cells[index])
    ensures index < |states[j].cells| && NeedsCancelChild(states[j].cells[index], states[j].nowUtc)
    ensures j > i && steps[j - 1].RowSteps? && steps[j - 1].index == index && steps[j - 1].step.WorkerCompares? ==>
              states[j].cells[index].await.AtStartCancel?
    decreases j
  {
    if i < j {
      WantedStopStartsCancelChild(states, steps, index, i, j - 1);
      RunKeepsInv(states, steps, j - 1);
      assert IsRunStep(states, steps, j - 1);
      NeedStaysInSystem(states[j - 1], steps[j - 1], index);
    }
  }

  /** The steps of a row in a run: its cell before and after step `k`. */
  ghost predicate IsRowStep(states: seq<System>, steps: seq<SystemStep>, k: nat, index: nat, step: CellStep) {
    IsRun(states, steps) && k < |steps| && steps[k] == RowSteps(index, step)
  }

  lemma RowStepOfRun(states: seq<System>, steps: seq<SystemStep>, k: nat, index: nat, step: CellStep)
    requires IsRowStep(states, steps, k, index, step)
    ensures index < |states[k].cells| && IsEnabled(states[k].cells[index], step)
    ensures CellInv(states[k].cells[index], states[k].nowUtc)
    ensures index < |states[k + 1].cells|
         && states[k + 1].cells[index] == AfterStep(states[k].cells[index], states[k].nowUtc, step)
  {
    RunKeepsInv(states, steps, k);
    assert IsRunStep(states, steps, k);
  }

  /** The recorded end of a child: the comparison, and its calls up to the end of it. */
  function AfterRecord(cell: Cell, nowUtc: int, isReadyToRun: bool): Cell
    requires cell.await.AtCompare?
  {
    var compared := AfterStep(cell, nowUtc, WorkerCompares(isReadyToRun));
    var called := AfterCall(compared, nowUtc);
    if IsCalling(called.await) then AfterCall(called, nowUtc) else called
  }

  /** The exit code of the child of a cell. */
  function ExitCode(cell: Cell): int
    requires cell.child.Some? && cell.child.value.process.phase.Exited?
  {
    cell.child.value.process.phase.code
  }

  /** A child with a stop request, or a cancel child: only exit code 0 ends the test. */
  lemma StopEndIsRecorded(cell: Cell, nowUtc: int, isReadyToRun: bool)
    requires CellInv(cell, nowUtc) && cell.await.AtCompare? && IsExitedStopChild(cell.child)
    ensures var recorded := AfterRecord(cell, nowUtc, isReadyToRun);
      && recorded.child.None? && recorded.await.AtIdle? && recorded.crashes == cell.crashes
      && recorded.row.status == (if ExitCode(cell) == SUCCESS_EXIT_CODE then Stopped else StopFailed)
      && (recorded.row.clientId.None? <==> ExitCode(cell) == SUCCESS_EXIT_CODE)
  {
  }

  lemma PlannedEndIsRecorded(cell: Cell, nowUtc: int, isReadyToRun: bool)
    requires CellInv(cell, nowUtc) && cell.await.AtCompare? && IsExitedRunChild(cell.child)
    requires IsStopStepCode(ExitCode(cell))
    ensures AfterRecord(cell, nowUtc, isReadyToRun)
         == cell.(row := cell.row.(status := Starting), child := None, await := AtIdle)
  {
  }

  lemma PaperEndIsRecorded(cell: Cell, nowUtc: int, isReadyToRun: bool)
    requires CellInv(cell, nowUtc) && cell.await.AtCompare? && IsExitedRunChild(cell.child)
    requires ExitCode(cell) == PAPER_CHECK_FAILED_EXIT_CODE
    ensures AfterRecord(cell, nowUtc, isReadyToRun) == RecordEnd(cell, Failed, nowUtc)
  {
  }

  lemma GatewayEndIsRecorded(cell: Cell, nowUtc: int, isReadyToRun: bool)
    requires CellInv(cell, nowUtc) && cell.await.AtCompare? && IsExitedRunChild(cell.child)
    requires ExitCode(cell) == GATEWAY_UNREACHABLE_EXIT_CODE
    ensures AfterRecord(cell, nowUtc, isReadyToRun)
         == cell.(row := cell.row.(status := WaitingForGateway), child := None, await := AtIdle,
                  interruptions := StartInterruption(cell.interruptions, GatewayReason, nowUtc))
  {
  }

  lemma CrashEndIsRecorded(cell: Cell, nowUtc: int, isReadyToRun: bool)
    requires CellInv(cell, nowUtc) && cell.await.AtCompare? && IsExitedRunChild(cell.child)
    requires IsUnplannedCode(ExitCode(cell))
    ensures var count := NextCrashCount(cell.row, cell.child.value, nowUtc);
      AfterRecord(cell, nowUtc, isReadyToRun)
        == cell.(row := cell.row.(status := CrashStatus(count), crashCount := count), child := None, await := AtIdle,
                 crashes := cell.crashes + [Crash(cell.child.value.startedAtUtc, nowUtc)],
                 interruptions := StartInterruption(cell.interruptions, CrashReason, nowUtc))
  {
  }

  /**
   * A run child without a stop request: only exit code 3 ends the test, and each other
   * one lets it start again until the crash limit. An exit code that the child does not
   * plan is a crash. Code 0 or 5 is a stock split restart and no interruption.
   */
  lemma RunEndIsRecorded(cell: Cell, nowUtc: int, isReadyToRun: bool)
    requires CellInv(cell, nowUtc) && cell.await.AtCompare? && IsExitedRunChild(cell.child)
    ensures var recorded := AfterRecord(cell, nowUtc, isReadyToRun);
      && recorded.child.None? && recorded.await.AtIdle?
      && (recorded.row.clientId.None? <==> ExitCode(cell) == PAPER_CHECK_FAILED_EXIT_CODE)
      && (IsActive(recorded.row.status)
          <==> ExitCode(cell) != PAPER_CHECK_FAILED_EXIT_CODE && recorded.row.crashCount < CRASH_LIMIT)
      && (recorded.crashes != cell.crashes <==> IsUnplannedCode(ExitCode(cell)))
      && (IsStopStepCode(ExitCode(cell)) ==> recorded.interruptions == cell.interruptions)
  {
    if IsStopStepCode(ExitCode(cell)) {
      PlannedEndIsRecorded(cell, nowUtc, isReadyToRun);
    } else if ExitCode(cell) == PAPER_CHECK_FAILED_EXIT_CODE {
      PaperEndIsRecorded(cell, nowUtc, isReadyToRun);
    } else if ExitCode(cell) == GATEWAY_UNREACHABLE_EXIT_CODE {
      GatewayEndIsRecorded(cell, nowUtc, isReadyToRun);
    } else {
      CrashEndIsRecorded(cell, nowUtc, isReadyToRun);
    }
  }

  // ---------------------------------------------------------------- client IDs, capital, interruptions

  lemma IdsAndCapital(states: seq<System>, steps: seq<SystemStep>, k: nat)
    requires IsRun(states, steps) && k < |states|
    ensures forall i, j :: 0 <= i < j < |states[k].cells| ==> !HoldClientId(states[k].cells[i], states[k].cells[j])
    ensures forall i :: 0 <= i < |states[k].cells| ==> IsInRange(states[k], states[k].cells[i])
    ensures forall i :: 0 <= i < |states[k].cells| ==> LedgerInv(states[k].cells[i])
    ensures forall cell <- states[k].cells :: cell.row.clientId.None? ==>
              && (cell.row.status == Stopped || cell.row.status == Failed)
              && cell.child.None? && !HasOpen(cell.interruptions)
    ensures forall cell <- states[k].cells :: AtMostOneOpen(cell.interruptions)
  {
    RunKeepsInv(states, steps, k);
    forall i | 0 <= i < |states[k].cells| ensures CellInv(states[k].cells[i], states[k].nowUtc) {
    }
  }

  /** In each run, the step that clears the ID is the step that transfers the capital back. */
  lemma IdClearsWithTransfer(states: seq<System>, steps: seq<SystemStep>, k: nat, index: nat, step: CellStep)
    requires IsRowStep(states, steps, k, index, step)
    ensures index < |states[k].cells| && index < |states[k + 1].cells|
    ensures var cell, next := states[k].cells[index], states[k + 1].cells[index];
      cell.row.clientId.Some? && next.row.clientId.None? <==> next.ledger == cell.ledger + [TransferredToByHand]
  {
    RowStepOfRun(states, steps, k, index, step);
    StepKeepsInv(states[k].cells[index], states[k].nowUtc, step);
    StepKeepsOrClearsId(states[k].cells[index], states[k].nowUtc, step);
  }

  /** The capital of a forward test by its ledger: the transfer back takes all of it. */
  function LedgerCapital(ledger: seq<LedgerEvent>): real {
    if ledger == [] then 0.0
    else match ledger[|ledger| - 1]
      case CapitalAllocated(usd) => LedgerCapital(ledger[..|ledger| - 1]) + usd
      case TransferredToByHand => 0.0
  }

  function CapitalOf(cell: Cell): real { LedgerCapital(cell.ledger) }

  lemma HeldCapitalIsOfLedger(cell: Cell)
    requires LedgerInv(cell)
    ensures HeldCapital(cell.row) == CapitalOf(cell)
  {
    var start := [CapitalAllocated(cell.row.allocatedCapitalUsd)];
    assert start[..0] == [];
    if cell.row.clientId.Some? {
      assert cell.ledger == start;
      assert LedgerCapital(start) == LedgerCapital(start[..0]) + cell.row.allocatedCapitalUsd;
    } else {
      assert cell.ledger == start + [TransferredToByHand];
    }
  }

  lemma {:induction false} CapitalIsOfLedgers(cells: seq<Cell>)
    requires forall i :: 0 <= i < |cells| ==> LedgerInv(cells[i])
    ensures AllocatedUsd(Rows(cells)) == SumBy(cells, CapitalOf)
  {
    if cells != [] {
      var init, last := cells[..|cells| - 1], cells[|cells| - 1];
      CapitalIsOfLedgers(init);
      HeldCapitalIsOfLedger(last);
      assert Rows(cells) == Rows(init) + [last.row];
      AppendCapital(Rows(init), last.row);
    }
  }

  /** In each run, the allocated capital of the start check is what the ledgers of the forward tests hold. */
  lemma AllocatedIsHeld(states: seq<System>, steps: seq<SystemStep>, k: nat)
    requires IsRun(states, steps) && k < |states|
    ensures AllocatedUsd(Rows(states[k].cells)) == SumBy(states[k].cells, CapitalOf)
  {
    IdsAndCapital(states, steps, k);
    CapitalIsOfLedgers(states[k].cells);
  }

  lemma AcceptedStartFits(states: seq<System>, steps: seq<SystemStep>, k: nat)
    requires IsRun(states, steps) && k < |steps| && steps[k].UserStarts?
    ensures var step := steps[k]; var before := Rows(states[k].cells); var after := Rows(states[k + 1].cells);
      if AllocatedUsd(before) + step.capitalUsd > step.netLiquidationUsd
         || forall id :: states[k].firstId <= id <= states[k].lastId ==> id in TakenClientIds(before)
      then states[k + 1] == states[k]
      else |after| == |before| + 1
           && AllocatedUsd(after) == AllocatedUsd(before) + step.capitalUsd <= step.netLiquidationUsd
           && after[|before|]
              == Row(WantRunning, Starting, after[|before|].clientId, step.endTimeUtc, None, 0, step.capitalUsd)
  {
    assert IsRunStep(states, steps, k);
    var step := steps[k];
    var before := Rows(states[k].cells);
    StartIsBounded(before, step.capitalUsd, step.endTimeUtc, states[k].firstId, states[k].lastId,
                   step.netLiquidationUsd);
    var result := StartResultOf(states[k], step.capitalUsd, step.endTimeUtc, step.netLiquidationUsd);
    if result.Accepted? {
      assert Rows(states[k + 1].cells) == before + [result.row];
    }
  }

  /** The first step of a child ends it exactly without a client ID, and the child of a row always finds one. */
  lemma ChildFindsClientId(states: seq<System>, steps: seq<SystemStep>, k: nat, index: nat)
    requires IsRun(states, steps) && k < |states| && index < |states[k].cells|
    requires states[k].cells[index].child.Some?
    ensures forall clientId ::
              NextPhase(states[k].cells[index].child.value, clientId, ReadRow) == Exited(FAILURE_EXIT_CODE)
              <==> clientId.None?
    ensures NextPhase(states[k].cells[index].child.value, states[k].cells[index].row.clientId, ReadRow)
         != Exited(FAILURE_EXIT_CODE)
  {
    RunKeepsInv(states, steps, k);
    assert CellInv(states[k].cells[index], states[k].nowUtc);
  }

  // ---------------------------------------------------------------- crashes

  lemma {:induction false} CountSinceLongRunMeaning(crashes: seq<Crash>)
    ensures var count := CountSinceLongRun(crashes);
      && count <= |crashes|
      && (forall k :: |crashes| - count < k < |crashes| ==>
            crashes[k].recordedAtUtc - crashes[k].startedAtUtc < 600_000_000)
      && (count < |crashes| ==>
            && count > 0
            && crashes[|crashes| - count].recordedAtUtc - crashes[|crashes| - count].startedAtUtc >= 600_000_000)
  {
    if crashes != [] {
      CountSinceLongRunMeaning(crashes[..|crashes| - 1]);
    }
  }

  lemma CrashesAreCounted(states: seq<System>, steps: seq<SystemStep>, index: nat, i: nat, j: nat)
    requires IsRun(states, steps) && i <= j < |states| && index < |states[i].cells|
    ensures index < |states[j].cells|
    ensures var earlier := states[i].cells[index]; var later := states[j].cells[index];
      && later.row.crashCount == CountSinceLongRun(later.crashes) <= CRASH_LIMIT
      && (earlier.row.crashCount == CRASH_LIMIT ==>
            later.runStarts == earlier.runStarts && later.crashes == earlier.crashes && !IsActive(later.row.status))
  {
    RunFollows(states, steps, index, i, j);
    RunKeepsInv(states, steps, j);
    assert CellInv(states[j].cells[index], states[j].nowUtc);
    if states[i].cells[index].row.crashCount == CRASH_LIMIT {
      NoCrashAfterLimit(states, steps, index, i, j);
    }
  }

  lemma {:induction false} NoCrashAfterLimit(states: seq<System>, steps: seq<SystemStep>, index: nat, i: nat, j: nat)
    requires IsRun(states, steps) && i <= j < |states| && index < |states[i].cells|
    requires states[i].cells[index].row.crashCount == CRASH_LIMIT
    ensures index < |states[j].cells| && states[j].cells[index].crashes == states[i].cells[index].crashes
    decreases j
  {
    if i < j {
      NoCrashAfterLimit(states, steps, index, i, j - 1);
      RunFollows(states, steps, index, i, j - 1);
      RunKeepsInv(states, steps, j - 1);
      assert IsRunStep(states, steps, j - 1);
      assert CellInv(states[j - 1].cells[index], states[j - 1].nowUtc);
    }
  }

  /**
   * A comparison goes for a crash record exactly for a run child
   * without a stop request that ended with an unplanned code.
   */
  lemma OnlyUnplannedEndsAreCrashes(states: seq<System>, steps: seq<SystemStep>, k: nat, index: nat, isReadyToRun: bool)
    requires IsRowStep(states, steps, k, index, WorkerCompares(isReadyToRun))
    ensures index < |states[k].cells| && index < |states[k + 1].cells|
    ensures states[k + 1].cells[index].await.AtCrashInterruption?
       <==> IsExitedRunChild(states[k].cells[index].child)
            && IsUnplannedCode(states[k].cells[index].child.value.process.phase.code)
  {
    RowStepOfRun(states, steps, k, index, WorkerCompares(isReadyToRun));
  }

  /**
   * Only a crash record of an unplanned end changes the crash count. The row fails at the limit, and else starts again.
   */
  lemma CrashCountChangesOnlyByCrash(states: seq<System>, steps: seq<SystemStep>, k: nat, index: nat, step: CellStep)
    requires IsRowStep(states, steps, k, index, step)
    ensures index < |states[k].cells| && index < |states[k + 1].cells|
    ensures var cell, next := states[k].cells[index], states[k + 1].cells[index];
      if step == CallReturns && cell.await.AtWriteCrash? then
        && IsExitedRunChild(cell.child) && IsUnplannedCode(cell.child.value.process.phase.code)
        && next.crashes == cell.crashes + [Crash(cell.child.value.startedAtUtc, cell.await.recordedAtUtc)]
        && next.row.status == (if next.row.crashCount == CRASH_LIMIT then Failed else Starting)
        && next.row.clientId.Some? && next.child.None?
      else
        next.crashes == cell.crashes && next.row.crashCount == cell.row.crashCount
  {
    RowStepOfRun(states, steps, k, index, step);
    if step == CallReturns && states[k].cells[index].await.AtWriteCrash? {
      CrashCallKeepsInv(states[k].cells[index], states[k].nowUtc);
    }
  }

  // ---------------------------------------------------------------- orders

  predicate IsCancelStep(step: SystemStep, index: nat) {
    step == RowSteps(index, ChildSteps(CancelSucceeds)) || step == RowSteps(index, ChildSteps(PrepareSucceeds))
  }

  /**
   * Step `m` of the row sent an order, and no cancel step or start step of the row succeeded from then up to step `k`.
   */
  ghost predicate IsOpenSend(steps: seq<SystemStep>, index: nat, m: nat, k: nat)
    requires k <= |steps|
  {
    && m < k && steps[m] == RowSteps(index, ChildSteps(SendOrder))
    && forall n :: m < n < k ==> !IsCancelStep(steps[n], index)
  }

  ghost predicate HasOpenSend(steps: seq<SystemStep>, index: nat, k: nat)
    requires k <= |steps|
  {
    exists m :: IsOpenSend(steps, index, m, k)
  }

  lemma NextOpenSend(steps: seq<SystemStep>, index: nat, k: nat)
    requires k < |steps|
    ensures HasOpenSend(steps, index, k + 1)
       <==> steps[k] == RowSteps(index, ChildSteps(SendOrder))
            || (HasOpenSend(steps, index, k) && !IsCancelStep(steps[k], index))
  {
    if steps[k] == RowSteps(index, ChildSteps(SendOrder)) {
      assert IsOpenSend(steps, index, k, k + 1);
    } else if HasOpenSend(steps, index, k) && !IsCancelStep(steps[k], index) {
      var m :| IsOpenSend(steps, index, m, k);
      assert IsOpenSend(steps, index, m, k + 1);
    }
    if HasOpenSend(steps, index, k + 1) && steps[k] != RowSteps(index, ChildSteps(SendOrder)) {
      var m :| IsOpenSend(steps, index, m, k + 1);
      assert IsOpenSend(steps, index, m, k);
    }
  }

  lemma StepChangesOrders(cell: Cell, nowUtc: int, step: CellStep)
    requires IsEnabled(cell, step)
    ensures AfterStep(cell, nowUtc, step).hasUncancelledOrders <==>
              step == ChildSteps(SendOrder)
              || (cell.hasUncancelledOrders
                  && step != ChildSteps(CancelSucceeds) && step != ChildSteps(PrepareSucceeds))
  {
  }

  lemma SystemStepChangesOrders(system: System, step: SystemStep, index: nat)
    requires IsStepEnabled(system, step) && index < |system.cells|
    ensures AfterSystemStep(system, step).cells[index].hasUncancelledOrders <==>
              step == RowSteps(index, ChildSteps(SendOrder))
              || (system.cells[index].hasUncancelledOrders && !IsCancelStep(step, index))
  {
    if step.RowSteps? && step.index == index {
      StepChangesOrders(system.cells[index], system.nowUtc, step.step);
    }
  }

  lemma {:induction false} RowsStay(states: seq<System>, steps: seq<SystemStep>, i: nat, j: nat)
    requires IsRun(states, steps) && i <= j < |states|
    ensures |states[i].cells| <= |states[j].cells|
    decreases j
  {
    if i < j {
      RowsStay(states, steps, i, j - 1);
      assert IsRunStep(states, steps, j - 1);
    }
  }

  lemma SendHasRow(states: seq<System>, steps: seq<SystemStep>, index: nat, m: nat, k: nat)
    requires IsRun(states, steps) && k < |states| && IsOpenSend(steps, index, m, k)
    ensures index < |states[k].cells|
  {
    RowsStay(states, steps, m, k);
    assert IsRunStep(states, steps, m);
  }

  /**
   * In each run, an order of a row is without a cancel exactly
   * when no cancel step or start step succeeded since its send.
   */
  lemma {:induction false} OrdersAreOpenSends(states: seq<System>, steps: seq<SystemStep>, index: nat, k: nat)
    requires IsRun(states, steps) && k < |states| && index < |states[k].cells|
    ensures states[k].cells[index].hasUncancelledOrders <==> HasOpenSend(steps, index, k)
    decreases k
  {
    if k > 0 {
      assert IsRunStep(states, steps, k - 1);
      NextOpenSend(steps, index, k - 1);
      if index < |states[k - 1].cells| {
        OrdersAreOpenSends(states, steps, index, k - 1);
        SystemStepChangesOrders(states[k - 1], steps[k - 1], index);
      } else if HasOpenSend(steps, index, k - 1) {
        var m :| IsOpenSend(steps, index, m, k - 1);
        SendHasRow(states, steps, index, m, k - 1);
      }
    }
  }

  lemma ClearLeavesOrders(cell: Cell, nowUtc: int, step: CellStep)
    requires CellInv(cell, nowUtc) && IsEnabled(cell, step)
    requires cell.row.clientId.Some? && AfterStep(cell, nowUtc, step).row.clientId.None?
    ensures cell.child.Some?
    ensures AfterStep(cell, nowUtc, step).hasUncancelledOrders
       <==> cell.hasUncancelledOrders && HasExitCode(cell.child, PAPER_CHECK_FAILED_EXIT_CODE)
  {
  }

  /**
   * In each run, a cleared ID leaves an order open exactly when the row sent one, no cancel step
   * or start step succeeded since then, and the paper account check of a later child failed.
   */
  lemma ClearedIdLeavesOrders(states: seq<System>, steps: seq<SystemStep>, k: nat, index: nat, step: CellStep)
    requires IsRowStep(states, steps, k, index, step)
    requires index < |states[k].cells| && index < |states[k + 1].cells|
    requires states[k].cells[index].row.clientId.Some? && states[k + 1].cells[index].row.clientId.None?
    ensures states[k + 1].cells[index].hasUncancelledOrders
       <==> HasOpenSend(steps, index, k) && HasExitCode(states[k].cells[index].child, PAPER_CHECK_FAILED_EXIT_CODE)
  {
    RowStepOfRun(states, steps, k, index, step);
    ClearLeavesOrders(states[k].cells[index], states[k].nowUtc, step);
    OrdersAreOpenSends(states, steps, index, k);
  }

  // ---------------------------------------------------------------- reachable states of one forward test

  ghost predicate IsReached(cell: Cell, nowUtc: int) {
    exists states, steps :: IsRun(states, steps) && EndsAt(states, cell, nowUtc)
  }

  ghost predicate EndsAt(states: seq<System>, cell: Cell, nowUtc: int) {
    states != [] && states[|states| - 1].nowUtc == nowUtc && states[|states| - 1].cells == [cell]
  }

  lemma ExtendRun(states: seq<System>, steps: seq<SystemStep>, step: SystemStep)
    requires IsRun(states, steps) && IsStepEnabled(states[|steps|], step)
    ensures IsRun(states + [AfterSystemStep(states[|steps|], step)], steps + [step])
  {
    var longer := states + [AfterSystemStep(states[|steps|], step)];
    forall k | 0 <= k < |steps + [step]| ensures IsRunStep(longer, steps + [step], k) {
      if k < |steps| {
        assert IsRunStep(states, steps, k);
      }
    }
  }

  lemma FirstCell(capitalUsd: real, nowUtc: int) returns (cell: Cell)
    ensures IsReached(cell, nowUtc)
    ensures cell == NewCell(Row(WantRunning, Starting, Some(10), None, None, 0, capitalUsd))
  {
    var empty := System(nowUtc, 10, 13, []);
    var step := UserStarts(capitalUsd, None, capitalUsd);
    cell := NewCell(Row(WantRunning, Starting, Some(10), None, None, 0, capitalUsd));
    assert IsRun([empty], []);
    ExtendRun([empty], [], step);
    assert LowestFreeFrom(10, 13, TakenClientIds(Rows([]))) == Some(10);
    assert EndsAt([empty] + [AfterSystemStep(empty, step)], cell, nowUtc);
  }

  lemma Go(cell: Cell, nowUtc: int, step: CellStep) returns (next: Cell)
    requires IsReached(cell, nowUtc) && IsEnabled(cell, step)
    ensures next == AfterStep(cell, nowUtc, step) && IsReached(next, nowUtc)
  {
    next := AfterStep(cell, nowUtc, step);
    var states, steps :| IsRun(states, steps) && EndsAt(states, cell, nowUtc);
    ExtendRun(states, steps, RowSteps(0, step));
    assert EndsAt(states + [AfterSystemStep(states[|steps|], RowSteps(0, step))], next, nowUtc);
  }

  /** The worker started the first run child, and has not written "running" yet. */
  lemma StartedCell(nowUtc: int) returns (cell: Cell)
    ensures IsReached(cell, nowUtc)
    ensures cell == NewCell(Row(WantRunning, Starting, Some(10), None, None, 0, 1000.0))
                    .(child := Some(NewChild(RunMode, nowUtc)), await := AtWriteRunning, runStarts := 1)
  {
    cell := FirstCell(1000.0, nowUtc);
    cell := Go(cell, nowUtc, WorkerSelects);
    cell := Go(cell, nowUtc, WorkerCompares(true));
    cell := Go(cell, nowUtc, CallReturns);
  }

  /** The first run child of a forward test is live. */
  lemma LiveCell(nowUtc: int) returns (cell: Cell)
    ensures IsReached(cell, nowUtc)
    ensures cell.row == Row(WantRunning, Running, Some(10), None, None, 0, 1000.0)
    ensures cell.child == Some(RunningChild(ChildProcess(Live, false), RunMode, nowUtc, false, false))
    ensures cell.await == AtIdle
  {
    cell := StartedCell(nowUtc);
    cell := Go(cell, nowUtc, CallReturns);
    cell := Go(cell, nowUtc, ChildSteps(ReadRow));
    cell := Go(cell, nowUtc, ChildSteps(PrepareSucceeds));
    cell := Go(cell, nowUtc, ChildSteps(WriteLiveStart));
    cell := Go(cell, nowUtc, ChildSteps(WriteInterruptionEnd));
  }

  /** The worker's "running" can overwrite the "waiting_for_gateway" of a child that still waits. */
  lemma WaitCanBeOverwritten(nowUtc: int) returns (cell: Cell)
    ensures IsReached(cell, nowUtc)
    ensures cell.row.status == Running && cell.child.Some? && cell.child.value.process.phase == Waiting
    ensures HasOpen(cell.interruptions)
  {
    cell := StartedCell(nowUtc);
    cell := Go(cell, nowUtc, ChildSteps(ReadRow));
    cell := Go(cell, nowUtc, ChildSteps(GatewayIsUnreachable));
    cell := Go(cell, nowUtc, ChildSteps(WriteWait));
    cell := Go(cell, nowUtc, ChildSteps(WriteWaitInterruption));
    cell := Go(cell, nowUtc, CallReturns);
  }

  /** The child of a stock split restart ended, and its cancel step failed. */
  lemma FailedRestartCell(nowUtc: int) returns (cell: Cell)
    ensures IsReached(cell, nowUtc)
    ensures cell.row == Row(WantRunning, Running, Some(10), None, None, 0, 1000.0) && cell.await == AtIdle
    ensures cell.child
         == Some(RunningChild(ChildProcess(Exited(FAILURE_EXIT_CODE), true), RunMode, nowUtc, false, true))
  {
    cell := LiveCell(nowUtc);
    cell := Go(cell, nowUtc, SplitRestart);
    cell := Go(cell, nowUtc, ChildSteps(LiveNodeEnds(false)));
    cell := Go(cell, nowUtc, ChildSteps(CancelFails));
  }

  /** A stock split restart whose cancel step fails counts as a crash. */
  lemma SplitRestartCanCountAsCrash(nowUtc: int) returns (cell: Cell)
    ensures IsReached(cell, nowUtc)
    ensures cell.await == AtCrashInterruption(nowUtc, 1) && cell.child.Some? && cell.child.value.isRestartRequested
  {
    cell := FailedRestartCell(nowUtc);
    cell := Go(cell, nowUtc, WorkerSelects);
    cell := Go(cell, nowUtc, WorkerCompares(true));
  }

  /** A live node sent an order and lost IB Gateway. */
  lemma LostCell(nowUtc: int) returns (cell: Cell)
    ensures IsReached(cell, nowUtc)
    ensures cell.row == Row(WantRunning, Running, Some(10), None, None, 0, 1000.0)
    ensures cell.child
         == Some(RunningChild(ChildProcess(Exited(GATEWAY_UNREACHABLE_EXIT_CODE), false), RunMode,
                              nowUtc, false, false))
    ensures cell.await == AtIdle && cell.hasUncancelledOrders
  {
    cell := LiveCell(nowUtc);
    cell := Go(cell, nowUtc, ChildSteps(SendOrder));
    cell := Go(cell, nowUtc, ChildSteps(LiveNodeEnds(true)));
  }

  /** The worker recorded the end of this child. */
  lemma GatewayLossCell(nowUtc: int) returns (cell: Cell)
    ensures IsReached(cell, nowUtc)
    ensures cell.row == Row(WantRunning, WaitingForGateway, Some(10), None, None, 0, 1000.0)
    ensures cell.child == None && cell.await == AtIdle && cell.hasUncancelledOrders
  {
    cell := LostCell(nowUtc);
    cell := Go(cell, nowUtc, WorkerSelects);
    cell := Go(cell, nowUtc, WorkerCompares(true));
    cell := Go(cell, nowUtc, CallReturns);
    cell := Go(cell, nowUtc, CallReturns);
  }

  /** The paper account check of the next child failed. */
  lemma PaperFailedCell(nowUtc: int) returns (cell: Cell)
    ensures IsReached(cell, nowUtc)
    ensures cell.row == Row(WantRunning, WaitingForGateway, Some(10), None, None, 0, 1000.0)
    ensures cell.child
         == Some(RunningChild(ChildProcess(Exited(PAPER_CHECK_FAILED_EXIT_CODE), false), RunMode, nowUtc, false, false))
    ensures cell.await == AtIdle && cell.hasUncancelledOrders
  {
    cell := GatewayLossCell(nowUtc);
    cell := Go(cell, nowUtc, WorkerSelects);
    cell := Go(cell, nowUtc, WorkerCompares(true));
    cell := Go(cell, nowUtc, CallReturns);
    cell := Go(cell, nowUtc, ChildSteps(ReadRow));
    cell := Go(cell, nowUtc, ChildSteps(PaperCheckFails));
  }

  /** A failed paper check can free the client ID and the capital while an order of an earlier child can be open. */
  lemma FreedIdCanHaveOpenOrders(nowUtc: int) returns (cell: Cell)
    ensures IsReached(cell, nowUtc)
    ensures cell.row.status == Failed && cell.row.clientId.None? && cell.hasUncancelledOrders
  {
    cell := PaperFailedCell(nowUtc);
    cell := Go(cell, nowUtc, WorkerSelects);
    cell := Go(cell, nowUtc, WorkerCompares(true));
    cell := Go(cell, nowUtc, CallReturns);
  }

  /** A stop between the read of the row and its comparison, or after it: 1 run child starts later. */
  lemma RunCanStartAfterStop(nowUtc: int, isCompared: bool) returns (before: Cell, cell: Cell)
    ensures IsReached(before, nowUtc) && IsStopWanted(before.row, nowUtc) && before.runStarts == 0
    ensures if isCompared then before.await == AtStartRun(Starting) else before.await.AtCompare?
    ensures IsReached(cell, nowUtc) && IsStopWanted(cell.row, nowUtc) && cell.runStarts == 1
  {
    before := FirstCell(1000.0, nowUtc);
    before := Go(before, nowUtc, WorkerSelects);
    if isCompared {
      before := Go(before, nowUtc, WorkerCompares(true));
    }
    before := Go(before, nowUtc, WebStops);
    cell := before;
    if !isCompared {
      cell := Go(cell, nowUtc, WorkerCompares(true));
    }
    cell := Go(cell, nowUtc, CallReturns);
  }
}
