/** All forward tests under one worker, and what holds over every run. */
module ForwardTestRuns {
  import opened Sequences
  import opened ForwardTestStore
  import opened ForwardTestWorker
  import opened ForwardTestProtocol

  /** `firstId`..`lastId` is the range of client IDs. */
  datatype System = System(nowUtc: int, firstId: int, lastId: int, cells: seq<Cell>)

  datatype SystemStep =
    | Tick(untilUtc: int)
    | UserStarts(capitalUsd: real, endTimeUtc: Option<int>, netLiquidationUsd: real)
    | RowSteps(index: nat, step: CellStep)
    | WorkerDies

  function Rows(cells: seq<Cell>): (rows: seq<Row>)
    ensures |rows| == |cells| && forall i :: 0 <= i < |cells| ==> rows[i] == cells[i].row
  {
    seq(|cells|, i requires 0 <= i < |cells| => cells[i].row)
  }

  predicate IsStepEnabled(system: System, step: SystemStep) {
    match step
    case Tick(untilUtc) => system.nowUtc <= untilUtc
    case UserStarts(_, _, _) => true
    case RowSteps(index, cellStep) => index < |system.cells| && IsEnabled(system.cells[index], cellStep)
    case WorkerDies => true
  }

  function StartResultOf(system: System, capitalUsd: real, endTimeUtc: Option<int>,
                         netLiquidationUsd: real): StartResult {
    StartForwardTest(Rows(system.cells), capitalUsd, endTimeUtc, system.firstId, system.lastId, netLiquidationUsd)
  }

  function AfterSystemStep(system: System, step: SystemStep): (next: System)
    requires IsStepEnabled(system, step)
    ensures |system.cells| <= |next.cells| && system.nowUtc <= next.nowUtc
  {
    match step
    case Tick(untilUtc) => system.(nowUtc := untilUtc)
    case UserStarts(capitalUsd, endTimeUtc, netLiquidationUsd) =>
      var result := StartResultOf(system, capitalUsd, endTimeUtc, netLiquidationUsd);
      if result.Accepted? then system.(cells := system.cells + [NewCell(result.row)]) else system
    case RowSteps(index, cellStep) =>
      system.(cells := system.cells[index := AfterStep(system.cells[index], system.nowUtc, cellStep)])
    case WorkerDies =>
      system.(cells := seq(|system.cells|, i requires 0 <= i < |system.cells| => AfterWorkerDeath(system.cells[i])))
  }

  predicate HoldClientId(a: Cell, b: Cell) {
    a.row.clientId.Some? && a.row.clientId == b.row.clientId
  }

  predicate IsInRange(system: System, cell: Cell) {
    cell.row.clientId.Some? ==> system.firstId <= cell.row.clientId.value <= system.lastId
  }

  ghost predicate Inv(system: System) {
    && (forall i :: 0 <= i < |system.cells| ==>
          CellInv(system.cells[i], system.nowUtc) && IsInRange(system, system.cells[i]))
    && (forall i, j :: 0 <= i < j < |system.cells| ==> !HoldClientId(system.cells[i], system.cells[j]))
  }

  // ---------------------------------------------------------------- one step

  /** No step gives a row a client ID: it keeps its ID or loses it. */
  lemma StepKeepsOrClearsId(cell: Cell, nowUtc: int, step: CellStep)
    requires IsEnabled(cell, step)
    ensures var next := AfterStep(cell, nowUtc, step);
      && (next.row.clientId == cell.row.clientId || next.row.clientId.None?)
      && next.row.allocatedCapitalUsd == cell.row.allocatedCapitalUsd
  {
  }

  lemma StartKeepsInv(system: System, capitalUsd: real, endTimeUtc: Option<int>, netLiquidationUsd: real)
    requires Inv(system)
    ensures Inv(AfterSystemStep(system, UserStarts(capitalUsd, endTimeUtc, netLiquidationUsd)))
  {
    var rows := Rows(system.cells);
    StartIsBounded(rows, capitalUsd, endTimeUtc, system.firstId, system.lastId, netLiquidationUsd);
    var result := StartResultOf(system, capitalUsd, endTimeUtc, netLiquidationUsd);
    if result.Accepted? {
      NewCellInv(result.row, system.nowUtc);
      forall i | 0 <= i < |system.cells| ensures !HoldClientId(system.cells[i], NewCell(result.row)) {
        assert !HoldsId(rows[i], result.row.clientId.value);
      }
    }
  }

  lemma RowStepKeepsInv(system: System, index: nat, step: CellStep)
    requires Inv(system) && IsStepEnabled(system, RowSteps(index, step))
    ensures Inv(AfterSystemStep(system, RowSteps(index, step)))
  {
    StepKeepsInv(system.cells[index], system.nowUtc, step);
    StepKeepsOrClearsId(system.cells[index], system.nowUtc, step);
    var next := AfterSystemStep(system, RowSteps(index, step));
    forall i, j | 0 <= i < j < |next.cells| ensures !HoldClientId(next.cells[i], next.cells[j]) {
      assert !HoldClientId(system.cells[i], system.cells[j]);
    }
  }

  lemma SystemStepKeepsInv(system: System, step: SystemStep)
    requires Inv(system) && IsStepEnabled(system, step)
    ensures Inv(AfterSystemStep(system, step))
  {
    match step
    case Tick(untilUtc) =>
      forall i | 0 <= i < |system.cells| ensures CellInv(system.cells[i], untilUtc) {
        ClockKeepsInv(system.cells[i], system.nowUtc, untilUtc);
      }
    case UserStarts(capitalUsd, endTimeUtc, netLiquidationUsd) =>
      StartKeepsInv(system, capitalUsd, endTimeUtc, netLiquidationUsd);
    case RowSteps(index, cellStep) => RowStepKeepsInv(system, index, cellStep);
    case WorkerDies =>
      var next := AfterSystemStep(system, step);
      forall i | 0 <= i < |system.cells| ensures CellInv(next.cells[i], system.nowUtc) {
        WorkerDeathKeepsInv(system.cells[i], system.nowUtc);
      }
      forall i, j | 0 <= i < j < |next.cells| ensures !HoldClientId(next.cells[i], next.cells[j]) {
        assert !HoldClientId(system.cells[i], system.cells[j]);
      }
  }

  // ---------------------------------------------------------------- runs

  /** A run from the empty table: the state before and after each step. */
  ghost predicate IsRun(states: seq<System>, steps: seq<SystemStep>) {
    && |states| == |steps| + 1
    && states[0].cells == []
    && (forall k :: 0 <= k < |steps| ==> IsRunStep(states, steps, k))
  }

  ghost predicate IsRunStep(states: seq<System>, steps: seq<SystemStep>, k: nat)
    requires k < |steps| < |states|
  {
    IsStepEnabled(states[k], steps[k]) && states[k + 1] == AfterSystemStep(states[k], steps[k])
  }

  lemma {:induction false} RunKeepsInv(states: seq<System>, steps: seq<SystemStep>, k: nat)
    requires IsRun(states, steps) && k < |states|
    ensures Inv(states[k])
  {
    if k > 0 {
      RunKeepsInv(states, steps, k - 1);
      assert IsRunStep(states, steps, k - 1);
      SystemStepKeepsInv(states[k - 1], steps[k - 1]);
    }
  }

  /** What a later state of a row keeps of an earlier one. */
  ghost predicate Follows(earlier: Cell, later: Cell) {
    && later.row.endTimeUtc == earlier.row.endTimeUtc
    && later.row.allocatedCapitalUsd == earlier.row.allocatedCapitalUsd
    && (earlier.row.desired == WantStopped ==> later.row.desired == WantStopped)
    && (IsStopStatus(earlier.row.status) ==> IsStopStatus(later.row.status) && later.runStarts == earlier.runStarts)
    && (earlier.row.status == Stopped || earlier.row.clientId.None? ==>
          later.row == earlier.row.(desired := later.row.desired))
    && (earlier.row.clientId.None? ==> later.ledger == earlier.ledger && later.interruptions == earlier.interruptions)
    && (earlier.row.crashCount == CRASH_LIMIT ==>
          later.row.crashCount == CRASH_LIMIT && later.runStarts == earlier.runStarts)
    && earlier.crashes <= later.crashes
    && earlier.ledger <= later.ledger
    && |earlier.interruptions| <= |later.interruptions|
  }

  lemma FollowsItself(cell: Cell)
    ensures Follows(cell, cell)
  {
  }

  lemma FollowsIsTransitive(a: Cell, b: Cell, c: Cell)
    requires Follows(a, b) && Follows(b, c)
    ensures Follows(a, c)
  {
  }

  lemma StartCallFollows(cell: Cell, nowUtc: int)
    requires CellInv(cell, nowUtc) && IsStartCall(cell.await)
    ensures Follows(cell, AfterCall(cell, nowUtc))
  {
  }

  lemma EndRecordFollows(cell: Cell, nowUtc: int)
    requires CellInv(cell, nowUtc) && FreesClientId(cell.await)
    ensures Follows(cell, AfterCall(cell, nowUtc))
  {
  }

  lemma CrashCallFollows(cell: Cell, nowUtc: int)
    requires CellInv(cell, nowUtc) && IsCrashCall(cell.await)
    ensures Follows(cell, AfterCall(cell, nowUtc))
  {
  }

  lemma OtherCallFollows(cell: Cell, nowUtc: int)
    requires CellInv(cell, nowUtc) && IsCalling(cell.await)
    requires !IsStartCall(cell.await) && !FreesClientId(cell.await) && !IsCrashCall(cell.await)
    ensures Follows(cell, AfterCall(cell, nowUtc))
  {
  }

  lemma CallFollows(cell: Cell, nowUtc: int)
    requires CellInv(cell, nowUtc) && IsCalling(cell.await)
    ensures Follows(cell, AfterCall(cell, nowUtc))
  {
    if IsStartCall(cell.await) {
      StartCallFollows(cell, nowUtc);
    } else if FreesClientId(cell.await) {
      EndRecordFollows(cell, nowUtc);
    } else if IsCrashCall(cell.await) {
      CrashCallFollows(cell, nowUtc);
    } else {
      OtherCallFollows(cell, nowUtc);
    }
  }

  lemma ChildFollows(cell: Cell, nowUtc: int, event: ChildEvent)
    requires CellInv(cell, nowUtc) && IsEnabled(cell, ChildSteps(event))
    ensures Follows(cell, AfterChildEvent(cell, nowUtc, event))
  {
  }

  lemma StepFollows(cell: Cell, nowUtc: int, step: CellStep)
    requires CellInv(cell, nowUtc) && IsEnabled(cell, step)
    ensures Follows(cell, AfterStep(cell, nowUtc, step))
  {
    if step.CallReturns? {
      CallFollows(cell, nowUtc);
    } else if step.ChildSteps? {
      ChildFollows(cell, nowUtc, step.event);
    }
  }

  lemma SystemStepFollows(system: System, step: SystemStep, index: nat)
    requires Inv(system) && IsStepEnabled(system, step) && index < |system.cells|
    ensures Follows(system.cells[index], AfterSystemStep(system, step).cells[index])
  {
    FollowsItself(system.cells[index]);
    if step.RowSteps? && step.index == index {
      StepFollows(system.cells[index], system.nowUtc, step.step);
    }
  }

  lemma {:induction false} RunFollows(states: seq<System>, steps: seq<SystemStep>, index: nat, i: nat, j: nat)
    requires IsRun(states, steps) && i <= j < |states| && index < |states[i].cells|
    ensures index < |states[j].cells| && Follows(states[i].cells[index], states[j].cells[index])
    decreases j
  {
    if i == j {
      FollowsItself(states[i].cells[index]);
    } else {
      RunFollows(states, steps, index, i, j - 1);
      RunKeepsInv(states, steps, j - 1);
      assert IsRunStep(states, steps, j - 1);
      SystemStepFollows(states[j - 1], steps[j - 1], index);
      FollowsIsTransitive(states[i].cells[index], states[j - 1].cells[index], states[j].cells[index]);
    }
  }
}
