/** The backtest table, the queue, and the child tasks by the steps of a run. */
module BacktestQueueHistories {
  import opened Sequences
  import opened BacktestQueue
  import opened BacktestQueueProtocol

  // ---------------------------------------------------------------- the rows

  ghost predicate Starts(system: System, step: Step, id: int) {
    step.StartNext? && OldestFree(system.rows, system.locked) == Some(id)
  }

  /** The runner writes the end of the backtest, with this status when it is still running. */
  ghost predicate WritesEnd(system: System, step: Step, id: int, status: Status) {
    && step == EndIsWritten(id) && id in system.tasks
    && (status == TimedOut <==> system.tasks[id] == WritingEnd(TimedOut))
    && (status == TimedOut || status == Failed)
  }

  /** Which step gives a row its next status. */
  ghost predicate IsStatusStep(system: System, step: Step, id: int, before: Status, after: Status) {
    if before == Queued && after == Running then Starts(system, step, id)
    else if before == Queued && after == Cancelled then step.CancelRuns? && id in step.ids
    else if before == Running && after == Finished then step == ChildSaves(id, Finished)
    else if before == Running && after == TimedOut then WritesEnd(system, step, id, TimedOut)
    else if before == Running && after == Failed then
      step.FailRunningRows? || step == ChildSaves(id, Failed) || WritesEnd(system, step, id, Failed)
    else false
  }

  lemma StepChangesStatus(system: System, step: Step, id: int, status: Status)
    requires Inv(system) && IsEnabled(system, step) && id in system.rows && system.rows[id] != status
    ensures id in After(system, step).rows && After(system, step).rows[id] == status
       <==> IsStatusStep(system, step, id, system.rows[id], status)
  {
    if step.ChildSaves? || step.EndIsWritten? {
      assert TaskInv(system, step.id);
    }
  }

  lemma StepChangesRows(system: System, step: Step, id: int)
    requires Inv(system) && IsEnabled(system, step)
    ensures id in system.rows ==> (id !in After(system, step).rows <==> step == DeleteRow(id))
    ensures id !in system.rows ==> (id in After(system, step).rows <==> step == Submit && id == system.nextId)
  {
  }

  /**
   * In each run, a row comes only with its submit and goes only with its delete, and each change of a status has
   * exactly its own steps: a start, a cancel of the queued row, the child's own end, the runner's end, or a restart.
   */
  lemma RowsAreOfSteps(systems: seq<System>, steps: seq<Step>, k: nat, id: int, status: Status)
    requires IsRun(systems, steps) && k < |steps|
    ensures id !in systems[k].rows ==> (id in systems[k + 1].rows <==> steps[k] == Submit && id == systems[k].nextId)
    ensures id in systems[k].rows ==> (id !in systems[k + 1].rows <==> steps[k] == DeleteRow(id))
    ensures id in systems[k].rows && systems[k].rows[id] != status ==>
              (id in systems[k + 1].rows && systems[k + 1].rows[id] == status
               <==> IsStatusStep(systems[k], steps[k], id, systems[k].rows[id], status))
  {
    RunKeepsInv(systems, steps, k);
    assert IsRunStep(systems, steps, k);
    StepChangesRows(systems[k], steps[k], id);
    if id in systems[k].rows && systems[k].rows[id] != status {
      StepChangesStatus(systems[k], steps[k], id, status);
    }
  }

  /** A delete transaction has locked the row, and has not ended. */
  ghost predicate IsLockedAt(steps: seq<Step>, k: nat, id: int)
    requires k <= |steps|
  {
    k > 0 && match steps[k - 1]
      case LockRow(other) => other == id || IsLockedAt(steps, k - 1, id)
      case UnlockRow(other) => other != id && IsLockedAt(steps, k - 1, id)
      case DeleteRow(other) => other != id && IsLockedAt(steps, k - 1, id)
      case _ => IsLockedAt(steps, k - 1, id)
  }

  /** In each run, a row is locked exactly in a delete transaction, and deleted only in one and with a final status. */
  lemma {:induction false} LocksAreOfSteps(systems: seq<System>, steps: seq<Step>, k: nat, id: int)
    requires IsRun(systems, steps) && k < |systems|
    ensures id in systems[k].locked <==> IsLockedAt(steps, k, id)
    ensures k < |steps| && steps[k] == DeleteRow(id) ==>
              IsLockedAt(steps, k, id) && id in systems[k].rows && IsFinal(systems[k].rows[id])
    ensures k < |steps| && steps[k] == LockRow(id) ==> !IsLockedAt(steps, k, id) && id in systems[k].rows
    ensures k < |steps| && steps[k] == UnlockRow(id) ==> IsLockedAt(steps, k, id)
  {
    if k > 0 {
      LocksAreOfSteps(systems, steps, k - 1, id);
      assert IsRunStep(systems, steps, k - 1);
    }
    if k < |steps| {
      assert IsRunStep(systems, steps, k);
    }
  }

  // ---------------------------------------------------------------- running rows

  /** The runner could not write the end of the backtest. */
  ghost predicate EndFailed(steps: seq<Step>, k: nat, id: int)
    requires k <= |steps|
  {
    exists m :: 0 <= m < k && steps[m] == EndFails(id)
  }

  ghost predicate IsFollowed(system: System, id: int) {
    id in system.tasks || system.queue.AtRestart?
  }

  lemma StepFollowsRunning(system: System, step: Step, id: int)
    requires Inv(system) && IsEnabled(system, step)
    requires id in After(system, step).rows && After(system, step).rows[id] == Running
    ensures IsFollowed(After(system, step), id) || step == EndFails(id)
            || (id in system.rows && system.rows[id] == Running && !IsFollowed(system, id))
  {
    if step.EndIsWritten? || step.ChildSaves? {
      assert TaskInv(system, step.id);
    }
  }

  /** In each run, a running row has its task, or waits for the restart step, or the write of its end failed. */
  lemma {:induction false} RunningRowsAreFollowed(systems: seq<System>, steps: seq<Step>, k: nat, id: int)
    requires IsRun(systems, steps) && k < |systems|
    requires id in systems[k].rows && systems[k].rows[id] == Running
    ensures IsFollowed(systems[k], id) || EndFailed(steps, k, id)
  {
    if k > 0 {
      RunKeepsInv(systems, steps, k - 1);
      assert IsRunStep(systems, steps, k - 1);
      StepFollowsRunning(systems[k - 1], steps[k - 1], id);
      if id in systems[k - 1].rows && systems[k - 1].rows[id] == Running {
        RunningRowsAreFollowed(systems, steps, k - 1, id);
      }
    }
  }

  // ---------------------------------------------------------------- the queue

  predicate IsQueueStep(step: Step) {
    step.FailRunningRows? || step.ReadLimits? || step.StartNext? || step.QueueFails? || step.WebDies?
  }

  ghost function LastQueueStep(steps: seq<Step>, k: nat): (last: Option<nat>)
    requires k <= |steps|
    ensures last.Some? ==> last.value < k
  {
    if k == 0 then None
    else if IsQueueStep(steps[k - 1]) then Some(k - 1)
    else LastQueueStep(steps, k - 1)
  }

  /** The limit of the last read. */
  ghost function LastLimit(steps: seq<Step>, k: nat): nat
    requires k <= |steps|
  {
    if k == 0 then 0
    else if steps[k - 1].ReadLimits? then steps[k - 1].concurrency
    else LastLimit(steps, k - 1)
  }

  /** The last queue step read the limits or started a backtest, and fewer than the limit ran after it. */
  ghost predicate CanStart(systems: seq<System>, steps: seq<Step>, k: nat)
    requires k <= |steps| < |systems|
  {
    var last := LastQueueStep(steps, k);
    && last.Some?
    && (steps[last.value].ReadLimits?
        || (steps[last.value].StartNext? && |systems[last.value + 1].starts| > |systems[last.value].starts|))
    && systems[last.value + 1].runningCount < LastLimit(steps, k)
  }

  ghost predicate MustRestart(steps: seq<Step>, k: nat)
    requires k <= |steps|
  {
    LastQueueStep(steps, k).None? || steps[LastQueueStep(steps, k).value].WebDies?
  }

  ghost predicate IsQueueOf(systems: seq<System>, steps: seq<Step>, k: nat)
    requires k <= |steps| < |systems|
  {
    systems[k].queue == if MustRestart(steps, k) then AtRestart
                        else if CanStart(systems, steps, k) then AtStart(LastLimit(steps, k))
                        else AtIdle
  }

  lemma QueueStepIsLast(systems: seq<System>, steps: seq<Step>, k: nat)
    requires IsRun(systems, steps) && k < |steps| && IsQueueStep(steps[k]) && IsQueueOf(systems, steps, k)
    ensures IsQueueOf(systems, steps, k + 1)
  {
    assert IsRunStep(systems, steps, k);
    assert LastQueueStep(steps, k + 1) == Some(k);
  }

  lemma OtherStepKeepsQueue(system: System, step: Step)
    requires IsEnabled(system, step) && !IsQueueStep(step)
    ensures After(system, step).queue == system.queue
  {
  }

  /** In each run, the queue can start a backtest exactly when its last read of the limits or last start left room. */
  lemma {:induction false} QueueIsOfSteps(systems: seq<System>, steps: seq<Step>, k: nat)
    requires IsRun(systems, steps) && k < |systems|
    ensures IsQueueOf(systems, steps, k)
  {
    if k > 0 {
      QueueIsOfSteps(systems, steps, k - 1);
      if IsQueueStep(steps[k - 1]) {
        QueueStepIsLast(systems, steps, k - 1);
      } else {
        assert IsRunStep(systems, steps, k - 1);
        OtherStepKeepsQueue(systems[k - 1], steps[k - 1]);
      }
    }
  }

  /** In each run, the steps of the queue are possible exactly where its last step left it. */
  lemma QueueStepsAreEnabled(systems: seq<System>, steps: seq<Step>, k: nat, concurrency: nat)
    requires IsRun(systems, steps) && k < |systems|
    ensures IsEnabled(systems[k], FailRunningRows) <==> MustRestart(steps, k)
    ensures IsEnabled(systems[k], ReadLimits(concurrency)) <==> !MustRestart(steps, k) && !CanStart(systems, steps, k)
    ensures IsEnabled(systems[k], StartNext) <==> !MustRestart(steps, k) && CanStart(systems, steps, k)
    ensures IsEnabled(systems[k], QueueFails) <==> IsEnabled(systems[k], StartNext)
    ensures IsEnabled(systems[k], WebDies) && IsEnabled(systems[k], Submit)
  {
    QueueIsOfSteps(systems, steps, k);
  }

  // ---------------------------------------------------------------- the child tasks

  predicate IsStepOf(step: Step, id: int) {
    match step
    case Spawned(other) => other == id
    case SpawnFails(other) => other == id
    case ChildSaves(other, _) => other == id
    case ChildEnds(other) => other == id
    case TimesOut(other) => other == id
    case EndIsWritten(other) => other == id
    case EndFails(other) => other == id
    case _ => false
  }

  /** The steps of the child task of a backtest since its start. */
  ghost function TaskLog(systems: seq<System>, steps: seq<Step>, id: int, k: nat): seq<Step>
    requires k <= |steps| < |systems|
  {
    if k == 0 || id !in systems[k].tasks then []
    else if Starts(systems[k - 1], steps[k - 1], id) then [StartNext]
    else TaskLog(systems, steps, id, k - 1) + if IsStepOf(steps[k - 1], id) then [steps[k - 1]] else []
  }

  /** What can come next: the start of the process, its own end, its exit or the timeout, and the write of the end. */
  predicate CanFollow(log: seq<Step>, step: Step)
    requires log != []
  {
    match log[|log| - 1]
    case StartNext => step.Spawned? || step.SpawnFails?
    case Spawned(_) =>
      (step.ChildSaves? && (step.status == Finished || step.status == Failed)) || step.ChildEnds? || step.TimesOut?
    case ChildSaves(_, _) => step.ChildEnds? || step.TimesOut?
    case _ => step.EndIsWritten? || step.EndFails?
  }

  predicate IsTaskAfter(task: Task, log: seq<Step>) {
    log != [] && match log[|log| - 1]
      case StartNext => task == Spawning
      case Spawned(_) => task == ChildWorks
      case ChildSaves(_, _) => task == ChildWrote
      case ChildEnds(_) => task == WritingEnd(Failed)
      case TimesOut(_) => task == WritingEnd(TimedOut)
      case SpawnFails(_) => task == WritingFailure
      case EndFails(_) => task == WritingFailure
      case _ => false
  }

  ghost predicate IsLogged(systems: seq<System>, steps: seq<Step>, id: int, k: nat)
    requires k <= |steps| < |systems|
  {
    id in systems[k].tasks ==> IsTaskAfter(systems[k].tasks[id], TaskLog(systems, steps, id, k))
  }

  /** Only a start and its own steps change a task. */
  lemma StepChangesTask(system: System, step: Step, id: int)
    requires Inv(system) && IsEnabled(system, step) && id in After(system, step).tasks
    ensures Starts(system, step, id) ==> After(system, step).tasks[id] == Spawning
    ensures !Starts(system, step, id) && !IsStepOf(step, id) ==>
              id in system.tasks && After(system, step).tasks[id] == system.tasks[id]
  {
  }

  lemma OwnStepChangesTask(system: System, step: Step, id: int, log: seq<Step>)
    requires Inv(system) && IsEnabled(system, step) && IsStepOf(step, id) && id in After(system, step).tasks
    requires id in system.tasks ==> IsTaskAfter(system.tasks[id], log)
    ensures id in system.tasks && IsTaskAfter(After(system, step).tasks[id], log + [step])
  {
  }

  lemma {:induction false} RunIsLogged(systems: seq<System>, steps: seq<Step>, id: int, k: nat)
    requires IsRun(systems, steps) && k < |systems|
    ensures IsLogged(systems, steps, id, k)
  {
    if k > 0 && id in systems[k].tasks {
      RunIsLogged(systems, steps, id, k - 1);
      RunKeepsInv(systems, steps, k - 1);
      assert IsRunStep(systems, steps, k - 1);
      StepChangesTask(systems[k - 1], steps[k - 1], id);
      if Starts(systems[k - 1], steps[k - 1], id) {
      } else if IsStepOf(steps[k - 1], id) {
        OwnStepChangesTask(systems[k - 1], steps[k - 1], id, TaskLog(systems, steps, id, k - 1));
      } else {
        assert TaskLog(systems, steps, id, k) == TaskLog(systems, steps, id, k - 1);
      }
    }
  }

  lemma EnabledCanFollow(system: System, step: Step, id: int, log: seq<Step>)
    requires id in system.tasks && IsTaskAfter(system.tasks[id], log) && IsStepOf(step, id)
    ensures IsEnabled(system, step) <==> CanFollow(log, step)
  {
  }

  /** In each run, the next step of a task can be exactly one that its earlier steps allow. */
  lemma TaskFollowsProgram(systems: seq<System>, steps: seq<Step>, id: int, k: nat, step: Step)
    requires IsRun(systems, steps) && k < |systems| && id in systems[k].tasks && IsStepOf(step, id)
    ensures TaskLog(systems, steps, id, k) != []
    ensures IsEnabled(systems[k], step) <==> CanFollow(TaskLog(systems, steps, id, k), step)
  {
    RunIsLogged(systems, steps, id, k);
    EnabledCanFollow(systems[k], step, id, TaskLog(systems, steps, id, k));
  }

  ghost predicate HasEndFailed(log: seq<Step>) { log != [] && (log[|log| - 1].SpawnFails? || log[|log| - 1].EndFails?) }

  /** In each run, a task ends exactly with the write of its end, a failure after a failure, or the Web process. */
  lemma TaskEndsOnce(systems: seq<System>, steps: seq<Step>, id: int, k: nat)
    requires IsRun(systems, steps) && k < |steps| && id in systems[k].tasks
    ensures id !in systems[k + 1].tasks
       <==> steps[k] == EndIsWritten(id) || steps[k].WebDies?
            || (steps[k] == EndFails(id) && HasEndFailed(TaskLog(systems, steps, id, k)))
  {
    RunIsLogged(systems, steps, id, k);
    assert IsRunStep(systems, steps, k);
  }
}
