/**
 * The queue, the child tasks, the child processes, and the Web routes as a transition system over the backtest table.
 */
module BacktestQueueProtocol {
  import opened Sequences
  import opened BacktestQueue

  /** A child task: the child starts, works, wrote its own end, is killed, and then the runner writes the end. */
  datatype Task =
    | Spawning
    | ChildWorks
    | ChildWrote
    | WritingEnd(statusIfRunning: Status)
    | WritingFailure

  datatype Queue = AtRestart | AtIdle | AtStart(concurrency: nat)

  /** `locked`: the rows that a delete transaction holds. `starts`: the started backtests in their order. */
  datatype System = System(rows: map<int, Status>, nextId: int, locked: set<int>,
                           tasks: map<int, Task>, runningCount: nat,
                           queue: Queue, starts: seq<int>)

  datatype Step =
    // Web routes
    | Submit
    | CancelRuns(ids: set<int>)
    | LockRow(id: int)
    | UnlockRow(id: int)
    | DeleteRow(id: int)
    // the queue
    | FailRunningRows
    | ReadLimits(concurrency: nat)
    | StartNext
    | QueueFails
    // a child task
    | Spawned(id: int)
    | SpawnFails(id: int)
    | ChildSaves(id: int, status: Status)
    | ChildEnds(id: int)
    | TimesOut(id: int)
    | EndIsWritten(id: int)
    | EndFails(id: int)
    // the process
    | WebDies

  predicate IsTaskAt(system: System, id: int, task: Task) { id in system.tasks && system.tasks[id] == task }

  predicate IsEnabled(system: System, step: Step) {
    match step
    case Submit => true
    case CancelRuns(ids) => forall id <- ids :: id !in system.locked
    case LockRow(id) => id in system.rows && id !in system.locked
    case UnlockRow(id) => id in system.locked
    case DeleteRow(id) => id in system.locked && id in system.rows && IsFinal(system.rows[id])
    case FailRunningRows => system.queue.AtRestart?
    case ReadLimits(_) => system.queue.AtIdle?
    case StartNext => system.queue.AtStart?
    case QueueFails => system.queue.AtStart?
    case Spawned(id) => IsTaskAt(system, id, Spawning)
    case SpawnFails(id) => IsTaskAt(system, id, Spawning)
    case ChildSaves(id, status) => IsTaskAt(system, id, ChildWorks) && (status == Finished || status == Failed)
    case ChildEnds(id) => IsTaskAt(system, id, ChildWorks) || IsTaskAt(system, id, ChildWrote)
    case TimesOut(id) => IsTaskAt(system, id, ChildWorks) || IsTaskAt(system, id, ChildWrote)
    case EndIsWritten(id) => id in system.tasks && (system.tasks[id].WritingEnd? || system.tasks[id].WritingFailure?)
    case EndFails(id) => id in system.tasks && (system.tasks[id].WritingEnd? || system.tasks[id].WritingFailure?)
    case WebDies => true
  }

  function NextQueue(runningCount: nat, concurrency: nat): Queue {
    if runningCount < concurrency then AtStart(concurrency) else AtIdle
  }

  function EndTask(system: System, id: int): System {
    system.(tasks := system.tasks - {id},
            runningCount := if system.runningCount > 0 then system.runningCount - 1 else 0)
  }

  function After(system: System, step: Step): System
    requires IsEnabled(system, step)
  {
    match step
    case Submit => system.(rows := system.rows[system.nextId := Queued], nextId := system.nextId + 1)
    case CancelRuns(ids) => system.(rows := CancelQueued(system.rows, ids))
    case LockRow(id) => system.(locked := system.locked + {id})
    case UnlockRow(id) => system.(locked := system.locked - {id})
    case DeleteRow(id) => system.(rows := system.rows - {id}, locked := system.locked - {id})
    case FailRunningRows => system.(rows := FailRunning(system.rows), queue := AtIdle)
    case ReadLimits(concurrency) => system.(queue := NextQueue(system.runningCount, concurrency))
    case StartNext =>
      var oldest := OldestFree(system.rows, system.locked);
      if oldest.None? then system.(queue := AtIdle)
      else system.(rows := system.rows[oldest.value := Running], tasks := system.tasks[oldest.value := Spawning],
                   runningCount := system.runningCount + 1, starts := system.starts + [oldest.value],
                   queue := NextQueue(system.runningCount + 1, system.queue.concurrency))
    case QueueFails => system.(queue := AtIdle)
    case Spawned(id) => system.(tasks := system.tasks[id := ChildWorks])
    case SpawnFails(id) => system.(tasks := system.tasks[id := WritingFailure])
    case ChildSaves(id, status) =>
      // No status guard: the child writes its end whatever the status is.
      system.(rows := if id in system.rows then system.rows[id := status] else system.rows,
              tasks := system.tasks[id := ChildWrote])
    case ChildEnds(id) => system.(tasks := system.tasks[id := WritingEnd(Failed)])
    case TimesOut(id) => system.(tasks := system.tasks[id := WritingEnd(TimedOut)])
    case EndIsWritten(id) =>
      var status := if system.tasks[id].WritingEnd? then system.tasks[id].statusIfRunning else Failed;
      EndTask(system.(rows := EndIfRunning(system.rows, id, status)), id)
    case EndFails(id) =>
      if system.tasks[id].WritingEnd? then system.(tasks := system.tasks[id := WritingFailure]) else EndTask(system, id)
    case WebDies => system.(tasks := map[], runningCount := 0, queue := AtRestart)
  }

  // ---------------------------------------------------------------- the invariant

  ghost predicate TaskInv(system: System, id: int)
    requires id in system.tasks
  {
    match system.tasks[id]
    case Spawning => id in system.rows && system.rows[id] == Running
    case ChildWorks => id in system.rows && system.rows[id] == Running
    case ChildWrote => id in system.rows ==> IsFinal(system.rows[id])
    case WritingEnd(status) =>
      (status == Failed || status == TimedOut) && (id in system.rows ==> system.rows[id] != Queued)
    case WritingFailure => id in system.rows ==> system.rows[id] != Queued
  }

  ghost predicate Inv(system: System) {
    && system.runningCount == |system.tasks|
    && (forall id <- system.tasks :: id < system.nextId && TaskInv(system, id))
    && (forall id <- system.rows :: id < system.nextId)
    && (system.queue.AtRestart? ==> system.tasks == map[])
    && (system.queue.AtStart? ==> system.runningCount < system.queue.concurrency)
  }

  lemma RemoveTask(tasks: map<int, Task>, id: int)
    requires id in tasks
    ensures |tasks - {id}| == |tasks| - 1
  {
    assert (tasks - {id}).Keys == tasks.Keys - {id};
    assert |tasks| == |tasks.Keys| && |tasks - {id}| == |(tasks - {id}).Keys|;
  }

  lemma AddTask(tasks: map<int, Task>, id: int, task: Task)
    ensures |tasks[id := task]| == if id in tasks then |tasks| else |tasks| + 1
  {
    assert tasks[id := task].Keys == tasks.Keys + {id};
    assert |tasks| == |tasks.Keys| && |tasks[id := task]| == |tasks[id := task].Keys|;
  }

  predicate IsRouteStep(step: Step) {
    step.Submit? || step.CancelRuns? || step.LockRow? || step.UnlockRow? || step.DeleteRow?
  }

  lemma RouteStepKeepsInv(system: System, step: Step)
    requires Inv(system) && IsEnabled(system, step) && IsRouteStep(step)
    ensures Inv(After(system, step))
  {
  }

  lemma QueueStepKeepsInv(system: System, step: Step)
    requires Inv(system) && IsEnabled(system, step)
    requires step.FailRunningRows? || step.ReadLimits? || step.StartNext? || step.QueueFails? || step.WebDies?
    ensures Inv(After(system, step))
  {
    if step.StartNext? && OldestFree(system.rows, system.locked).Some? {
      AddTask(system.tasks, OldestFree(system.rows, system.locked).value, Spawning);
    }
  }

  lemma TaskStepKeepsInv(system: System, step: Step, id: int, task: Task)
    requires Inv(system) && IsEnabled(system, step) && id in system.tasks
    requires After(system, step).tasks == system.tasks[id := task]
    requires After(system, step).queue == system.queue && After(system, step).runningCount == system.runningCount
    requires After(system, step).nextId == system.nextId && After(system, step).rows.Keys == system.rows.Keys
    requires forall other <- system.rows :: other != id ==> After(system, step).rows[other] == system.rows[other]
    requires TaskInv(After(system, step), id)
    ensures Inv(After(system, step))
  {
    AddTask(system.tasks, id, task);
    var next := After(system, step);
    forall other <- next.tasks ensures TaskInv(next, other) {
      if other != id {
        assert TaskInv(system, other);
      }
    }
  }

  lemma EndStepKeepsInv(system: System, step: Step, id: int)
    requires Inv(system) && IsEnabled(system, step) && (step == EndIsWritten(id) || step == EndFails(id))
    ensures Inv(After(system, step))
  {
    RemoveTask(system.tasks, id);
    AddTask(system.tasks, id, WritingFailure);
    var next := After(system, step);
    forall other <- next.tasks ensures TaskInv(next, other) {
      assert TaskInv(system, other);
    }
  }

  lemma StepKeepsInv(system: System, step: Step)
    requires Inv(system) && IsEnabled(system, step)
    ensures Inv(After(system, step))
  {
    match step
    case Spawned(id) => TaskStepKeepsInv(system, step, id, ChildWorks);
    case SpawnFails(id) => TaskStepKeepsInv(system, step, id, WritingFailure);
    case ChildSaves(id, status) => TaskStepKeepsInv(system, step, id, ChildWrote);
    case ChildEnds(id) => TaskStepKeepsInv(system, step, id, WritingEnd(Failed));
    case TimesOut(id) => TaskStepKeepsInv(system, step, id, WritingEnd(TimedOut));
    case EndIsWritten(id) => EndStepKeepsInv(system, step, id);
    case EndFails(id) => EndStepKeepsInv(system, step, id);
    case _ =>
      if IsRouteStep(step) {
        RouteStepKeepsInv(system, step);
      } else {
        QueueStepKeepsInv(system, step);
      }
  }

  // ---------------------------------------------------------------- one step of one row

  /** queued -> running or cancelled, running -> a final status, and a final status only goes with its row. */
  predicate IsLegal(before: Status, after: Status) {
    after == before || (before == Queued && (after == Running || after == Cancelled))
    || (before == Running && (after == Finished || after == Failed || after == TimedOut))
  }

  lemma StatusChangesAreLegal(system: System, step: Step, id: int)
    requires Inv(system) && IsEnabled(system, step) && id in system.rows
    ensures var next := After(system, step);
      if id in next.rows then IsLegal(system.rows[id], next.rows[id]) else IsFinal(system.rows[id])
  {
    if step.EndIsWritten? || step.ChildSaves? {
      assert TaskInv(system, step.id);
    }
  }

  /** A deleted ID never comes back. */
  lemma NewRowsHaveNewIds(system: System, step: Step, id: int)
    requires Inv(system) && IsEnabled(system, step) && id !in system.rows && id in After(system, step).rows
    ensures step == Submit && id == system.nextId && After(system, step).rows[id] == Queued
  {
  }

  ghost predicate IsOldestQueued(rows: map<int, Status>, oldest: int) {
    IsQueued(rows, oldest) && forall id <- rows :: rows[id] == Queued ==> oldest <= id
  }

  /** A start takes the oldest queued row exactly when that row is not locked. */
  lemma StartTakesOldest(system: System, oldest: int)
    requires Inv(system) && system.queue.AtStart?
    requires IsOldestQueued(system.rows, oldest)
    ensures var next := After(system, StartNext);
      next.starts == system.starts + [oldest] <==> oldest !in system.locked
    ensures After(system, StartNext).runningCount <= system.queue.concurrency
  {
    var found, next := OldestFree(system.rows, system.locked), After(system, StartNext);
    if oldest !in system.locked {
      assert oldest in FreeQueued(system.rows, system.locked);
    }
    if found.Some? {
      assert next.starts[|system.starts|] == found.value && (system.starts + [oldest])[|system.starts|] == oldest;
    }
  }

  /** What the end of a child means: its own status stays, else the reason of the end becomes the status. */
  lemma EndTellsReason(system: System, id: int, saved: Status)
    requires Inv(system) && IsTaskAt(system, id, ChildWorks) && (saved == Finished || saved == Failed)
    ensures var timedOut := After(After(system, TimesOut(id)), EndIsWritten(id));
      id in timedOut.rows && timedOut.rows[id] == TimedOut
    ensures var ended := After(After(system, ChildEnds(id)), EndIsWritten(id));
      id in ended.rows && ended.rows[id] == Failed
    ensures var savedFirst := After(system, ChildSaves(id, saved));
      && After(After(savedFirst, TimesOut(id)), EndIsWritten(id)).rows == system.rows[id := saved]
      && After(After(savedFirst, ChildEnds(id)), EndIsWritten(id)).rows == system.rows[id := saved]
  {
    assert TaskInv(system, id);
  }

  // ---------------------------------------------------------------- runs

  ghost predicate IsStart(system: System) {
    system.tasks == map[] && system.runningCount == 0 && system.queue == AtRestart && system.starts == []
    && system.locked == {} && forall id <- system.rows :: id < system.nextId
  }

  ghost predicate IsRunStep(systems: seq<System>, steps: seq<Step>, k: nat)
    requires k < |steps| < |systems|
  {
    IsEnabled(systems[k], steps[k]) && systems[k + 1] == After(systems[k], steps[k])
  }

  ghost predicate IsRun(systems: seq<System>, steps: seq<Step>) {
    |systems| == |steps| + 1 && IsStart(systems[0]) && forall k :: 0 <= k < |steps| ==> IsRunStep(systems, steps, k)
  }

  lemma {:induction false} RunKeepsInv(systems: seq<System>, steps: seq<Step>, k: nat)
    requires IsRun(systems, steps) && k < |systems|
    ensures Inv(systems[k])
  {
    if k > 0 {
      RunKeepsInv(systems, steps, k - 1);
      assert IsRunStep(systems, steps, k - 1);
      StepKeepsInv(systems[k - 1], steps[k - 1]);
    }
  }

  /** In each run, each step changes the status of a row only along its legal path. */
  lemma RunStatusesAreLegal(systems: seq<System>, steps: seq<Step>, k: nat, id: int)
    requires IsRun(systems, steps) && k < |steps|
    ensures id in systems[k].rows && id in systems[k + 1].rows ==> IsLegal(systems[k].rows[id], systems[k + 1].rows[id])
    ensures id in systems[k].rows && id !in systems[k + 1].rows ==> IsFinal(systems[k].rows[id])
    ensures id !in systems[k].rows && id in systems[k + 1].rows ==> systems[k + 1].rows[id] == Queued
  {
    RunKeepsInv(systems, steps, k);
    assert IsRunStep(systems, steps, k);
    if id in systems[k].rows {
      StatusChangesAreLegal(systems[k], steps[k], id);
    } else if id in systems[k + 1].rows {
      NewRowsHaveNewIds(systems[k], steps[k], id);
    }
  }

  /** The backtest ended with the status, or it is deleted. */
  ghost predicate HasEnded(system: System, id: int, status: Status) {
    IsFinal(status) && id < system.nextId && (id in system.rows ==> system.rows[id] == status)
  }

  lemma EndedStays(system: System, step: Step, id: int, status: Status)
    requires Inv(system) && IsEnabled(system, step) && HasEnded(system, id, status)
    ensures HasEnded(After(system, step), id, status)
  {
    if id in system.rows {
      StatusChangesAreLegal(system, step, id);
    } else if id in After(system, step).rows {
      NewRowsHaveNewIds(system, step, id);
    }
  }

  /** A final status never changes, although the child writes without a status guard. */
  lemma {:induction false} FinalStatusStays(systems: seq<System>, steps: seq<Step>, id: int, i: nat, j: nat)
    requires IsRun(systems, steps) && i <= j < |systems|
    requires id in systems[i].rows && IsFinal(systems[i].rows[id])
    ensures HasEnded(systems[j], id, systems[i].rows[id])
    decreases j
  {
    if i < j {
      FinalStatusStays(systems, steps, id, i, j - 1);
      RunKeepsInv(systems, steps, j - 1);
      assert IsRunStep(systems, steps, j - 1);
      EndedStays(systems[j - 1], steps[j - 1], id, systems[i].rows[id]);
    } else {
      RunKeepsInv(systems, steps, i);
    }
  }

  /** The count of the runner is the number of its child tasks, and a start comes only below the limit. */
  lemma CountIsTasks(systems: seq<System>, steps: seq<Step>, k: nat)
    requires IsRun(systems, steps) && k < |systems|
    ensures systems[k].runningCount == |systems[k].tasks|
    ensures k < |steps| && steps[k].StartNext? ==>
              systems[k].queue.AtStart? && systems[k + 1].runningCount <= systems[k].queue.concurrency
  {
    RunKeepsInv(systems, steps, k);
    if k < |steps| {
      assert IsRunStep(systems, steps, k);
    }
  }

  ghost predicate StartsBeforeQueued(system: System) {
    && Ascending(system.starts)
    && (forall start <- system.starts :: start < system.nextId)
    && (forall start <- system.starts, id <- system.rows :: system.rows[id] == Queued ==> start < id)
  }

  /** No other transaction holds the lock of the oldest queued row. */
  ghost predicate IsOldestFree(system: System) {
    forall oldest <- system.locked :: !IsOldestQueued(system.rows, oldest)
  }

  lemma OldestFreeIsOldest(system: System)
    requires IsOldestFree(system) && OldestFree(system.rows, system.locked).Some?
    ensures IsOldestQueued(system.rows, OldestFree(system.rows, system.locked).value)
  {
    var queued := FreeQueued(system.rows, {});
    assert OldestFree(system.rows, system.locked).value in queued;
    var oldest := MinOf(queued);
    forall id <- system.rows | system.rows[id] == Queued ensures oldest <= id {
      assert id in queued;
    }
    assert IsOldestQueued(system.rows, oldest);
    assert oldest in FreeQueued(system.rows, system.locked);
  }

  lemma UnlockedStepKeepsOrder(system: System, step: Step)
    requires Inv(system) && StartsBeforeQueued(system) && IsEnabled(system, step)
    requires step.StartNext? ==> IsOldestFree(system)
    ensures StartsBeforeQueued(After(system, step))
  {
    var oldest := OldestFree(system.rows, system.locked);
    if step.StartNext? && oldest.Some? {
      OldestFreeIsOldest(system);
      AscendingAppend(system.starts, oldest.value);
    }
  }

  /** When no start finds the oldest queued row locked, the backtests start in the order of their IDs. */
  lemma {:induction false} StartsAreAscending(systems: seq<System>, steps: seq<Step>, k: nat)
    requires IsRun(systems, steps) && k < |systems|
    requires forall i :: 0 <= i < k && steps[i].StartNext? ==> IsOldestFree(systems[i])
    ensures StartsBeforeQueued(systems[k])
  {
    if k > 0 {
      StartsAreAscending(systems, steps, k - 1);
      RunKeepsInv(systems, steps, k - 1);
      assert IsRunStep(systems, steps, k - 1);
      UnlockedStepKeepsOrder(systems[k - 1], steps[k - 1]);
    }
  }

  // ---------------------------------------------------------------- a run in which a later backtest starts first

  ghost predicate IsReached(system: System) {
    exists systems, steps :: EndsAt(systems, steps, system)
  }

  ghost predicate EndsAt(systems: seq<System>, steps: seq<Step>, system: System) {
    IsRun(systems, steps) && systems[|steps|] == system
  }

  lemma ExtendRun(systems: seq<System>, steps: seq<Step>, step: Step)
    requires IsRun(systems, steps) && IsEnabled(systems[|steps|], step)
    ensures IsRun(systems + [After(systems[|steps|], step)], steps + [step])
  {
    var longer := systems + [After(systems[|steps|], step)];
    forall k | 0 <= k < |steps + [step]| ensures IsRunStep(longer, steps + [step], k) {
      if k < |steps| {
        assert IsRunStep(systems, steps, k);
      }
    }
  }

  lemma Go(system: System, step: Step) returns (next: System)
    requires IsReached(system) && IsEnabled(system, step)
    ensures next == After(system, step) && IsReached(next)
  {
    var systems, steps :| EndsAt(systems, steps, system);
    next := After(system, step);
    ExtendRun(systems, steps, step);
    assert EndsAt(systems + [next], steps + [step], next);
  }

  /** 2 queued backtests, and a delete that locked the first one. */
  lemma LockedQueue() returns (system: System)
    ensures IsReached(system)
    ensures system == System(map[1 := Queued, 2 := Queued], 3, {1}, map[], 0, AtStart(2), [])
  {
    system := System(map[], 1, {}, map[], 0, AtRestart, []);
    assert EndsAt([system], [], system);
    system := Go(system, Submit);
    system := Go(system, Submit);
    system := Go(system, FailRunningRows);
    system := Go(system, LockRow(1));
    system := Go(system, ReadLimits(2));
  }

  /** A lock on the oldest queued row, for example of a refused delete, lets a later backtest start first. */
  lemma LockedRowStartsLater() returns (system: System)
    ensures IsReached(system) && system.starts == [2, 1] && system.rows == map[1 := Running, 2 := Running]
  {
    system := LockedQueue();
    assert FreeQueued(system.rows, {1}) == {2};
    system := Go(system, StartNext);
    system := Go(system, UnlockRow(1));
    assert FreeQueued(system.rows, {}) == {1};
    system := Go(system, StartNext);
  }
}
