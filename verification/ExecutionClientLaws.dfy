/** Exactly-once fill events and sound cancels, over every run of the execution client. */
module ExecutionClientLaws {
  import opened Sequences
  import opened ExecutionClient
  import opened ExecutionClientProtocol

  // ---------------------------------------------------------------- every step keeps the invariant

  predicate IsBrokerStep(step: Step) { step.Tick? || step.OrderArrives? || step.OrderEnds? }

  lemma BrokerStepKeepsInv(world: World, step: Step)
    requires Inv(world) && IsStepEnabled(world, step) && IsBrokerStep(step)
    ensures Inv(After(world, step))
  {
  }

  lemma ExecutionKeepsInv(world: World, step: Step)
    requires Inv(world) && IsStepEnabled(world, step) && (step.OrderFills? || step.ForeignExecution?)
    ensures Inv(After(world, step))
  {
  }

  lemma PlacedOrderKeepsInv(world: World, orderId: int)
    requires Inv(world) && IsStepEnabled(world, PlaceOrderReturns(orderId))
    ensures Inv(After(world, PlaceOrderReturns(orderId)))
  {
  }

  lemma LoopKeepsInv(world: World, executions: seq<Execution>, start: nat)
    requires OrdersInv(world) && SavesInv(world) && SessionInv(world) && world.saves == world.client.fillEvents
    requires start <= |executions| && forall e <- executions :: e in world.executions
    ensures Inv(RunLoop(world, executions, start))
  {
  }

  /** The execution of a save is not in the saves before it. */
  lemma SaveIsNew(world: World)
    requires Inv(world) && world.task.AtSaveFill?
    ensures forall save <- world.saves :: !AreSame(save, world.task.executions[world.task.index])
  {
    forall save <- world.saves ensures !AreSame(save, world.task.executions[world.task.index]) {
      assert IsSaved(world.client, save);
    }
  }

  lemma SaveIsAdded(saves: seq<Execution>, execution: Execution, orderId: int, executionId: int)
    ensures HasSave(saves + [execution], orderId, executionId)
       <==> HasSave(saves, orderId, executionId)
            || (execution.orderId == orderId && execution.executionId == executionId)
  {
    var after := saves + [execution];
    assert after[|saves|] == execution;
    if HasSave(saves, orderId, executionId) {
      var i :| 0 <= i < |saves| && saves[i].orderId == orderId && saves[i].executionId == executionId;
      assert after[i] == saves[i];
    }
  }

  lemma MarkKeepsSaves(world: World)
    requires Inv(world) && world.task.AtSaveFill?
    ensures SavesInv(After(world, SaveReturns))
  {
    var execution := world.task.executions[world.task.index];
    var next := After(world, SaveReturns);
    SaveIsNew(world);
    forall orderId, executionId
      | orderId in next.client.sentOrders && executionId in next.client.sentOrders[orderId].savedExecutionIds
      ensures HasSave(next.saves, orderId, executionId)
    {
      SaveIsAdded(world.saves, execution, orderId, executionId);
    }
  }

  lemma SaveKeepsInv(world: World)
    requires Inv(world) && IsStepEnabled(world, SaveReturns)
    ensures Inv(After(world, SaveReturns))
  {
    MarkKeepsSaves(world);
  }

  lemma OpenOrdersKeepInv(world: World, answerIds: set<int>)
    requires Inv(world) && IsStepEnabled(world, OpenOrdersReturn(answerIds))
    ensures Inv(After(world, OpenOrdersReturn(answerIds)))
  {
  }

  lemma SentFillKeepsInv(world: World, step: Step)
    requires Inv(world) && IsStepEnabled(world, step) && (step.CashFails? || step.Disconnects?)
    ensures Inv(After(world, step))
  {
  }

  lemma FailureKeepsInv(world: World, step: Step)
    requires Inv(world) && IsStepEnabled(world, step) && (step.ConnectFails? || step.ReadFails? || step.SaveFails?)
    ensures Inv(After(world, step))
  {
  }

  lemma WakeKeepsInv(world: World, status: GatewayStatus)
    requires Inv(world) && IsStepEnabled(world, Wakes(status))
    ensures Inv(After(world, Wakes(status)))
  {
  }

  lemma ConnectKeepsInv(world: World)
    requires Inv(world) && IsStepEnabled(world, ConnectReturns)
    ensures Inv(After(world, ConnectReturns))
  {
  }

  lemma CheckKeepsInv(world: World, status: GatewayStatus)
    requires Inv(world) && IsStepEnabled(world, ChecksOpenOrders(status))
    ensures Inv(After(world, ChecksOpenOrders(status)))
  {
  }

  lemma CancelsKeepInv(world: World, all: seq<Execution>, cacheOpenIds: set<int>)
    requires Inv(world) && IsStepEnabled(world, AllExecutionsReturn(all, cacheOpenIds))
    ensures Inv(After(world, AllExecutionsReturn(all, cacheOpenIds)))
  {
  }

  lemma StepKeepsInv(world: World, step: Step)
    requires Inv(world) && IsStepEnabled(world, step)
    ensures Inv(After(world, step))
  {
    match step
    case Tick(_, _) => BrokerStepKeepsInv(world, step);
    case OrderArrives(_) => BrokerStepKeepsInv(world, step);
    case OrderFills(_, _, _) => ExecutionKeepsInv(world, step);
    case OrderEnds(_) => BrokerStepKeepsInv(world, step);
    case ForeignExecution(_) => ExecutionKeepsInv(world, step);
    case PlaceOrderReturns(orderId) => PlacedOrderKeepsInv(world, orderId);
    case ExecutionsReturn(answer) => LoopKeepsInv(world, answer, 0);
    case SaveReturns => SaveKeepsInv(world);
    case CashFails => SentFillKeepsInv(world, step);
    case Disconnects => SentFillKeepsInv(world, step);
    case CashReturns => LoopKeepsInv(SendInFlight(world), world.task.executions, world.task.index + 1);
    case OpenOrdersReturn(answerIds) => OpenOrdersKeepInv(world, answerIds);
    case ConnectFails => FailureKeepsInv(world, step);
    case ReadFails => FailureKeepsInv(world, step);
    case SaveFails => FailureKeepsInv(world, step);
    case AllExecutionsReturn(all, cacheOpenIds) => CancelsKeepInv(world, all, cacheOpenIds);
    case Wakes(status) => WakeKeepsInv(world, status);
    case ConnectReturns => ConnectKeepsInv(world);
    case ChecksOpenOrders(status) => CheckKeepsInv(world, status);
  }

  // ---------------------------------------------------------------- runs

  /** A new client. IBKR can have orders and executions of earlier runs of the client ID. */
  ghost predicate IsStart(world: World) {
    && world.client == Client(world.client.settings, [], map[], false, 0, 0, [], [])
    && world.task == AtSleep && !world.isStopping && world.saves == [] && !world.isNewSession
    && OrdersInv(world)
  }

  ghost predicate IsRunStep(worlds: seq<World>, steps: seq<Step>, k: nat)
    requires k < |steps| < |worlds|
  {
    TaskInv(worlds[k]) && IsStepEnabled(worlds[k], steps[k]) && worlds[k + 1] == After(worlds[k], steps[k])
  }

  ghost predicate IsRun(worlds: seq<World>, steps: seq<Step>) {
    |worlds| == |steps| + 1 && IsStart(worlds[0]) && forall k :: 0 <= k < |steps| ==> IsRunStep(worlds, steps, k)
  }

  lemma {:induction false} RunKeepsInv(worlds: seq<World>, steps: seq<Step>, k: nat)
    requires IsRun(worlds, steps) && k < |worlds|
    ensures Inv(worlds[k])
  {
    if k > 0 {
      RunKeepsInv(worlds, steps, k - 1);
      assert IsRunStep(worlds, steps, k - 1);
      StepKeepsInv(worlds[k - 1], steps[k - 1]);
    }
  }

  /** A world whose task is where the invariant says can take each enabled step, so no run gets stuck in the model. */
  lemma RunsGoOn(worlds: seq<World>, steps: seq<Step>, step: Step)
    requires IsRun(worlds, steps) && IsStepEnabled(worlds[|steps|], step)
    ensures TaskInv(worlds[|steps|])
    ensures IsRun(worlds + [After(worlds[|steps|], step)], steps + [step])
  {
    RunKeepsInv(worlds, steps, |steps|);
    var longer := worlds + [After(worlds[|steps|], step)];
    forall k | 0 <= k < |steps + [step]| ensures IsRunStep(longer, steps + [step], k) {
      if k < |steps| {
        assert IsRunStep(worlds, steps, k);
      }
    }
  }

  /**
   * Each fill event is for a different execution of an own order of this run, and comes after its ledger save returned.
   * No returned save is without its event, except while its cash read is under way.
   */
  lemma FillsAreSentOnce(worlds: seq<World>, steps: seq<Step>, k: nat)
    requires IsRun(worlds, steps) && k < |worlds|
    ensures var world := worlds[k]; var events := world.client.fillEvents;
      && (forall i, j :: 0 <= i < j < |events| ==> !AreSame(events[i], events[j]))
      && (forall event <- events ::
            IsOwn(world, event) && event in world.executions && event.orderId in world.client.sentOrders)
      && events <= world.saves && |world.saves| <= |events| + 1
      && (!world.task.AtReadCash? ==> events == world.saves)
  {
    RunKeepsInv(worlds, steps, k);
    var world := worlds[k];
    forall i | 0 <= i < |world.client.fillEvents|
      ensures i < |world.saves| && world.client.fillEvents[i] == world.saves[i] && world.saves[i] in world.saves
    {
    }
  }

  lemma {:induction false} EventsAndSavesStay(worlds: seq<World>, steps: seq<Step>, i: nat, j: nat)
    requires IsRun(worlds, steps) && i <= j < |worlds|
    ensures worlds[i].client.fillEvents <= worlds[j].client.fillEvents && worlds[i].saves <= worlds[j].saves
    ensures worlds[i].client.cancelEvents <= worlds[j].client.cancelEvents
    decreases j
  {
    if i < j {
      EventsAndSavesStay(worlds, steps, i, j - 1);
      assert IsRunStep(worlds, steps, j - 1);
      EventsGrow(worlds[j - 1], steps[j - 1]);
    }
  }

  lemma EventsGrow(world: World, step: Step)
    requires TaskInv(world) && IsStepEnabled(world, step)
    ensures var next := After(world, step);
      && world.client.fillEvents <= next.client.fillEvents && world.saves <= next.saves
      && world.client.cancelEvents <= next.client.cancelEvents
  {
  }

  // ---------------------------------------------------------------- cancels

  ghost predicate IsFullySaved(world: World, orderId: int) {
    forall execution <- world.executions ::
      IsOwn(world, execution) && execution.orderId == orderId ==> IsSaved(world.client, execution)
  }

  ghost predicate HasOldUnsavedFill(world: World, orderId: int) {
    exists execution <- world.executions :: IsOldUnsavedFill(world, orderId, execution)
  }

  ghost predicate IsOldUnsavedFill(world: World, orderId: int, execution: Execution) {
    && IsOwn(world, execution)
    && execution.orderId == orderId
    && !IsSaved(world.client, execution)
    && execution.day < world.day
  }

  /** In step `m` the ledger save of the execution returned. */
  ghost predicate IsSaveStep(worlds: seq<World>, steps: seq<Step>, m: nat, orderId: int, executionId: int)
    requires |steps| < |worlds|
  {
    && m < |steps| && steps[m].SaveReturns?
    && worlds[m].task.AtSaveFill? && worlds[m].task.index < |worlds[m].task.executions|
    && worlds[m].task.executions[worlds[m].task.index].orderId == orderId
    && worlds[m].task.executions[worlds[m].task.index].executionId == executionId
  }

  ghost predicate WasSaved(worlds: seq<World>, steps: seq<Step>, k: nat, orderId: int, executionId: int)
    requires |steps| < |worlds|
  {
    exists m :: 0 <= m < k && IsSaveStep(worlds, steps, m, orderId, executionId)
  }

  /** In step `m` the own order of the execution filled, on its day. */
  ghost predicate IsFillStep(worlds: seq<World>, steps: seq<Step>, m: nat, execution: Execution)
    requires |steps| < |worlds|
  {
    && m < |steps| && steps[m].OrderFills? && IsOwn(worlds[m], execution) && worlds[m].day == execution.day
    && steps[m].orderId == execution.orderId && steps[m].executionId == execution.executionId
  }

  /** IBKR had the execution at the start, or the order filled in the run. */
  ghost predicate HasFilled(worlds: seq<World>, steps: seq<Step>, k: nat, execution: Execution)
    requires |steps| < |worlds|
  {
    execution in worlds[0].executions || exists m :: 0 <= m < k && IsFillStep(worlds, steps, m, execution)
  }

  lemma StepAppendsSave(worlds: seq<World>, steps: seq<Step>, k: nat, orderId: int, executionId: int)
    requires IsRun(worlds, steps) && k < |steps|
    ensures HasSave(worlds[k + 1].saves, orderId, executionId)
       <==> HasSave(worlds[k].saves, orderId, executionId) || IsSaveStep(worlds, steps, k, orderId, executionId)
  {
    assert IsRunStep(worlds, steps, k);
    EventsGrow(worlds[k], steps[k]);
    var before, after := worlds[k].saves, worlds[k + 1].saves;
    if steps[k].SaveReturns? {
      assert after == before + [worlds[k].task.executions[worlds[k].task.index]];
      assert after[|before|] == worlds[k].task.executions[worlds[k].task.index];
    } else {
      assert after == before;
    }
    if HasSave(before, orderId, executionId) {
      var i :| 0 <= i < |before| && before[i].orderId == orderId && before[i].executionId == executionId;
      assert after[i] == before[i];
    }
  }

  lemma {:induction false} SavesAreSteps(worlds: seq<World>, steps: seq<Step>, k: nat, orderId: int, executionId: int)
    requires IsRun(worlds, steps) && k < |worlds|
    ensures HasSave(worlds[k].saves, orderId, executionId) <==> WasSaved(worlds, steps, k, orderId, executionId)
  {
    if k > 0 {
      SavesAreSteps(worlds, steps, k - 1, orderId, executionId);
      StepAppendsSave(worlds, steps, k - 1, orderId, executionId);
    }
  }

  lemma SavedHasSave(world: World, execution: Execution)
    requires Inv(world)
    ensures IsSaved(world.client, execution) <==> HasSave(world.saves, execution.orderId, execution.executionId)
  {
    if HasSave(world.saves, execution.orderId, execution.executionId) {
      var i :| 0 <= i < |world.saves| && world.saves[i].orderId == execution.orderId
               && world.saves[i].executionId == execution.executionId;
      assert world.saves[i] in world.saves;
    }
  }

  lemma StepAddsFill(world: World, step: Step, execution: Execution)
    requires TaskInv(world) && IsStepEnabled(world, step)
    ensures After(world, step).client.settings == world.client.settings
    ensures IsOwn(world, execution) ==>
              (execution in After(world, step).executions
               <==> execution in world.executions
                    || (step.OrderFills?
                        && execution == Execution(step.orderId, world.client.settings.clientId,
                                                  step.executionId, world.day)))
  {
  }

  lemma {:induction false} OwnExecutionsAreFills(worlds: seq<World>, steps: seq<Step>, k: nat, execution: Execution)
    requires IsRun(worlds, steps) && k < |worlds|
    ensures worlds[k].client.settings == worlds[0].client.settings
    ensures IsOwn(worlds[k], execution) ==>
              (execution in worlds[k].executions <==> HasFilled(worlds, steps, k, execution))
  {
    if k > 0 {
      OwnExecutionsAreFills(worlds, steps, k - 1, execution);
      assert IsRunStep(worlds, steps, k - 1);
      StepAddsFill(worlds[k - 1], steps[k - 1], execution);
      if IsOwn(worlds[k], execution) && execution in worlds[k].executions && execution !in worlds[k - 1].executions {
        assert IsFillStep(worlds, steps, k - 1, execution);
      }
    }
  }

  /** A fill of the order on a day before the current one, and no save of it returned in the run. */
  ghost predicate IsMissedFill(worlds: seq<World>, steps: seq<Step>, k: nat, orderId: int, execution: Execution)
    requires |steps| < |worlds| && k < |worlds|
  {
    && IsOwn(worlds[k], execution) && execution.orderId == orderId && execution.day < worlds[k].day
    && HasFilled(worlds, steps, k, execution) && !WasSaved(worlds, steps, k, orderId, execution.executionId)
  }

  lemma MissedFillIsUnsaved(worlds: seq<World>, steps: seq<Step>, k: nat, orderId: int, execution: Execution)
    requires IsRun(worlds, steps) && k < |worlds|
    ensures IsMissedFill(worlds, steps, k, orderId, execution)
       <==> execution in worlds[k].executions && IsOldUnsavedFill(worlds[k], orderId, execution)
  {
    RunKeepsInv(worlds, steps, k);
    OwnExecutionsAreFills(worlds, steps, k, execution);
    SavesAreSteps(worlds, steps, k, execution.orderId, execution.executionId);
    SavedHasSave(worlds[k], execution);
  }

  /**
   * A cancelled order is done at IBKR. All its fills are saved exactly when no fill of an earlier
   * day is without a save that returned: the read of the check has only the fills of its own day.
   */
  lemma CancelsAreSound(worlds: seq<World>, steps: seq<Step>, k: nat, orderId: int)
    requires IsRun(worlds, steps) && k < |steps| && steps[k].AllExecutionsReturn?
    requires worlds[k].task.AtReadAllExecutions?
    requires orderId in EndedOrders(worlds[k].client, worlds[k].task.startedAt, worlds[k].task.openIds, steps[k].all,
                                    steps[k].cacheOpenIds)
    ensures orderId in worlds[k].client.sentOrders && orderId !in worlds[k].openIds
    ensures IsFullySaved(worlds[k], orderId)
       <==> !exists execution :: IsMissedFill(worlds, steps, k, orderId, execution)
  {
    RunKeepsInv(worlds, steps, k);
    assert IsRunStep(worlds, steps, k);
    CancelledOrderIsDone(worlds[k], steps[k].all, steps[k].cacheOpenIds, orderId);
    forall execution ensures IsMissedFill(worlds, steps, k, orderId, execution)
                        <==> execution in worlds[k].executions && IsOldUnsavedFill(worlds[k], orderId, execution)
    {
      MissedFillIsUnsaved(worlds, steps, k, orderId, execution);
    }
  }

  lemma CancelledOrderIsDone(world: World, all: seq<Execution>, cacheOpenIds: set<int>, orderId: int)
    requires Inv(world) && IsStepEnabled(world, AllExecutionsReturn(all, cacheOpenIds))
    requires orderId in EndedOrders(world.client, world.task.startedAt, world.task.openIds, all, cacheOpenIds)
    ensures orderId in world.client.sentOrders && orderId !in world.openIds
    ensures IsFullySaved(world, orderId) <==> !HasOldUnsavedFill(world, orderId)
  {
    FilterKeeps(world.client.sentIds,
                id => IsEnded(world.client, world.task.startedAt, world.task.openIds, all, id) && id in cacheOpenIds,
                orderId);
    assert IsOldOrder(world.client, orderId, world.task.startedAt);
    forall execution <- world.executions
      | IsOwn(world, execution) && execution.orderId == orderId && execution.day >= world.day
      ensures IsSaved(world.client, execution)
    {
      assert execution in world.task.known && execution in all;
      var i :| 0 <= i < |all| && all[i] == execution;
      assert !IsNewFill(world.client, all[i]);
    }
  }

  /** Each cancel goes to one of the ended orders, and each ended order that is open in the engine gets one. */
  lemma EndedOrdersAreCancelled(world: World, all: seq<Execution>, cacheOpenIds: set<int>, orderId: int)
    requires Inv(world) && IsStepEnabled(world, AllExecutionsReturn(all, cacheOpenIds))
    requires orderId in world.client.sentIds && orderId in cacheOpenIds && IsFullySaved(world, orderId)
    requires orderId !in world.task.openIds && IsOldOrder(world.client, orderId, world.task.startedAt)
    ensures orderId in After(world, AllExecutionsReturn(all, cacheOpenIds)).client.cancelEvents
  {
    forall i | 0 <= i < |all| && all[i].orderId == orderId ensures !IsNewFill(world.client, all[i]) {
      assert all[i] in world.executions;
    }
    FilterKeeps(world.client.sentIds,
                id => IsEnded(world.client, world.task.startedAt, world.task.openIds, all, id) && id in cacheOpenIds,
                orderId);
  }

  // ---------------------------------------------------------------- a run in which a cancel is wrong

  ghost predicate IsReached(world: World) {
    exists worlds, steps :: IsRun(worlds, steps) && EndsAt(worlds, world)
  }

  ghost predicate EndsAt(worlds: seq<World>, world: World) {
    worlds != [] && worlds[|worlds| - 1] == world
  }

  lemma Go(world: World, step: Step) returns (next: World)
    requires IsReached(world) && IsStepEnabled(world, step)
    ensures TaskInv(world) && next == After(world, step) && IsReached(next)
  {
    var worlds, steps :| IsRun(worlds, steps) && EndsAt(worlds, world);
    RunsGoOn(worlds, steps, step);
    next := After(world, step);
    assert EndsAt(worlds + [next], next);
  }

  lemma PlacedOrder() returns (world: World)
    ensures IsReached(world)
    ensures world
         == World(Client(Settings(10, 10, 60), [1], map[1 := SentOrder({}, 0)], false, 0, 0, [], []), AtSleep, false,
                  [], 0, 0, {1}, {1}, {}, false)
  {
    world := World(Client(Settings(10, 10, 60), [], map[], false, 0, 0, [], []), AtSleep, false,
                   [], 0, 0, {}, {}, {}, false);
    assert IsRun([world], []) && EndsAt([world], world);
    world := Go(world, OrderArrives(1));
    world := Go(world, PlaceOrderReturns(1));
  }

  /** Order 1 filled on day 0 after the last read of that day. */
  lemma FilledOrder() returns (world: World)
    ensures IsReached(world)
    ensures world
         == World(Client(Settings(10, 10, 60), [1], map[1 := SentOrder({}, 0)], false, 0, 0, [], []), AtSleep, false,
                  [], 0, 0, {1}, {}, {Execution(1, 10, 7, 0)}, false)
  {
    world := PlacedOrder();
    world := Go(world, OrderFills(7, 1, true));
  }

  /** The first read of the next day returned nothing. */
  lemma ReadOfNextDay() returns (world: World)
    ensures IsReached(world)
    ensures world == World(Client(Settings(10, 10, 60), [1], map[1 := SentOrder({}, 0)], false, 0, 0, [], []),
                           AtCheckOpenOrders, false, [], 100, 1, {1}, {}, {Execution(1, 10, 7, 0)}, false)
  {
    world := FilledOrder();
    world := Go(world, Tick(100, 1));
    world := Go(world, Wakes(Connected));
    world := Go(world, ExecutionsReturn([]));
  }

  /** The next day, the check read the open orders: the filled order is not among them. */
  lemma CheckOfNextDay() returns (world: World)
    ensures IsReached(world)
    ensures world == World(Client(Settings(10, 10, 60), [1], map[1 := SentOrder({}, 0)], false, 0, 160, [], []),
                           AtReadAllExecutions(100, {}, {Execution(1, 10, 7, 0)}), false, [],
                           100, 1, {1}, {}, {Execution(1, 10, 7, 0)}, false)
  {
    world := ReadOfNextDay();
    world := Go(world, ChecksOpenOrders(Connected));
    world := Go(world, OpenOrdersReturn({}));
  }

  lemma OnlyOrderIsEnded(client: Client, now: int, openIds: set<int>, executions: seq<Execution>,
                         cacheOpenIds: set<int>)
    requires client.sentIds == [1] && IsEnded(client, now, openIds, executions, 1) && 1 in cacheOpenIds
    ensures EndedOrders(client, now, openIds, executions, cacheOpenIds) == [1]
  {
    FilterOne(1, orderId => IsEnded(client, now, openIds, executions, orderId) && orderId in cacheOpenIds);
  }

  /** A fill that no save took before the day ended is not in the answer of the next day, so the order gets a cancel. */
  lemma CancelCanMissFillOfEarlierDay() returns (world: World)
    ensures IsReached(world)
    ensures world.client.cancelEvents == [1] && world.executions == {Execution(1, 10, 7, 0)} && world.saves == []
  {
    world := CheckOfNextDay();
    OnlyOrderIsEnded(world.client, 100, {}, [], {1});
    world := Go(world, AllExecutionsReturn([], {1}));
  }
}
