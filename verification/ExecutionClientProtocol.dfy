/**
 * The execution client against IBKR and the owner ledger. Each awaited call
 * is one step, so orders, fills, and the clock can step between two of them.
 */
module ExecutionClientProtocol {
  import opened ExecutionClient

  /** Where the fill check task is. `rest`: the index of the next execution of the answer. */
  datatype Task =
    | AtSleep
    | AtConnect
    | AtReadFills
    | AtSaveFill(executions: seq<Execution>, index: nat)
    | AtReadCash(executions: seq<Execution>, index: nat)
    | AtCheckOpenOrders
    | AtReadOpenOrders(startedAt: int)
    | AtReadAllExecutions(startedAt: int, openIds: set<int>, known: set<Execution>)
    | AtEnd

  /**
   * `usedIds`: the order IDs of this client ID so far. `openIds` and `executions`: the orders and executions at IBKR.
   * `isNewSession`: IBKR has answered no read of the open orders since the last reconnect.
   * `saves`: the ledger saves that returned, in their order. `isStopping`: the disconnect came.
   */
  datatype World = World(client: Client, task: Task, isStopping: bool, saves: seq<Execution>,
                         now: int, day: int, usedIds: set<int>, openIds: set<int>, executions: set<Execution>,
                         isNewSession: bool)

  datatype Step =
    | Tick(untilTime: int, untilDay: int)
    // IBKR
    | OrderArrives(orderId: int)
    | OrderFills(executionId: int, orderId: int, isLast: bool)
    | OrderEnds(orderId: int)
    | ForeignExecution(execution: Execution)
    // the order task
    | PlaceOrderReturns(orderId: int)
    // the fill check task
    | Wakes(status: GatewayStatus)
    | ConnectReturns
    | ConnectFails
    | ExecutionsReturn(answer: seq<Execution>)
    | ReadFails
    | SaveReturns
    | SaveFails
    | CashReturns
    | CashFails
    | ChecksOpenOrders(status: GatewayStatus)
    | OpenOrdersReturn(answerIds: set<int>)
    | AllExecutionsReturn(all: seq<Execution>, cacheOpenIds: set<int>)
    | Disconnects

  predicate IsOwn(world: World, execution: Execution) {
    execution.clientId == world.client.settings.clientId
  }

  /** The order was sent before the last interval. */
  predicate IsOldOrder(client: Client, orderId: int, startedAt: int) {
    && orderId in client.sentOrders
    && client.sentOrders[orderId].sentAt <= startedAt - client.settings.openOrderCheckInterval
  }

  /** The list holds each old open order. Only an empty first list after a reconnect can be wrong. */
  ghost predicate IsOpenListAnswer(world: World, startedAt: int, answerIds: set<int>) {
    || (world.isNewSession && answerIds == {})
    || forall orderId <- world.openIds :: IsOldOrder(world.client, orderId, startedAt) ==> orderId in answerIds
  }

  /** The answer holds the own executions of the current day that IBKR had at the request. */
  ghost predicate IsAllExecutionsAnswer(world: World, known: set<Execution>, all: seq<Execution>) {
    && (forall execution <- all :: execution in world.executions)
    && (forall execution <- known :: IsOwn(world, execution) && execution.day >= world.day ==> execution in all)
  }

  ghost predicate IsStepEnabled(world: World, step: Step) {
    match step
    case Tick(untilTime, untilDay) => world.now <= untilTime && world.day <= untilDay
    case OrderArrives(orderId) => orderId !in world.usedIds
    case OrderFills(executionId, orderId, _) =>
      && orderId in world.openIds
      && (forall execution <- world.executions :: execution.executionId != executionId)
    case OrderEnds(orderId) => orderId in world.openIds
    case ForeignExecution(execution) => !IsOwn(world, execution)
    case PlaceOrderReturns(orderId) => orderId in world.usedIds && orderId !in world.client.sentOrders
    case Wakes(_) => world.task.AtSleep?
    case ConnectReturns => world.task.AtConnect?
    case ConnectFails => world.task.AtConnect?
    case ExecutionsReturn(answer) =>
      world.task.AtReadFills? && forall execution <- answer :: execution in world.executions
    case ReadFails => world.task.AtReadFills? || world.task.AtReadOpenOrders? || world.task.AtReadAllExecutions?
    case SaveReturns => world.task.AtSaveFill?
    case SaveFails => world.task.AtSaveFill?
    case CashReturns => world.task.AtReadCash?
    case CashFails => world.task.AtReadCash?
    case ChecksOpenOrders(_) => world.task.AtCheckOpenOrders?
    case OpenOrdersReturn(answerIds) =>
      world.task.AtReadOpenOrders? && IsOpenListAnswer(world, world.task.startedAt, answerIds)
    case AllExecutionsReturn(all, _) =>
      world.task.AtReadAllExecutions? && IsAllExecutionsAnswer(world, world.task.known, all)
    case Disconnects => !world.task.AtEnd?
  }

  /** After the fills: the open order check, or the end when this was the last read. */
  function AfterFills(isStopping: bool): Task { if isStopping then AtEnd else AtCheckOpenOrders }

  /** The loop runs on to the next execution that goes to the ledger. */
  function RunLoop(world: World, executions: seq<Execution>, start: nat): World
    requires start <= |executions|
  {
    var index := NextNewFill(world.client, executions, start);
    world.(task := if index < |executions| then AtSaveFill(executions, index) else AfterFills(world.isStopping))
  }

  function AfterFailure(world: World): World {
    world.(task := match world.task
      case AtReadFills => AfterFills(world.isStopping)
      case AtSaveFill(_, _) => AfterFills(world.isStopping)
      case _ => AtSleep)
  }

  /** A failed cash read or a cancel at the cash read still sends the fill event. */
  function SendInFlight(world: World): World {
    if world.task.AtReadCash? && world.task.index < |world.task.executions|
    then world.(client := SendFillEvent(world.client, world.task.executions[world.task.index]))
    else world
  }

  ghost predicate TaskInv(world: World) {
    match world.task
    case AtSaveFill(executions, index) =>
      && index < |executions| && IsNewFill(world.client, executions[index]) && executions[index] in world.executions
      && forall e <- executions :: e in world.executions
    case AtReadCash(executions, index) =>
      && index < |executions| && executions[index].orderId in world.client.sentOrders
      && forall e <- executions :: e in world.executions
    case AtReadAllExecutions(startedAt, openIds, known) =>
      startedAt <= world.now && AreOthersDone(world, startedAt, openIds, known)
    case AtReadOpenOrders(startedAt) => startedAt <= world.now
    case _ => true
  }

  /** An old order outside the list is done at IBKR, and its executions were there before the request. */
  ghost predicate AreOthersDone(world: World, startedAt: int, openIds: set<int>, known: set<Execution>) {
    && (forall orderId <- world.openIds :: IsOldOrder(world.client, orderId, startedAt) ==> orderId in openIds)
    && (forall execution <- world.executions ::
          IsOwn(world, execution) && execution.orderId !in openIds
          && IsOldOrder(world.client, execution.orderId, startedAt)
          ==> execution in known)
  }

  function After(world: World, step: Step): World
    requires TaskInv(world) && IsStepEnabled(world, step)
  {
    match step
    case Tick(untilTime, untilDay) => world.(now := untilTime, day := untilDay)
    case OrderArrives(orderId) => world.(usedIds := world.usedIds + {orderId}, openIds := world.openIds + {orderId})
    case OrderFills(executionId, orderId, isLast) =>
      var execution := Execution(orderId, world.client.settings.clientId, executionId, world.day);
      world.(executions := world.executions + {execution},
             openIds := if isLast then world.openIds - {orderId} else world.openIds)
    case OrderEnds(orderId) => world.(openIds := world.openIds - {orderId})
    case ForeignExecution(execution) => world.(executions := world.executions + {execution})
    case PlaceOrderReturns(orderId) => world.(client := AddSentOrder(world.client, orderId, world.now))
    case Wakes(status) =>
      if IsReconnectDue(world.client, status, world.now)
      then world.(client := world.client.(nextReconnectAt := world.now + world.client.settings.reconnectInterval),
                  task := AtConnect)
      else world.(task := AtReadFills)
    case ConnectReturns =>
      world.(client := world.client.(isListUnproved := true), task := AtReadFills, isNewSession := true)
    case ConnectFails => world.(task := AtReadFills)
    case ExecutionsReturn(answer) => RunLoop(world, answer, 0)
    case ReadFails => AfterFailure(world)
    case SaveReturns =>
      var execution := world.task.executions[world.task.index];
      world.(client := MarkSaved(world.client, execution), saves := world.saves + [execution],
             task := AtReadCash(world.task.executions, world.task.index))
    case SaveFails => AfterFailure(world)
    case CashReturns => RunLoop(SendInFlight(world), world.task.executions, world.task.index + 1)
    case CashFails => SendInFlight(world).(task := AfterFills(world.isStopping))
    case ChecksOpenOrders(status) =>
      if IsOpenOrderCheckDue(world.client, status, world.now)
      then world.(client := world.client.(nextOpenOrderCheckAt :=
                                            world.now + world.client.settings.openOrderCheckInterval),
                  task := AtReadOpenOrders(world.now))
      else world.(task := AtSleep)
    case OpenOrdersReturn(answerIds) =>
      world.(client := world.client.(isListUnproved := false), isNewSession := false,
             task := if IsFirstEmptyList(world.client, answerIds) then AtSleep
                     else AtReadAllExecutions(world.task.startedAt, answerIds, world.executions))
    case AllExecutionsReturn(all, cacheOpenIds) =>
      world.(client := CancelEnded(world.client, world.task.startedAt, world.task.openIds, all, cacheOpenIds),
             task := AtSleep)
    case Disconnects =>
      SendInFlight(world).(isStopping := true, task := if world.isStopping then AtEnd else AtReadFills)
  }

  // ---------------------------------------------------------------- the invariant

  ghost predicate OrdersInv(world: World) {
    && world.client.settings.openOrderCheckInterval > 0
    && (forall orderId <- world.client.sentIds :: orderId in world.client.sentOrders)
    && (forall orderId <- world.client.sentOrders ::
          orderId in world.usedIds && world.client.sentOrders[orderId].sentAt <= world.now)
    && (forall orderId <- world.openIds :: orderId in world.usedIds)
    && (forall execution <- world.executions :: IsOwn(world, execution) ==> execution.orderId in world.usedIds)
  }

  predicate IsSaved(client: Client, execution: Execution) {
    && execution.orderId in client.sentOrders
    && execution.executionId in client.sentOrders[execution.orderId].savedExecutionIds
  }

  predicate AreSame(a: Execution, b: Execution) { a.orderId == b.orderId && a.executionId == b.executionId }

  /** The saves that returned: each one once, of an own order of this run, and exactly the marked ones. */
  ghost predicate SavesInv(world: World) {
    && (forall i, j :: 0 <= i < j < |world.saves| ==> !AreSame(world.saves[i], world.saves[j]))
    && (forall save <- world.saves :: IsOwn(world, save) && save in world.executions && IsSaved(world.client, save))
    && (forall orderId, executionId ::
          orderId in world.client.sentOrders && executionId in world.client.sentOrders[orderId].savedExecutionIds
          ==> HasSave(world.saves, orderId, executionId))
  }

  ghost predicate HasSave(saves: seq<Execution>, orderId: int, executionId: int) {
    exists i :: 0 <= i < |saves| && saves[i].orderId == orderId && saves[i].executionId == executionId
  }

  /** The fill events are the returned saves, except the one whose cash read has not ended. */
  ghost predicate EventsInv(world: World) {
    world.saves == world.client.fillEvents +
      if world.task.AtReadCash? && world.task.index < |world.task.executions|
      then [world.task.executions[world.task.index]] else []
  }

  /** The client knows that the next empty list is no proof. */
  ghost predicate SessionInv(world: World) { world.isNewSession <==> world.client.isListUnproved }

  ghost predicate Inv(world: World) {
    TaskInv(world) && OrdersInv(world) && SavesInv(world) && EventsInv(world) && SessionInv(world)
  }
}
