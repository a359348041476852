/** The state of the execution client by the steps of its run: sends, reconnects, checks, and the end. */
module ExecutionClientHistories {
  import opened Sequences
  import opened ExecutionClient
  import opened ExecutionClientProtocol
  import opened ExecutionClientLaws

  // ---------------------------------------------------------------- the proof of an empty list

  /** A reconnect came in step `m`, and no answer to a read of the open orders from then up to step `k`. */
  ghost predicate IsReconnect(steps: seq<Step>, m: nat, k: nat)
    requires k <= |steps|
  {
    m < k && steps[m].ConnectReturns? && forall n :: m < n < k ==> !steps[n].OpenOrdersReturn?
  }

  ghost predicate IsReconnected(steps: seq<Step>, k: nat)
    requires k <= |steps|
  {
    exists m :: IsReconnect(steps, m, k)
  }

  lemma NextReconnect(steps: seq<Step>, k: nat)
    requires k < |steps|
    ensures IsReconnected(steps, k + 1)
       <==> steps[k].ConnectReturns? || (IsReconnected(steps, k) && !steps[k].OpenOrdersReturn?)
  {
    if steps[k].ConnectReturns? {
      assert IsReconnect(steps, k, k + 1);
    } else if IsReconnected(steps, k) && !steps[k].OpenOrdersReturn? {
      var m :| IsReconnect(steps, m, k);
      assert IsReconnect(steps, m, k + 1);
    }
    if IsReconnected(steps, k + 1) && !steps[k].ConnectReturns? {
      var m :| IsReconnect(steps, m, k + 1);
      assert IsReconnect(steps, m, k);
    }
  }

  lemma StepProvesList(world: World, step: Step)
    requires Inv(world) && IsStepEnabled(world, step)
    ensures After(world, step).client.isListUnproved
       <==> step.ConnectReturns? || (world.client.isListUnproved && !step.OpenOrdersReturn?)
  {
  }

  /** In each run, an empty list is no proof exactly when it is the first answer since a reconnect. */
  lemma {:induction false} UnprovedSinceReconnect(worlds: seq<World>, steps: seq<Step>, k: nat)
    requires IsRun(worlds, steps) && k < |worlds|
    ensures worlds[k].client.isListUnproved <==> IsReconnected(steps, k)
    ensures worlds[k].isNewSession <==> IsReconnected(steps, k)
  {
    RunKeepsInv(worlds, steps, k);
    if k > 0 {
      UnprovedSinceReconnect(worlds, steps, k - 1);
      RunKeepsInv(worlds, steps, k - 1);
      assert IsRunStep(worlds, steps, k - 1);
      NextReconnect(steps, k - 1);
      StepProvesList(worlds[k - 1], steps[k - 1]);
    }
  }

  /** In each run, an answer goes on to the executions exactly unless it is an empty first list after a reconnect. */
  lemma AnswersGoOn(worlds: seq<World>, steps: seq<Step>, k: nat)
    requires IsRun(worlds, steps) && k < |steps| && steps[k].OpenOrdersReturn?
    ensures if steps[k].answerIds == {} && IsReconnected(steps, k) then worlds[k + 1].task.AtSleep?
            else worlds[k + 1].task.AtReadAllExecutions?
  {
    UnprovedSinceReconnect(worlds, steps, k);
    assert IsRunStep(worlds, steps, k);
  }

  // ---------------------------------------------------------------- sent orders

  /** The orders whose send returned, in this order. */
  ghost function PlacedIds(steps: seq<Step>, k: nat): seq<int>
    requires k <= |steps|
  {
    if k == 0 then []
    else PlacedIds(steps, k - 1) + if steps[k - 1].PlaceOrderReturns? then [steps[k - 1].orderId] else []
  }

  /** The send of the order returned in step `m`. */
  ghost predicate IsPlacedIn(steps: seq<Step>, m: nat, k: nat, orderId: int)
    requires k <= |steps|
  {
    m < k && steps[m] == PlaceOrderReturns(orderId)
  }

  ghost predicate WasPlacedAt(worlds: seq<World>, steps: seq<Step>, k: nat, orderId: int, time: int)
    requires k <= |steps| < |worlds|
  {
    exists m: nat :: IsPlacedIn(steps, m, k, orderId) && worlds[m].now == time
  }

  ghost predicate HasSent(world: World, orderId: int, time: int) {
    orderId in world.client.sentOrders && world.client.sentOrders[orderId].sentAt == time
  }

  lemma StepSends(world: World, step: Step, orderId: int, time: int)
    requires Inv(world) && IsStepEnabled(world, step)
    ensures After(world, step).client.sentIds
         == world.client.sentIds + if step.PlaceOrderReturns? then [step.orderId] else []
    ensures HasSent(After(world, step), orderId, time)
       <==> HasSent(world, orderId, time) || (step == PlaceOrderReturns(orderId) && world.now == time)
  {
  }

  /** In each run, the client holds exactly the orders whose send returned, in their order and with their time. */
  lemma {:induction false} SentOrdersArePlaced(worlds: seq<World>, steps: seq<Step>, k: nat, orderId: int, time: int)
    requires IsRun(worlds, steps) && k < |worlds|
    ensures worlds[k].client.sentIds == PlacedIds(steps, k)
    ensures HasSent(worlds[k], orderId, time) <==> WasPlacedAt(worlds, steps, k, orderId, time)
  {
    if k > 0 {
      SentOrdersArePlaced(worlds, steps, k - 1, orderId, time);
      RunKeepsInv(worlds, steps, k - 1);
      assert IsRunStep(worlds, steps, k - 1);
      StepSends(worlds[k - 1], steps[k - 1], orderId, time);
      NextPlaced(worlds, steps, k - 1, orderId, time);
    }
  }

  lemma NextPlaced(worlds: seq<World>, steps: seq<Step>, k: nat, orderId: int, time: int)
    requires k < |steps| < |worlds|
    ensures WasPlacedAt(worlds, steps, k + 1, orderId, time)
       <==> WasPlacedAt(worlds, steps, k, orderId, time)
            || (steps[k] == PlaceOrderReturns(orderId) && worlds[k].now == time)
  {
    if WasPlacedAt(worlds, steps, k, orderId, time) {
      var m: nat :| IsPlacedIn(steps, m, k, orderId) && worlds[m].now == time;
      assert IsPlacedIn(steps, m, k + 1, orderId);
    } else if steps[k] == PlaceOrderReturns(orderId) && worlds[k].now == time {
      assert IsPlacedIn(steps, k, k + 1, orderId);
    }
    if WasPlacedAt(worlds, steps, k + 1, orderId, time) {
      var m: nat :| IsPlacedIn(steps, m, k + 1, orderId) && worlds[m].now == time;
      if m < k {
        assert IsPlacedIn(steps, m, k, orderId);
      }
    }
  }

  /** An order that IBKR has open: it arrived, or was open at the start, and has not ended since. */
  ghost predicate IsOpenAt(worlds: seq<World>, steps: seq<Step>, k: nat, orderId: int)
    requires k <= |steps| < |worlds|
  {
    if k == 0 then orderId in worlds[0].openIds
    else match steps[k - 1]
      case OrderArrives(id) => id == orderId || IsOpenAt(worlds, steps, k - 1, orderId)
      case OrderEnds(id) => id != orderId && IsOpenAt(worlds, steps, k - 1, orderId)
      case OrderFills(_, id, isLast) => !(isLast && id == orderId) && IsOpenAt(worlds, steps, k - 1, orderId)
      case _ => IsOpenAt(worlds, steps, k - 1, orderId)
  }

  lemma {:induction false} OpenOrdersAreOfSteps(worlds: seq<World>, steps: seq<Step>, k: nat, orderId: int)
    requires IsRun(worlds, steps) && k < |worlds|
    ensures orderId in worlds[k].openIds <==> IsOpenAt(worlds, steps, k, orderId)
  {
    if k > 0 {
      OpenOrdersAreOfSteps(worlds, steps, k - 1, orderId);
      assert IsRunStep(worlds, steps, k - 1);
    }
  }

  /** Another client executed in step `m`. */
  ghost predicate IsForeignStep(steps: seq<Step>, m: nat, k: nat, execution: Execution)
    requires k <= |steps|
  {
    m < k && steps[m] == ForeignExecution(execution)
  }

  ghost predicate WasForeign(steps: seq<Step>, k: nat, execution: Execution)
    requires k <= |steps|
  {
    exists m: nat :: IsForeignStep(steps, m, k, execution)
  }

  lemma NextForeign(steps: seq<Step>, k: nat, execution: Execution)
    requires k < |steps|
    ensures WasForeign(steps, k + 1, execution)
       <==> WasForeign(steps, k, execution) || steps[k] == ForeignExecution(execution)
  {
    if WasForeign(steps, k, execution) {
      var m: nat :| IsForeignStep(steps, m, k, execution);
      assert IsForeignStep(steps, m, k + 1, execution);
    } else if steps[k] == ForeignExecution(execution) {
      assert IsForeignStep(steps, k, k + 1, execution);
    }
    if WasForeign(steps, k + 1, execution) {
      var m: nat :| IsForeignStep(steps, m, k + 1, execution);
      if m < k {
        assert IsForeignStep(steps, m, k, execution);
      }
    }
  }

  /** In each run, the executions of other clients are those of the start and those that came in between. */
  lemma {:induction false} ForeignExecutionsAreOfSteps(worlds: seq<World>, steps: seq<Step>, k: nat,
                                                       execution: Execution)
    requires IsRun(worlds, steps) && k < |worlds| && !IsOwn(worlds[k], execution)
    ensures execution in worlds[k].executions
       <==> execution in worlds[0].executions || WasForeign(steps, k, execution)
  {
    if k > 0 {
      assert IsRunStep(worlds, steps, k - 1);
      StepAddsFill(worlds[k - 1], steps[k - 1], execution);
      ForeignExecutionsAreOfSteps(worlds, steps, k - 1, execution);
      NextForeign(steps, k - 1, execution);
    }
  }

  // ---------------------------------------------------------------- intervals

  /** The time of the last reconnect attempt, with or without success. */
  ghost function LastAttempt(worlds: seq<World>, steps: seq<Step>, k: nat): Option<int>
    requires k <= |steps| < |worlds|
  {
    if k == 0 then None
    else if steps[k - 1].Wakes? && worlds[k].task.AtConnect? then Some(worlds[k - 1].now)
    else LastAttempt(worlds, steps, k - 1)
  }

  ghost function LastCheck(worlds: seq<World>, steps: seq<Step>, k: nat): Option<int>
    requires k <= |steps| < |worlds|
  {
    if k == 0 then None
    else if steps[k - 1].ChecksOpenOrders? && worlds[k].task.AtReadOpenOrders? then Some(worlds[k - 1].now)
    else LastCheck(worlds, steps, k - 1)
  }

  /** Nothing came before, or the interval has passed since the last time. */
  predicate IsIntervalOver(last: Option<int>, interval: int, now: int) {
    match last
    case None => now >= 0
    case Some(time) => now >= time + interval
  }

  lemma StepSetsTimes(world: World, step: Step)
    requires Inv(world) && IsStepEnabled(world, step)
    ensures var next := After(world, step);
      && next.client.settings == world.client.settings
      && next.client.nextReconnectAt == (if step.Wakes? && next.task.AtConnect?
                                         then world.now + world.client.settings.reconnectInterval
                                         else world.client.nextReconnectAt)
      && next.client.nextOpenOrderCheckAt == (if step.ChecksOpenOrders? && next.task.AtReadOpenOrders?
                                              then world.now + world.client.settings.openOrderCheckInterval
                                              else world.client.nextOpenOrderCheckAt)
  {
  }

  ghost predicate HaveIntervals(client: Client, attempt: Option<int>, check: Option<int>) {
    && client.nextReconnectAt == (match attempt case None => 0 case Some(t) => t + client.settings.reconnectInterval)
    && client.nextOpenOrderCheckAt
       == (match check case None => 0 case Some(t) => t + client.settings.openOrderCheckInterval)
  }

  lemma {:induction false} RunHasIntervals(worlds: seq<World>, steps: seq<Step>, k: nat)
    requires IsRun(worlds, steps) && k < |worlds|
    ensures HaveIntervals(worlds[k].client, LastAttempt(worlds, steps, k), LastCheck(worlds, steps, k))
  {
    if k > 0 {
      RunHasIntervals(worlds, steps, k - 1);
      RunKeepsInv(worlds, steps, k - 1);
      assert IsRunStep(worlds, steps, k - 1);
      StepSetsTimes(worlds[k - 1], steps[k - 1]);
    }
  }

  /** In each run, a wake reconnects exactly for a lost socket, and not within the interval of the last attempt. */
  lemma ReconnectsAreSpaced(worlds: seq<World>, steps: seq<Step>, k: nat)
    requires IsRun(worlds, steps) && k < |steps| && steps[k].Wakes?
    ensures worlds[k + 1].task
         == if steps[k].status == Unreachable
               && IsIntervalOver(LastAttempt(worlds, steps, k), worlds[k].client.settings.reconnectInterval,
                                 worlds[k].now)
            then AtConnect else AtReadFills
  {
    RunHasIntervals(worlds, steps, k);
    assert IsRunStep(worlds, steps, k);
  }

  /** In each run, a check reads the open orders exactly while connected, and not within the interval of the last. */
  lemma ChecksAreSpaced(worlds: seq<World>, steps: seq<Step>, k: nat)
    requires IsRun(worlds, steps) && k < |steps| && steps[k].ChecksOpenOrders?
    ensures worlds[k + 1].task
         == if steps[k].status == Connected
               && IsIntervalOver(LastCheck(worlds, steps, k), worlds[k].client.settings.openOrderCheckInterval,
                                 worlds[k].now)
            then AtReadOpenOrders(worlds[k].now) else AtSleep
  {
    RunHasIntervals(worlds, steps, k);
    assert IsRunStep(worlds, steps, k);
  }

  // ---------------------------------------------------------------- what a cancel follows from

  /** The steps of the fill check task. */
  predicate IsTaskStep(step: Step) {
    !(step.Tick? || step.OrderArrives? || step.OrderFills? || step.OrderEnds? || step.ForeignExecution?
      || step.PlaceOrderReturns?)
  }

  /** The check of step `m` asked for the open orders while connected, and has no answer yet. */
  ghost predicate IsAsked(steps: seq<Step>, m: nat, k: nat)
    requires k <= |steps|
  {
    m < k && steps[m] == ChecksOpenOrders(Connected) && forall i :: m < i < k ==> !IsTaskStep(steps[i])
  }

  /** The list of step `n` answers the check of step `m`, is a proof, and the read of the executions is under way. */
  ghost predicate IsAnswered(steps: seq<Step>, m: nat, n: nat, k: nat)
    requires k <= |steps|
  {
    && n < k && IsAsked(steps, m, n) && steps[n].OpenOrdersReturn?
    && (steps[n].answerIds == {} ==> !IsReconnected(steps, n))
    && forall i :: n < i < k ==> !IsTaskStep(steps[i])
  }

  /** What the fill check task waits for, by the steps of its check. */
  ghost predicate IsCheckOf(worlds: seq<World>, steps: seq<Step>, k: nat)
    requires k <= |steps| < |worlds|
  {
    match worlds[k].task
    case AtReadOpenOrders(startedAt) => exists m: nat :: IsAsked(steps, m, k) && worlds[m].now == startedAt
    case AtReadAllExecutions(startedAt, openIds, known) =>
      exists m: nat, n: nat :: IsAnswered(steps, m, n, k) && worlds[m].now == startedAt && steps[n].answerIds == openIds
                     && worlds[n].executions == known
    case _ => true
  }

  lemma OtherStepKeepsTask(world: World, step: Step)
    requires Inv(world) && IsStepEnabled(world, step) && !IsTaskStep(step)
    ensures After(world, step).task == world.task
  {
  }

  lemma CheckGoesOn(worlds: seq<World>, steps: seq<Step>, k: nat)
    requires IsRun(worlds, steps) && k < |steps| && IsCheckOf(worlds, steps, k) && !IsTaskStep(steps[k])
    ensures IsCheckOf(worlds, steps, k + 1)
  {
    RunKeepsInv(worlds, steps, k);
    assert IsRunStep(worlds, steps, k);
    OtherStepKeepsTask(worlds[k], steps[k]);
    match worlds[k].task
    case AtReadOpenOrders(startedAt) =>
      var m: nat :| IsAsked(steps, m, k) && worlds[m].now == startedAt;
      assert IsAsked(steps, m, k + 1);
    case AtReadAllExecutions(startedAt, openIds, known) =>
      var m: nat, n: nat :| IsAnswered(steps, m, n, k) && worlds[m].now == startedAt && steps[n].answerIds == openIds
                  && worlds[n].executions == known;
      assert IsAnswered(steps, m, n, k + 1);
    case _ =>
  }

  lemma TaskStepOfCheck(world: World, step: Step)
    requires Inv(world) && IsStepEnabled(world, step) && IsTaskStep(step)
    ensures var next := After(world, step).task;
      && (next.AtReadOpenOrders? ==> step == ChecksOpenOrders(Connected) && next.startedAt == world.now)
      && (next.AtReadAllExecutions? ==>
            && step.OpenOrdersReturn? && world.task == AtReadOpenOrders(next.startedAt)
            && next.openIds == step.answerIds && next.known == world.executions
            && (step.answerIds == {} ==> !world.client.isListUnproved))
  {
  }

  lemma CheckAdvances(worlds: seq<World>, steps: seq<Step>, k: nat)
    requires IsRun(worlds, steps) && k < |steps| && IsCheckOf(worlds, steps, k) && IsTaskStep(steps[k])
    ensures IsCheckOf(worlds, steps, k + 1)
  {
    RunKeepsInv(worlds, steps, k);
    assert IsRunStep(worlds, steps, k);
    TaskStepOfCheck(worlds[k], steps[k]);
    if worlds[k + 1].task.AtReadOpenOrders? {
      assert IsAsked(steps, k, k + 1);
    } else if worlds[k + 1].task.AtReadAllExecutions? {
      UnprovedSinceReconnect(worlds, steps, k);
      var m: nat :| IsAsked(steps, m, k) && worlds[m].now == worlds[k].task.startedAt;
      assert IsAnswered(steps, m, k, k + 1);
    }
  }

  lemma {:induction false} RunHasCheck(worlds: seq<World>, steps: seq<Step>, k: nat)
    requires IsRun(worlds, steps) && k < |worlds|
    ensures IsCheckOf(worlds, steps, k)
  {
    if k > 0 {
      RunHasCheck(worlds, steps, k - 1);
      if IsTaskStep(steps[k - 1]) {
        CheckAdvances(worlds, steps, k - 1);
      } else {
        CheckGoesOn(worlds, steps, k - 1);
      }
    }
  }

  /** The order was sent an interval before the check of step `m`, and the list of step `n` lacks it. */
  ghost predicate IsProof(worlds: seq<World>, steps: seq<Step>, m: nat, n: nat, k: nat, orderId: int, interval: int)
    requires k <= |steps| < |worlds|
  {
    && IsAnswered(steps, m, n, k) && orderId !in steps[n].answerIds
    && exists p: nat :: IsPlacedIn(steps, p, k, orderId) && worlds[p].now + interval <= worlds[m].now
  }

  /**
   * In each run, a cancel follows from a check while connected and from its answer: the order was sent an interval
   * before the check, the list lacks it, and the list is not an empty first one after a reconnect.
   */
  lemma CancelsFollowAnswers(worlds: seq<World>, steps: seq<Step>, k: nat, orderId: int)
    requires IsRun(worlds, steps) && k < |steps|
    requires orderId in worlds[k + 1].client.cancelEvents && orderId !in worlds[k].client.cancelEvents
    ensures steps[k].AllExecutionsReturn? && orderId in steps[k].cacheOpenIds
    ensures exists m: nat, n: nat ::
              IsProof(worlds, steps, m, n, k, orderId, worlds[k].client.settings.openOrderCheckInterval)
  {
    RunKeepsInv(worlds, steps, k);
    assert IsRunStep(worlds, steps, k);
    NewCancelIsEnded(worlds[k], steps[k], orderId);
    RunHasCheck(worlds, steps, k);
    var task := worlds[k].task;
    var m: nat, n: nat :| IsAnswered(steps, m, n, k) && worlds[m].now == task.startedAt
                          && steps[n].answerIds == task.openIds;
    var sentAt := worlds[k].client.sentOrders[orderId].sentAt;
    SentOrdersArePlaced(worlds, steps, k, orderId, sentAt);
    var p: nat :| IsPlacedIn(steps, p, k, orderId) && worlds[p].now == sentAt;
    assert IsProof(worlds, steps, m, n, k, orderId, worlds[k].client.settings.openOrderCheckInterval);
  }

  lemma NewCancelIsEnded(world: World, step: Step, orderId: int)
    requires Inv(world) && IsStepEnabled(world, step)
    requires orderId in After(world, step).client.cancelEvents && orderId !in world.client.cancelEvents
    ensures step.AllExecutionsReturn? && orderId in step.cacheOpenIds
    ensures IsEnded(world.client, world.task.startedAt, world.task.openIds, step.all, orderId)
  {
    if step.AllExecutionsReturn? {
      var task := world.task;
      FilterKeeps(world.client.sentIds,
                  id => IsEnded(world.client, task.startedAt, task.openIds, step.all, id) && id in step.cacheOpenIds,
                  orderId);
    }
  }

  // ---------------------------------------------------------------- the loop of the fill check and its end

  /** The part of the loop before the check of the open orders. */
  predicate IsBeforeCheck(task: Task) {
    task.AtConnect? || task.AtReadFills? || task.AtSaveFill? || task.AtReadCash? || task.AtCheckOpenOrders?
  }

  /** From the check of the open orders up to the next wake. */
  predicate IsAfterCheck(task: Task) { task.AtReadOpenOrders? || task.AtReadAllExecutions? || task.AtSleep? }

  predicate IsBeforeRead(task: Task) { task.AtConnect? || task.AtReadFills? }

  predicate IsReadEnd(step: Step) { step.ExecutionsReturn? || step.ReadFails? }

  lemma StepOfLoop(world: World, step: Step)
    requires Inv(world) && IsStepEnabled(world, step) && !step.Disconnects? && !world.isStopping
    ensures IsBeforeCheck(world.task) && !step.ChecksOpenOrders? ==> IsBeforeCheck(After(world, step).task)
    ensures IsBeforeRead(world.task) && !IsReadEnd(step) ==> IsBeforeRead(After(world, step).task)
    ensures IsAfterCheck(world.task) && !step.Wakes? ==> IsAfterCheck(After(world, step).task)
    ensures step.Wakes? ==> IsBeforeRead(After(world, step).task)
    ensures step.ChecksOpenOrders? ==> IsAfterCheck(After(world, step).task)
    ensures !After(world, step).isStopping
  {
  }

  /** No step from `i` up to `j` is a disconnect, and the fill check is in its loop. */
  ghost predicate IsLooping(worlds: seq<World>, steps: seq<Step>, i: nat, j: nat)
    requires |steps| < |worlds|
  {
    i <= j <= |steps| && !worlds[i].isStopping && forall m :: i <= m < j ==> !steps[m].Disconnects?
  }

  /**
   * In each run, after each wake the fills are read before anything else, and after the fills, also after a failed
   * read, save, or cash read, the open orders are checked before the next sleep. After a check, also after a failed
   * read of it, nothing is read before the next wake.
   */
  lemma {:induction false} LoopKeepsOrder(worlds: seq<World>, steps: seq<Step>, i: nat, j: nat)
    requires IsRun(worlds, steps) && IsLooping(worlds, steps, i, j)
    ensures !worlds[j].isStopping
    ensures IsBeforeRead(worlds[i].task) && (forall m :: i <= m < j ==> !IsReadEnd(steps[m])) ==>
              IsBeforeRead(worlds[j].task)
    ensures IsBeforeCheck(worlds[i].task) && (forall m :: i <= m < j ==> !steps[m].ChecksOpenOrders?) ==>
              IsBeforeCheck(worlds[j].task)
    ensures IsAfterCheck(worlds[i].task) && (forall m :: i <= m < j ==> !steps[m].Wakes?) ==>
              IsAfterCheck(worlds[j].task)
    decreases j
  {
    if i < j {
      LoopKeepsOrder(worlds, steps, i, j - 1);
      RunKeepsInv(worlds, steps, j - 1);
      assert IsRunStep(worlds, steps, j - 1);
      StepOfLoop(worlds[j - 1], steps[j - 1]);
    }
  }

  /** In step `m` the fill check woke, and it has done nothing else since then. */
  ghost predicate IsAwake(steps: seq<Step>, m: nat, k: nat)
    requires k <= |steps|
  {
    m < k && steps[m].Wakes? && forall i :: m < i < k ==> !IsTaskStep(steps[i])
  }

  lemma ConnectFollowsWake(world: World, step: Step)
    requires Inv(world) && IsStepEnabled(world, step) && After(world, step).task.AtConnect?
    ensures step.Wakes? || (world.task.AtConnect? && !IsTaskStep(step))
  {
  }

  /** In each run, each wake makes at most one attempt to reconnect, and goes on to the read after it. */
  lemma {:induction false} OneAttemptForEachWake(worlds: seq<World>, steps: seq<Step>, k: nat)
    requires IsRun(worlds, steps) && k < |worlds| && worlds[k].task.AtConnect?
    ensures exists m: nat :: IsAwake(steps, m, k)
  {
    if k > 0 {
      RunKeepsInv(worlds, steps, k - 1);
      assert IsRunStep(worlds, steps, k - 1);
      ConnectFollowsWake(worlds[k - 1], steps[k - 1]);
      if steps[k - 1].Wakes? {
        assert IsAwake(steps, k - 1, k);
      } else {
        OneAttemptForEachWake(worlds, steps, k - 1);
        var m: nat :| IsAwake(steps, m, k - 1);
        assert IsAwake(steps, m, k);
      }
    }
  }

  /** After a disconnect there is only the last read of the fills, and then the end. */
  predicate IsLastRead(task: Task) { task.AtReadFills? || task.AtSaveFill? || task.AtReadCash? || task.AtEnd? }

  ghost predicate IsDisconnected(steps: seq<Step>, k: nat)
    requires k <= |steps|
  {
    exists m :: 0 <= m < k && steps[m].Disconnects?
  }

  ghost predicate IsDisconnectedAgain(steps: seq<Step>, k: nat)
    requires k <= |steps|
  {
    exists m, n :: 0 <= m < n < k && steps[m].Disconnects? && steps[n].Disconnects?
  }

  /** A read of the fills returned, failed, or was cancelled after the disconnect of step `m`. */
  ghost predicate IsReadAfter(steps: seq<Step>, m: nat, k: nat)
    requires k <= |steps|
  {
    m < k && steps[m].Disconnects? && exists n :: m < n < k && (IsReadEnd(steps[n]) || steps[n].Disconnects?)
  }

  ghost predicate IsReadSinceDisconnect(steps: seq<Step>, k: nat)
    requires k <= |steps|
  {
    exists m :: IsReadAfter(steps, m, k)
  }

  lemma StepAfterDisconnect(world: World, step: Step)
    requires Inv(world) && IsStepEnabled(world, step) && (world.isStopping ==> IsLastRead(world.task))
    requires !world.isStopping ==> !world.task.AtEnd?
    ensures var next := After(world, step);
      && (next.isStopping <==> world.isStopping || step.Disconnects?)
      && (next.isStopping ==> IsLastRead(next.task))
      && (!next.isStopping ==> !next.task.AtEnd?)
      && (!world.task.AtReadFills? || IsReadEnd(step) || step.Disconnects? || next.task == world.task)
      && (step.Disconnects? && !world.isStopping ==> next.task.AtReadFills?)
      && (step.Disconnects? && world.isStopping ==> next.task.AtEnd?)
      && (world.task.AtEnd? ==> next.task.AtEnd?)
      && (world.isStopping ==> next.client.cancelEvents == world.client.cancelEvents)
  {
  }

  lemma ReadStaysRead(steps: seq<Step>, k: nat)
    requires k < |steps| && IsReadSinceDisconnect(steps, k)
    ensures IsReadSinceDisconnect(steps, k + 1)
  {
    var m :| IsReadAfter(steps, m, k);
    assert IsReadAfter(steps, m, k + 1);
  }

  /**
   * In each run, a disconnect is followed by one more read of the fills before the end, and by nothing else: no
   * reconnect, no check, and no cancel. A second disconnect, in this read, is the end.
   */
  lemma {:induction false} LastReadBeforeEnd(worlds: seq<World>, steps: seq<Step>, k: nat)
    requires IsRun(worlds, steps) && k < |worlds|
    ensures worlds[k].isStopping <==> IsDisconnected(steps, k)
    ensures if worlds[k].isStopping then IsLastRead(worlds[k].task) else !worlds[k].task.AtEnd?
    ensures worlds[k].isStopping && !worlds[k].task.AtReadFills? ==> IsReadSinceDisconnect(steps, k)
    ensures IsDisconnectedAgain(steps, k) ==> worlds[k].task.AtEnd?
    ensures k > 0 && IsDisconnected(steps, k - 1) ==>
              worlds[k].client.cancelEvents == worlds[k - 1].client.cancelEvents
  {
    if k > 0 {
      LastReadBeforeEnd(worlds, steps, k - 1);
      RunKeepsInv(worlds, steps, k - 1);
      assert IsRunStep(worlds, steps, k - 1);
      StepAfterDisconnect(worlds[k - 1], steps[k - 1]);
      if worlds[k].isStopping && !worlds[k].task.AtReadFills? {
        if IsReadSinceDisconnect(steps, k - 1) {
          ReadStaysRead(steps, k - 1);
        } else {
          var m :| 0 <= m < k - 1 && steps[m].Disconnects?;
          assert IsReadAfter(steps, m, k);
        }
      }
    }
  }
}
