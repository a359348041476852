/** The execution client of one forward test: what it does between two awaited calls. */
module ExecutionClient {
  import opened Sequences

  /** `day`: the day of the execution. A read of the executions covers only the current day. */
  datatype Execution = Execution(orderId: int, clientId: int, executionId: int, day: int)

  datatype SentOrder = SentOrder(savedExecutionIds: set<int>, sentAt: int)

  datatype GatewayStatus = Connected | NoIbkrConnection | Unreachable

  datatype Settings = Settings(clientId: int, reconnectInterval: int, openOrderCheckInterval: int)

  /** `sentIds`: the keys of `sentOrders` in the order of the sends. The 2 events lists go to the engine. */
  datatype Client = Client(settings: Settings, sentIds: seq<int>, sentOrders: map<int, SentOrder>, isListUnproved: bool,
                           nextReconnectAt: int, nextOpenOrderCheckAt: int,
                           fillEvents: seq<Execution>, cancelEvents: seq<int>)

  /** An execution of another client ID, of an unknown order, or in the ledger already is not a new fill. */
  predicate IsNewFill(client: Client, execution: Execution) {
    && execution.clientId == client.settings.clientId
    && execution.orderId in client.sentOrders
    && execution.executionId !in client.sentOrders[execution.orderId].savedExecutionIds
  }

  /** The index of the first new fill from `start`, or the length. */
  function NextNewFill(client: Client, executions: seq<Execution>, start: nat): (index: nat)
    requires start <= |executions|
    ensures start <= index <= |executions|
    ensures forall i :: start <= i < index ==> !IsNewFill(client, executions[i])
    ensures index < |executions| ==> IsNewFill(client, executions[index])
    decreases |executions| - start
  {
    if start == |executions| || IsNewFill(client, executions[start]) then start
    else NextNewFill(client, executions, start + 1)
  }

  function MarkSaved(client: Client, execution: Execution): Client
    requires execution.orderId in client.sentOrders
  {
    var sent := client.sentOrders[execution.orderId];
    var saved := sent.savedExecutionIds + {execution.executionId};
    client.(sentOrders := client.sentOrders[execution.orderId := sent.(savedExecutionIds := saved)])
  }

  function SendFillEvent(client: Client, execution: Execution): Client {
    client.(fillEvents := client.fillEvents + [execution])
  }

  function AddSentOrder(client: Client, orderId: int, now: int): Client {
    client.(sentIds := if orderId in client.sentOrders then client.sentIds else client.sentIds + [orderId],
            sentOrders := client.sentOrders[orderId := SentOrder({}, now)])
  }

  predicate IsReconnectDue(client: Client, status: GatewayStatus, now: int) {
    status == Unreachable && now >= client.nextReconnectAt
  }

  predicate IsOpenOrderCheckDue(client: Client, status: GatewayStatus, now: int) {
    now >= client.nextOpenOrderCheckAt && status == Connected
  }

  /** The first empty list after a reconnect waits for the next check. */
  predicate IsFirstEmptyList(client: Client, openIds: set<int>) {
    client.isListUnproved && openIds == {}
  }

  predicate IsUnsaved(client: Client, executions: seq<Execution>, orderId: int) {
    exists i :: 0 <= i < |executions| && executions[i].orderId == orderId && IsNewFill(client, executions[i])
  }

  /** IBKR no longer has the order, it has no unsaved fill, and its send is not in the last interval. */
  predicate IsEnded(client: Client, now: int, openIds: set<int>, executions: seq<Execution>, orderId: int) {
    && orderId in client.sentOrders
    && orderId !in openIds
    && !IsUnsaved(client, executions, orderId)
    && client.sentOrders[orderId].sentAt <= now - client.settings.openOrderCheckInterval
  }

  /** `cacheOpenIds`: the orders that are open in the engine. */
  function EndedOrders(client: Client, now: int, openIds: set<int>, executions: seq<Execution>,
                       cacheOpenIds: set<int>): seq<int> {
    Filter(client.sentIds, orderId => IsEnded(client, now, openIds, executions, orderId) && orderId in cacheOpenIds)
  }

  function CancelEnded(client: Client, now: int, openIds: set<int>, executions: seq<Execution>,
                       cacheOpenIds: set<int>): Client {
    client.(cancelEvents := client.cancelEvents + EndedOrders(client, now, openIds, executions, cacheOpenIds))
  }

  class OwnerLedgerExecutionClient {
    const settings: Settings
    var sentIds: seq<int>
    var sentOrders: map<int, SentOrder>
    var isOpenOrderListUnproved: bool
    var nextReconnectAt: int
    var nextOpenOrderCheckAt: int
    var fillEvents: seq<Execution>
    var cancelEvents: seq<int>

    ghost predicate Valid()
      reads this
    {
      forall orderId <- sentIds :: orderId in sentOrders
    }

    function State(): Client
      reads this
    {
      Client(settings, sentIds, sentOrders, isOpenOrderListUnproved, nextReconnectAt, nextOpenOrderCheckAt,
             fillEvents, cancelEvents)
    }

    constructor (settings: Settings)
      ensures Valid() && State() == Client(settings, [], map[], false, 0, 0, [], [])
    {
      this.settings := settings;
      sentIds, sentOrders, isOpenOrderListUnproved := [], map[], false;
      nextReconnectAt, nextOpenOrderCheckAt, fillEvents, cancelEvents := 0, 0, [], [];
    }

    method BeginReconnect(status: GatewayStatus, now: int) returns (isDue: bool)
      requires Valid()
      modifies this
      ensures Valid()
      ensures isDue == IsReconnectDue(old(State()), status, now)
      ensures State() == old(State()).(nextReconnectAt := if isDue then now + settings.reconnectInterval
                                                          else old(nextReconnectAt))
    {
      if status != Unreachable || now < nextReconnectAt {
        return false;
      }
      nextReconnectAt := now + settings.reconnectInterval;
      return true;
    }

    method EndReconnect()
      requires Valid()
      modifies this
      ensures Valid() && State() == old(State()).(isListUnproved := true)
    {
      isOpenOrderListUnproved := true;
    }

    /** The loop over the read executions, from `start` to the next one that goes to the ledger. */
    method FindNextFill(executions: seq<Execution>, start: nat) returns (index: nat)
      requires start <= |executions|
      ensures index == NextNewFill(State(), executions, start)
    {
      index := start;
      while index < |executions|
        invariant start <= index <= |executions|
        invariant NextNewFill(State(), executions, index) == NextNewFill(State(), executions, start)
      {
        var execution := executions[index];
        if execution.clientId == settings.clientId && execution.orderId in sentOrders
           && execution.executionId !in sentOrders[execution.orderId].savedExecutionIds {
          return;
        }
        index := index + 1;
      }
    }

    /** After the ledger save returned. */
    method AddSavedExecution(execution: Execution)
      requires Valid() && execution.orderId in sentOrders
      modifies this
      ensures Valid() && State() == MarkSaved(old(State()), execution)
    {
      var sent := sentOrders[execution.orderId];
      sentOrders := sentOrders[execution.orderId := SentOrder(sent.savedExecutionIds + {execution.executionId},
                                                              sent.sentAt)];
    }

    method GenerateOrderFilled(execution: Execution)
      requires Valid()
      modifies this
      ensures Valid() && State() == SendFillEvent(old(State()), execution)
    {
      fillEvents := fillEvents + [execution];
    }

    method AddOrder(orderId: int, now: int)
      requires Valid()
      modifies this
      ensures Valid() && State() == AddSentOrder(old(State()), orderId, now)
    {
      if orderId !in sentOrders {
        sentIds := sentIds + [orderId];
      }
      sentOrders := sentOrders[orderId := SentOrder({}, now)];
    }

    method BeginOpenOrderCheck(status: GatewayStatus, now: int) returns (isDue: bool)
      requires Valid()
      modifies this
      ensures Valid()
      ensures isDue == IsOpenOrderCheckDue(old(State()), status, now)
      ensures State() == old(State()).(nextOpenOrderCheckAt := if isDue then now + settings.openOrderCheckInterval
                                                               else old(nextOpenOrderCheckAt))
    {
      if now < nextOpenOrderCheckAt || status != Connected {
        return false;
      }
      nextOpenOrderCheckAt := now + settings.openOrderCheckInterval;
      return true;
    }

    method TakeOpenList(openIds: set<int>) returns (isProof: bool)
      requires Valid()
      modifies this
      ensures Valid()
      ensures isProof == !IsFirstEmptyList(old(State()), openIds) && State() == old(State()).(isListUnproved := false)
    {
      isProof := !(isOpenOrderListUnproved && openIds == {});
      isOpenOrderListUnproved := false;
    }

    method FindUnsavedOrders(executions: seq<Execution>) returns (unsaved: set<int>)
      ensures forall orderId :: orderId in unsaved <==> IsUnsaved(State(), executions, orderId)
    {
      unsaved := {};
      for k := 0 to |executions|
        invariant forall orderId :: orderId in unsaved <==> IsUnsaved(State(), executions[..k], orderId)
      {
        var execution := executions[k];
        var isUnsaved := execution.orderId in sentOrders && execution.clientId == settings.clientId
                         && execution.executionId !in sentOrders[execution.orderId].savedExecutionIds;
        UnsavedStep(State(), executions, k);
        if isUnsaved {
          unsaved := unsaved + {execution.orderId};
        }
      }
      assert executions[..|executions|] == executions;
    }

    method IsOrderEnded(now: int, openIds: set<int>, executions: seq<Execution>, unsavedIds: set<int>, orderId: int)
      returns (isEnded: bool)
      requires orderId in sentOrders
      requires forall id :: id in unsavedIds <==> IsUnsaved(State(), executions, id)
      ensures isEnded == IsEnded(State(), now, openIds, executions, orderId)
    {
      var oldestSentAt := now - settings.openOrderCheckInterval;
      isEnded := !(orderId in openIds || orderId in unsavedIds || sentOrders[orderId].sentAt > oldestSentAt);
    }

    method CancelEndedOrders(now: int, openIds: set<int>, executions: seq<Execution>, cacheOpenIds: set<int>)
      requires Valid()
      modifies `cancelEvents
      ensures Valid() && State() == CancelEnded(old(State()), now, openIds, executions, cacheOpenIds)
    {
      var unsavedIds := FindUnsavedOrders(executions);
      var cancelled: seq<int> := [];
      ghost var isCancelled :=
        (orderId: int) => IsEnded(old(State()), now, openIds, executions, orderId) && orderId in cacheOpenIds;
      for k := 0 to |sentIds|
        invariant State() == old(State())
        invariant cancelled == Filter(sentIds[..k], isCancelled)
      {
        var orderId := sentIds[k];
        TakeNext(sentIds, k);
        FilterAppend(sentIds[..k], [orderId], isCancelled);
        FilterOne(orderId, isCancelled);
        var isEnded := IsOrderEnded(now, openIds, executions, unsavedIds, orderId);
        if isEnded && orderId in cacheOpenIds {
          cancelled := cancelled + [orderId];
        }
      }
      assert sentIds[..|sentIds|] == sentIds;
      cancelEvents := cancelEvents + cancelled;
    }
  }

  lemma UnsavedStep(client: Client, executions: seq<Execution>, k: nat)
    requires k < |executions|
    ensures forall orderId :: IsUnsaved(client, executions[..k + 1], orderId)
              <==> IsUnsaved(client, executions[..k], orderId)
                   || (executions[k].orderId == orderId && IsNewFill(client, executions[k]))
  {
    forall orderId ensures IsUnsaved(client, executions[..k + 1], orderId)
      <==> IsUnsaved(client, executions[..k], orderId)
           || (executions[k].orderId == orderId && IsNewFill(client, executions[k]))
    {
      assert executions[..k + 1][k] == executions[k];
      if IsUnsaved(client, executions[..k], orderId) {
        var i :| 0 <= i < k && executions[..k][i].orderId == orderId && IsNewFill(client, executions[..k][i]);
        assert executions[..k + 1][i] == executions[i];
      }
      if IsUnsaved(client, executions[..k + 1], orderId) {
        var i :| 0 <= i < k + 1 && executions[..k + 1][i].orderId == orderId
                 && IsNewFill(client, executions[..k + 1][i]);
        if i < k {
          assert executions[..k][i] == executions[i];
        }
      }
    }
  }
}
