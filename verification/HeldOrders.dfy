/** The orders that wait for the next open tick of their instrument. */
module HeldOrders {
  import opened Sequences
  import opened Trades

  type Instrument = int

  /** The name of an alert: the time of the hold and the number of orders that waited before it. */
  datatype AlertName = AlertName(nowNs: int, count: nat)

  datatype HeldOrder = HeldOrder(instrument: Instrument, side: Side, isClose: bool, openNs: int, alertNs: int)

  /** `sent`: the orders that went to the engine, in their order. */
  datatype Held = Held(openTimes: map<Instrument, seq<int>>, nowNs: int, waiting: map<AlertName, HeldOrder>,
                       closing: set<Instrument>, sent: seq<HeldOrder>)

  function OpenTimes(held: Held, instrument: Instrument): seq<int> {
    if instrument in held.openTimes then held.openTimes[instrument] else []
  }

  /** The number of times up to and including `nowNs`: the index of the next one. */
  function BisectRight(times: seq<int>, nowNs: int): (index: nat)
    ensures index <= |times|
    ensures Ascending(times) ==> forall i :: 0 <= i < index ==> times[i] <= nowNs
    ensures Ascending(times) ==> forall i :: index <= i < |times| ==> times[i] > nowNs
  {
    if times == [] || times[0] > nowNs then 0 else 1 + BisectRight(times[1..], nowNs)
  }

  function NextOpen(held: Held, instrument: Instrument): Option<int> {
    var times := OpenTimes(held, instrument);
    var index := BisectRight(times, held.nowNs);
    if index == |times| then None else Some(times[index])
  }

  function NewName(held: Held): AlertName { AlertName(held.nowNs, |held.waiting|) }

  /**
   * The order of a hold. The alert counts the waiting orders after it. Without a later open the order does not wait.
   */
  function GivenOrder(held: Held, instrument: Instrument, side: Side, isClose: bool): HeldOrder {
    var openNs := NextOpen(held, instrument).GetOr(held.nowNs);
    HeldOrder(instrument, side, isClose, openNs, openNs + |held.waiting.Keys + {NewName(held)}|)
  }

  /** The send of an order. A close ends the wait of its instrument. */
  function Send(held: Held, order: HeldOrder): Held {
    held.(sent := held.sent + [order],
          closing := if order.isClose then held.closing - {order.instrument} else held.closing)
  }

  function Hold(held: Held, instrument: Instrument, side: Side, isClose: bool): Held {
    var order := GivenOrder(held, instrument, side, isClose);
    if NextOpen(held, instrument).None? then Send(held, order)
    else held.(waiting := held.waiting[NewName(held) := order])
  }

  function Submit(held: Held, instrument: Instrument, side: Side): Held {
    Hold(held, instrument, side, false)
  }

  /** A second close of an instrument does nothing while the first one waits. */
  function Close(held: Held, instrument: Instrument, isLong: bool): Held {
    if instrument in held.closing then held
    else Hold(held.(closing := held.closing + {instrument}), instrument, if isLong then Sell else Buy, true)
  }

  function SendWaiting(held: Held, name: AlertName): Held
    requires name in held.waiting
  {
    Send(held.(waiting := held.waiting - {name}), held.waiting[name])
  }

  function IsMatch(instrument: Option<Instrument>, side: Option<Side>): HeldOrder -> bool {
    (order: HeldOrder) =>
      (instrument.None? || instrument.value == order.instrument) && (side.None? || side.value == order.side)
  }

  function NamesOf(waiting: map<AlertName, HeldOrder>, isCounted: HeldOrder -> bool): set<AlertName> {
    set name | name in waiting && isCounted(waiting[name])
  }

  /** What the cache adds to the count of the orders on their way. */
  function HeldCount(waiting: map<AlertName, HeldOrder>, instrument: Option<Instrument>, side: Option<Side>): nat {
    |NamesOf(waiting, IsMatch(instrument, side))|
  }

  // ---------------------------------------------------------------- the class

  class NextOpenOrders {
    const openTimes: map<Instrument, seq<int>>
    var nowNs: int
    var waitingOrders: map<AlertName, HeldOrder>
    var closingInstruments: set<Instrument>
    var sent: seq<HeldOrder>

    function State(): Held
      reads this
    {
      Held(openTimes, nowNs, waitingOrders, closingInstruments, sent)
    }

    constructor (openTimes: map<Instrument, seq<int>>, nowNs: int)
      ensures State() == Held(openTimes, nowNs, map[], {}, [])
    {
      this.openTimes, this.nowNs := openTimes, nowNs;
      waitingOrders, closingInstruments, sent := map[], {}, [];
    }

    method SendAtNextOpen(instrument: Instrument, side: Side, isClose: bool)
      modifies this
      ensures State() == Hold(old(State()), instrument, side, isClose)
    {
      var timesNs := if instrument in openTimes then openTimes[instrument] else [];
      var index := FindNextOpen(timesNs);
      var name := AlertName(nowNs, |waitingOrders|);
      var count := |waitingOrders.Keys + {name}|;
      if index == |timesNs| {
        SendOrder(HeldOrder(instrument, side, isClose, nowNs, nowNs + count));
        return;
      }
      waitingOrders := waitingOrders[name := HeldOrder(instrument, side, isClose, timesNs[index],
                                                       timesNs[index] + count)];
    }

    method FindNextOpen(timesNs: seq<int>) returns (index: nat)
      ensures index == BisectRight(timesNs, nowNs)
    {
      index := 0;
      while index < |timesNs| && timesNs[index] <= nowNs
        invariant index <= |timesNs|
        invariant BisectRight(timesNs, nowNs) == index + BisectRight(timesNs[index..], nowNs)
      {
        index := index + 1;
      }
    }

    method SendOrder(order: HeldOrder)
      modifies `sent, `closingInstruments
      ensures State() == Send(old(State()), order)
    {
      if order.isClose {
        closingInstruments := closingInstruments - {order.instrument};
      }
      sent := sent + [order];
    }

    method SubmitMarketOrder(instrument: Instrument, side: Side)
      modifies this
      ensures State() == Submit(old(State()), instrument, side)
    {
      SendAtNextOpen(instrument, side, false);
    }

    method ClosePosition(instrument: Instrument, isLong: bool)
      modifies this
      ensures State() == Close(old(State()), instrument, isLong)
    {
      if instrument in closingInstruments {
        return;
      }
      closingInstruments := closingInstruments + {instrument};
      SendAtNextOpen(instrument, if isLong then Sell else Buy, true);
    }

    method SendWaitingOrder(name: AlertName)
      requires name in waitingOrders
      modifies this
      ensures State() == SendWaiting(old(State()), name)
    {
      var order := waitingOrders[name];
      waitingOrders := waitingOrders - {name};
      SendOrder(order);
    }
  }

  // ---------------------------------------------------------------- runs

  datatype Step =
    | ClockMoves(nowNs: int)
    | Submits(instrument: Instrument, side: Side)
    | Closes(instrument: Instrument, isLong: bool)
    | AlertComes(name: AlertName)

  /** The step gives an order. A close of a closing instrument gives none. */
  predicate IsGiving(held: Held, step: Step) {
    step.Submits? || (step.Closes? && step.instrument !in held.closing)
  }

  /** The step gives an order that waits. */
  predicate IsHold(held: Held, step: Step) {
    IsGiving(held, step) && NextOpen(held, step.instrument).Some?
  }

  /** The hold gets the name of an order that waits, and takes its place. */
  predicate IsOverwriting(held: Held, step: Step) {
    IsHold(held, step) && NewName(held) in held.waiting
  }

  predicate IsAlertPassed(held: Held, nowNs: int) {
    exists name :: name in held.waiting && nowNs > held.waiting[name].alertNs
  }

  /** An alert comes at its time. */
  predicate IsEnabled(held: Held, step: Step) {
    match step
    case ClockMoves(nowNs) => held.nowNs <= nowNs && !IsAlertPassed(held, nowNs)
    case AlertComes(name) => name in held.waiting && held.waiting[name].alertNs == held.nowNs
    case _ => true
  }

  function After(held: Held, step: Step): Held
    requires step.AlertComes? ==> step.name in held.waiting
  {
    match step
    case ClockMoves(nowNs) => held.(nowNs := nowNs)
    case Submits(instrument, side) => Submit(held, instrument, side)
    case Closes(instrument, isLong) => Close(held, instrument, isLong)
    case AlertComes(name) => SendWaiting(held, name)
  }

  ghost predicate HasWaitingClose(held: Held, instrument: Instrument) {
    exists name :: name in held.waiting && held.waiting[name].isClose && held.waiting[name].instrument == instrument
  }

  /** The closing instruments are the instruments of the waiting closes, each with 1 close. */
  ghost predicate ClosingInv(held: Held) {
    && (forall instrument :: instrument in held.closing <==> HasWaitingClose(held, instrument))
    && (forall a, b ::
          a in held.waiting && b in held.waiting && a != b && held.waiting[a].isClose && held.waiting[b].isClose ==>
          held.waiting[a].instrument != held.waiting[b].instrument)
  }

  /**
   * Each alert is still to come. It is after the open of its
   * order by the number of orders that waited at the hold, and 1.
   */
  ghost predicate AlertInv(held: Held) {
    && (forall instrument <- held.openTimes :: Ascending(held.openTimes[instrument]))
    && (forall name <- held.waiting :: held.nowNs <= held.waiting[name].alertNs
                                       && held.waiting[name].alertNs == held.waiting[name].openNs + name.count + 1)
  }

  ghost predicate Inv(held: Held) { ClosingInv(held) && AlertInv(held) }

  /** The next open is the first open of the instrument after now. */
  lemma NextOpenIsLater(held: Held, instrument: Instrument)
    requires AlertInv(held)
    ensures NextOpen(held, instrument).Some? ==> NextOpen(held, instrument).value > held.nowNs
    ensures NextOpen(held, instrument).Some? ==> NextOpen(held, instrument).value in OpenTimes(held, instrument)
    ensures forall time <- OpenTimes(held, instrument) :: time > held.nowNs ==>
              NextOpen(held, instrument).Some? && NextOpen(held, instrument).value <= time
  {
    var times := OpenTimes(held, instrument);
    var index := BisectRight(times, held.nowNs);
    forall time <- times | time > held.nowNs ensures index < |times| && times[index] <= time {
      var i :| 0 <= i < |times| && times[i] == time;
    }
  }

  /** A hold without a later open sends at once. */
  lemma HoldKeepsClosing(held: Held, instrument: Instrument, side: Side, isClose: bool)
    requires ClosingInv(held) && (NextOpen(held, instrument).Some? ==> NewName(held) !in held.waiting)
    requires isClose ==> instrument !in held.closing
    ensures var before := if isClose then held.(closing := held.closing + {instrument}) else held;
      ClosingInv(Hold(before, instrument, side, isClose))
  {
    var before := if isClose then held.(closing := held.closing + {instrument}) else held;
    if NextOpen(before, instrument).None? {
      assert Hold(before, instrument, side, isClose).closing == held.closing;
      SameWaitingClosing(held, Hold(before, instrument, side, isClose));
    } else {
      var order := GivenOrder(before, instrument, side, isClose);
      AddedCloseKeepsClosing(held, NewName(held), order, before.closing);
      SameWaitingClosing(held.(waiting := held.waiting[NewName(held) := order], closing := before.closing),
                         Hold(before, instrument, side, isClose));
    }
  }

  lemma SameWaitingClosing(a: Held, b: Held)
    requires ClosingInv(a) && a.waiting == b.waiting && a.closing == b.closing
    ensures ClosingInv(b)
  {
    forall instrument ensures HasWaitingClose(a, instrument) <==> HasWaitingClose(b, instrument) {
    }
  }

  lemma AddedCloseKeepsClosing(held: Held, name: AlertName, order: HeldOrder, closing: set<Instrument>)
    requires ClosingInv(held) && name !in held.waiting
    requires order.isClose ==> order.instrument !in held.closing
    requires closing == if order.isClose then held.closing + {order.instrument} else held.closing
    ensures ClosingInv(held.(waiting := held.waiting[name := order], closing := closing))
  {
    var next := held.(waiting := held.waiting[name := order], closing := closing);
    forall other ensures other in next.closing <==> HasWaitingClose(next, other) {
      if HasWaitingClose(held, other) {
        var kept :| kept in held.waiting && held.waiting[kept].isClose && held.waiting[kept].instrument == other;
        assert kept in next.waiting && next.waiting[kept] == held.waiting[kept];
      }
      if HasWaitingClose(next, other) {
        var kept :| kept in next.waiting && next.waiting[kept].isClose && next.waiting[kept].instrument == other;
        assert kept == name || held.waiting[kept] == next.waiting[kept];
      }
      if order.isClose {
        assert next.waiting[name].isClose;
      }
    }
    forall a, b | a in next.waiting && b in next.waiting && a != b && next.waiting[a].isClose && next.waiting[b].isClose
      ensures next.waiting[a].instrument != next.waiting[b].instrument
    {
      if a == name {
        assert HasWaitingClose(held, next.waiting[b].instrument);
      } else if b == name {
        assert HasWaitingClose(held, next.waiting[a].instrument);
      }
    }
  }

  /** The alert of a hold with a new name comes 1 nanosecond after the open for each order that waits, and 1 more. */
  lemma AlertOfHold(held: Held, instrument: Instrument, side: Side, isClose: bool)
    requires NewName(held) !in held.waiting
    ensures var order := GivenOrder(held, instrument, side, isClose); order.alertNs == order.openNs + |held.waiting| + 1
  {
    assert |held.waiting.Keys + {NewName(held)}| == |held.waiting.Keys| + 1;
  }

  lemma HoldKeepsAlerts(held: Held, instrument: Instrument, side: Side, isClose: bool)
    requires AlertInv(held) && (NextOpen(held, instrument).Some? ==> NewName(held) !in held.waiting)
    ensures AlertInv(Hold(held, instrument, side, isClose))
  {
    NextOpenIsLater(held, instrument);
    if NextOpen(held, instrument).Some? {
      AlertOfHold(held, instrument, side, isClose);
    }
  }

  lemma SendKeepsInv(held: Held, name: AlertName)
    requires Inv(held) && name in held.waiting
    ensures Inv(SendWaiting(held, name))
  {
    var next := SendWaiting(held, name);
    var order := held.waiting[name];
    forall other ensures other in next.closing <==> HasWaitingClose(next, other) {
      if HasWaitingClose(held, other) && !(order.isClose && order.instrument == other) {
        var kept :| kept in held.waiting && held.waiting[kept].isClose && held.waiting[kept].instrument == other;
        assert kept in next.waiting && next.waiting[kept] == held.waiting[kept];
      }
      if HasWaitingClose(next, other) {
        var kept :| kept in next.waiting && next.waiting[kept].isClose && next.waiting[kept].instrument == other;
        assert held.waiting[kept] == next.waiting[kept] && kept != name;
      }
    }
  }

  lemma StepKeepsInv(held: Held, step: Step)
    requires Inv(held) && IsEnabled(held, step) && !IsOverwriting(held, step)
    ensures Inv(After(held, step))
  {
    match step
    case ClockMoves(nowNs) =>
      forall instrument ensures HasWaitingClose(After(held, step), instrument) <==> HasWaitingClose(held, instrument) {
      }
    case Submits(instrument, side) =>
      HoldKeepsClosing(held, instrument, side, false);
      HoldKeepsAlerts(held, instrument, side, false);
    case Closes(instrument, isLong) =>
      if instrument !in held.closing {
        var side := if isLong then Sell else Buy;
        HoldKeepsClosing(held, instrument, side, true);
        HoldKeepsAlerts(held.(closing := held.closing + {instrument}), instrument, side, true);
      }
    case AlertComes(name) => SendKeepsInv(held, name);
  }

  /** A close sells a long position and buys a short one back. */
  lemma CloseIsOpposite(held: Held, instrument: Instrument, isLong: bool)
    requires instrument !in held.closing
    ensures var next := Close(held, instrument, isLong);
      var order := if NextOpen(held, instrument).Some? then next.waiting[NewName(held)] else next.sent[|held.sent|];
      order.isClose && order.instrument == instrument && (order.side == Sell <==> isLong)
  {
  }

  // ---------------------------------------------------------------- the counts

  lemma NameIsAdded(waiting: map<AlertName, HeldOrder>, name: AlertName, order: HeldOrder, isCounted: HeldOrder -> bool)
    requires name !in waiting
    ensures |NamesOf(waiting[name := order], isCounted)|
         == |NamesOf(waiting, isCounted)| + if isCounted(order) then 1 else 0
  {
    assert NamesOf(waiting[name := order], isCounted)
        == NamesOf(waiting, isCounted) + if isCounted(order) then {name} else {};
    assert name !in NamesOf(waiting, isCounted);
  }

  lemma NameIsRemoved(waiting: map<AlertName, HeldOrder>, name: AlertName, isCounted: HeldOrder -> bool)
    requires name in waiting
    ensures |NamesOf(waiting, isCounted)|
         == |NamesOf(waiting - {name}, isCounted)| + if isCounted(waiting[name]) then 1 else 0
  {
    assert (waiting - {name})[name := waiting[name]] == waiting;
    NameIsAdded(waiting - {name}, name, waiting[name], isCounted);
  }

  /** A hold on a taken name: the waiting order of this name is counted no more. */
  lemma NameIsTaken(waiting: map<AlertName, HeldOrder>, name: AlertName, order: HeldOrder, isCounted: HeldOrder -> bool)
    requires name in waiting
    ensures |NamesOf(waiting[name := order], isCounted)| + (if isCounted(waiting[name]) then 1 else 0)
         == |NamesOf(waiting, isCounted)| + if isCounted(order) then 1 else 0
  {
    assert (waiting - {name})[name := order] == waiting[name := order];
    NameIsRemoved(waiting, name, isCounted);
    NameIsAdded(waiting - {name}, name, order, isCounted);
  }

  /** What a matching order adds to a count of the cache. */
  function CountedOnce(order: HeldOrder, instrument: Option<Instrument>, side: Option<Side>): nat {
    if (instrument.None? || instrument == Some(order.instrument)) && (side.None? || side == Some(order.side)) then 1
    else 0
  }

  /** A hold with a new name raises by 1 each count that its order matches. */
  lemma HoldIsCounted(held: Held, instrument: Instrument, side: Side, isClose: bool, ofInstrument: Option<Instrument>,
                      ofSide: Option<Side>)
    requires NextOpen(held, instrument).Some? && NewName(held) !in held.waiting
    ensures HeldCount(Hold(held, instrument, side, isClose).waiting, ofInstrument, ofSide)
         == HeldCount(held.waiting, ofInstrument, ofSide)
            + CountedOnce(GivenOrder(held, instrument, side, isClose), ofInstrument, ofSide)
  {
    NameIsAdded(held.waiting, NewName(held), GivenOrder(held, instrument, side, isClose),
                IsMatch(ofInstrument, ofSide));
  }

  /** The send of a waiting order lowers these counts by 1 again. */
  lemma SendIsCounted(held: Held, name: AlertName, ofInstrument: Option<Instrument>, ofSide: Option<Side>)
    requires name in held.waiting
    ensures HeldCount(held.waiting, ofInstrument, ofSide)
         == HeldCount(SendWaiting(held, name).waiting, ofInstrument, ofSide)
            + CountedOnce(held.waiting[name], ofInstrument, ofSide)
  {
    NameIsRemoved(held.waiting, name, IsMatch(ofInstrument, ofSide));
  }
}
