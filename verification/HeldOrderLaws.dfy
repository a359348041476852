/** What held orders keep over every run: which orders are sent, held, or lost, and the order of their alerts. */
module HeldOrderLaws {
  import opened Sequences
  import opened Trades
  import opened HeldOrders

  // ---------------------------------------------------------------- one step

  function SideOf(step: Step): Side
    requires step.Submits? || step.Closes?
  {
    match step
    case Submits(_, side) => side
    case Closes(_, isLong) => if isLong then Sell else Buy
  }

  /** The order that the strategy gives. */
  function Given(held: Held, step: Step): seq<HeldOrder> {
    if IsGiving(held, step) then [GivenOrder(held, step.instrument, SideOf(step), step.Closes?)] else []
  }

  /** The waiting order whose place a hold takes. */
  function Lost(held: Held, step: Step): seq<HeldOrder> {
    if IsOverwriting(held, step) then [held.waiting[NewName(held)]] else []
  }

  function Is(order: HeldOrder): HeldOrder -> bool { x => x == order }

  /** How often `order` is among the waiting orders. */
  function WaitingCount(held: Held, order: HeldOrder): nat { |NamesOf(held.waiting, Is(order))| }

  function TimesIn(orders: seq<HeldOrder>, order: HeldOrder): nat {
    if orders == [] then 0 else TimesIn(orders[..|orders| - 1], order) + if orders[|orders| - 1] == order then 1 else 0
  }

  lemma {:induction false} TimesInIsMultiplicity(orders: seq<HeldOrder>, order: HeldOrder)
    ensures TimesIn(orders, order) == multiset(orders)[order]
  {
    if orders != [] {
      TimesInIsMultiplicity(orders[..|orders| - 1], order);
      assert orders == orders[..|orders| - 1] + [orders[|orders| - 1]];
    }
  }

  lemma TimesInAppended(orders: seq<HeldOrder>, last: HeldOrder, order: HeldOrder)
    ensures TimesIn(orders + [last], order) == TimesIn(orders, order) + if last == order then 1 else 0
  {
    assert (orders + [last])[..|orders|] == orders;
  }

  lemma TimesInBoth(a: seq<HeldOrder>, b: seq<HeldOrder>, order: HeldOrder)
    requires |b| <= 1
    ensures TimesIn(a + b, order) == TimesIn(a, order) + TimesIn(b, order)
  {
    if b == [] {
      assert a + b == a;
    } else {
      var last := b[0];
      assert b == [last];
      TimesInAppended(a, last, order);
      TimesInOne(last, order);
    }
  }

  lemma TimesInOne(last: HeldOrder, order: HeldOrder)
    ensures TimesIn([last], order) == if last == order then 1 else 0
  {
    assert [last][..0] == [];
  }

  /**
   * The order is one more of the orders of the engine or of the
   * waiting ones, and the order whose place it takes one less.
   */
  lemma HoldConserves(held: Held, instrument: Instrument, side: Side, isClose: bool, lost: seq<HeldOrder>, x: HeldOrder)
    requires var isLost := NextOpen(held, instrument).Some? && NewName(held) in held.waiting;
      lost == if isLost then [held.waiting[NewName(held)]] else []
    ensures var next := Hold(held, instrument, side, isClose);
      TimesIn(next.sent, x) + WaitingCount(next, x) + TimesIn(lost, x)
        == TimesIn(held.sent, x) + WaitingCount(held, x) + TimesIn([GivenOrder(held, instrument, side, isClose)], x)
  {
    var order := GivenOrder(held, instrument, side, isClose);
    TimesInOne(order, x);
    if NextOpen(held, instrument).None? {
      TimesInAppended(held.sent, order, x);
    } else if NewName(held) in held.waiting {
      TimesInOne(lost[0], x);
      NameIsTaken(held.waiting, NewName(held), order, Is(x));
    } else {
      NameIsAdded(held.waiting, NewName(held), order, Is(x));
    }
  }

  lemma SendConserves(held: Held, name: AlertName, x: HeldOrder)
    requires name in held.waiting
    ensures var next := SendWaiting(held, name);
      TimesIn(next.sent, x) + WaitingCount(next, x) == TimesIn(held.sent, x) + WaitingCount(held, x)
  {
    NameIsRemoved(held.waiting, name, Is(x));
    TimesInAppended(held.sent, held.waiting[name], x);
  }

  /** The state in which a given order is held: a close closes its instrument first. */
  function BeforeHold(held: Held, step: Step): (before: Held)
    requires IsGiving(held, step)
    ensures before.waiting == held.waiting && before.sent == held.sent && NewName(before) == NewName(held)
    ensures NextOpen(before, step.instrument) == NextOpen(held, step.instrument)
    ensures After(held, step) == Hold(before, step.instrument, SideOf(step), step.Closes?)
    ensures Given(held, step) == [GivenOrder(before, step.instrument, SideOf(step), step.Closes?)]
  {
    if step.Closes? then held.(closing := held.closing + {step.instrument}) else held
  }

  /**
   * Each order that the strategy gives goes to the engine, waits,
   * or takes the place of a waiting one, which is then lost.
   */
  lemma StepConserves(held: Held, step: Step, x: HeldOrder)
    requires IsEnabled(held, step)
    ensures var next := After(held, step);
      TimesIn(next.sent, x) + WaitingCount(next, x) + TimesIn(Lost(held, step), x)
        == TimesIn(held.sent, x) + WaitingCount(held, x) + TimesIn(Given(held, step), x)
  {
    if step.AlertComes? {
      SendConserves(held, step.name, x);
    } else if IsGiving(held, step) {
      HoldConserves(BeforeHold(held, step), step.instrument, SideOf(step), step.Closes?, Lost(held, step), x);
    } else {
      assert After(held, step).sent == held.sent && After(held, step).waiting == held.waiting;
    }
  }

  // ---------------------------------------------------------------- runs

  ghost predicate IsRunStep(helds: seq<Held>, steps: seq<Step>, k: nat)
    requires k < |steps| < |helds|
  {
    IsEnabled(helds[k], steps[k]) && helds[k + 1] == After(helds[k], steps[k])
  }

  ghost predicate IsStart(held: Held) {
    && held.waiting == map[] && held.closing == {} && held.sent == []
    && (forall instrument <- held.openTimes :: Ascending(held.openTimes[instrument]))
  }

  ghost predicate IsRun(helds: seq<Held>, steps: seq<Step>) {
    |helds| == |steps| + 1 && IsStart(helds[0]) && forall k :: 0 <= k < |steps| ==> IsRunStep(helds, steps, k)
  }

  /** No hold of the first `k` steps takes the place of a waiting order. */
  predicate HasNoOverwrite(helds: seq<Held>, steps: seq<Step>, k: nat)
    requires k <= |steps| <= |helds|
  {
    k > 0 ==> HasNoOverwrite(helds, steps, k - 1) && !IsOverwriting(helds[k - 1], steps[k - 1])
  }

  lemma {:induction false} RunKeepsInv(helds: seq<Held>, steps: seq<Step>, k: nat)
    requires IsRun(helds, steps) && k < |helds| && HasNoOverwrite(helds, steps, k)
    ensures Inv(helds[k])
  {
    if k > 0 {
      RunKeepsInv(helds, steps, k - 1);
      assert IsRunStep(helds, steps, k - 1);
      StepKeepsInv(helds[k - 1], steps[k - 1]);
    }
  }

  function Joined(lists: seq<seq<HeldOrder>>): seq<HeldOrder> {
    if lists == [] then [] else Joined(lists[..|lists| - 1]) + lists[|lists| - 1]
  }

  function TotalTimes(lists: seq<seq<HeldOrder>>, order: HeldOrder): nat {
    if lists == [] then 0 else TotalTimes(lists[..|lists| - 1], order) + TimesIn(lists[|lists| - 1], order)
  }

  lemma {:induction false} TimesInJoined(lists: seq<seq<HeldOrder>>, order: HeldOrder)
    requires forall i :: 0 <= i < |lists| ==> |lists[i]| <= 1
    ensures TimesIn(Joined(lists), order) == TotalTimes(lists, order)
  {
    if lists != [] {
      TimesInJoined(lists[..|lists| - 1], order);
      TimesInBoth(Joined(lists[..|lists| - 1]), lists[|lists| - 1], order);
    }
  }

  function GivenLists(helds: seq<Held>, steps: seq<Step>, k: nat): (lists: seq<seq<HeldOrder>>)
    requires k <= |steps| <= |helds|
    ensures |lists| == k && forall m :: 0 <= m < k ==> lists[m] == Given(helds[m], steps[m])
  {
    seq(k, m requires 0 <= m < k => Given(helds[m], steps[m]))
  }

  function LostLists(helds: seq<Held>, steps: seq<Step>, k: nat): (lists: seq<seq<HeldOrder>>)
    requires k <= |steps| <= |helds|
    ensures |lists| == k && forall m :: 0 <= m < k ==> lists[m] == Lost(helds[m], steps[m])
  {
    seq(k, m requires 0 <= m < k => Lost(helds[m], steps[m]))
  }

  /** The orders that the strategy gave in the first `k` steps. */
  function GivenBefore(helds: seq<Held>, steps: seq<Step>, k: nat): seq<HeldOrder>
    requires k <= |steps| <= |helds|
  {
    Joined(GivenLists(helds, steps, k))
  }

  function LostBefore(helds: seq<Held>, steps: seq<Step>, k: nat): seq<HeldOrder>
    requires k <= |steps| <= |helds|
  {
    Joined(LostLists(helds, steps, k))
  }

  lemma RunStepConserves(helds: seq<Held>, steps: seq<Step>, k: nat, x: HeldOrder)
    requires IsRun(helds, steps) && k < |steps|
    ensures TimesIn(helds[k + 1].sent, x) + WaitingCount(helds[k + 1], x) + TimesIn(Lost(helds[k], steps[k]), x)
         == TimesIn(helds[k].sent, x) + WaitingCount(helds[k], x) + TimesIn(Given(helds[k], steps[k]), x)
  {
    assert IsRunStep(helds, steps, k);
    StepConserves(helds[k], steps[k], x);
  }

  lemma StartHasNone(held: Held, x: HeldOrder)
    requires IsStart(held)
    ensures TimesIn(held.sent, x) + WaitingCount(held, x) == 0
  {
    assert NamesOf(held.waiting, Is(x)) == {};
  }

  lemma {:induction false} TotalsBalance(given: seq<seq<HeldOrder>>, lost: seq<seq<HeldOrder>>,
                                         kept: seq<nat>, x: HeldOrder)
    requires |given| == |lost| && |kept| == |given| + 1 && kept[0] == 0
    requires forall m :: 0 <= m < |given| ==> kept[m + 1] + TimesIn(lost[m], x) == kept[m] + TimesIn(given[m], x)
    ensures TotalTimes(given, x) == kept[|given|] + TotalTimes(lost, x)
  {
    if given != [] {
      TotalsBalance(given[..|given| - 1], lost[..|given| - 1], kept[..|given|], x);
    }
  }

  function KeptIn(held: Held, x: HeldOrder): nat { TimesIn(held.sent, x) + WaitingCount(held, x) }

  lemma KeptStep(helds: seq<Held>, steps: seq<Step>, k: nat, m: nat, x: HeldOrder)
    requires IsRun(helds, steps) && m < k < |helds|
    ensures KeptIn(helds[m + 1], x) + TimesIn(LostLists(helds, steps, k)[m], x)
         == KeptIn(helds[m], x) + TimesIn(GivenLists(helds, steps, k)[m], x)
  {
    RunStepConserves(helds, steps, m, x);
  }

  function KeptCounts(helds: seq<Held>, x: HeldOrder): (kept: seq<nat>)
    ensures |kept| == |helds| && forall m :: 0 <= m < |helds| ==> kept[m] == KeptIn(helds[m], x)
  {
    seq(|helds|, m requires 0 <= m < |helds| => KeptIn(helds[m], x))
  }

  lemma TotalsAreConserved(helds: seq<Held>, steps: seq<Step>, k: nat, x: HeldOrder)
    requires IsRun(helds, steps) && k < |helds|
    ensures TotalTimes(GivenLists(helds, steps, k), x)
         == KeptIn(helds[k], x) + TotalTimes(LostLists(helds, steps, k), x)
  {
    var given, lost, kept := GivenLists(helds, steps, k), LostLists(helds, steps, k), KeptCounts(helds[..k + 1], x);
    StartHasNone(helds[0], x);
    forall m | 0 <= m < k ensures kept[m + 1] + TimesIn(lost[m], x) == kept[m] + TimesIn(given[m], x) {
      KeptStep(helds, steps, k, m, x);
    }
    TotalsBalance(given, lost, kept, x);
  }

  /** Over each run, the given orders are the sent, the waiting, and the lost ones, each as often as it was given. */
  lemma OrdersAreConserved(helds: seq<Held>, steps: seq<Step>, k: nat, x: HeldOrder)
    requires IsRun(helds, steps) && k < |helds|
    ensures TimesIn(GivenBefore(helds, steps, k), x)
         == TimesIn(helds[k].sent, x) + WaitingCount(helds[k], x) + TimesIn(LostBefore(helds, steps, k), x)
  {
    TotalsAreConserved(helds, steps, k, x);
    TimesInJoined(GivenLists(helds, steps, k), x);
    TimesInJoined(LostLists(helds, steps, k), x);
  }

  predicate AreEmpty(lists: seq<seq<HeldOrder>>) { forall i :: 0 <= i < |lists| ==> lists[i] == [] }

  lemma {:induction false} JoinedIsEmpty(lists: seq<seq<HeldOrder>>)
    ensures Joined(lists) == [] <==> AreEmpty(lists)
  {
    if lists != [] {
      JoinedIsEmpty(lists[..|lists| - 1]);
      assert |Joined(lists)| == |Joined(lists[..|lists| - 1])| + |lists[|lists| - 1]|;
    }
  }

  lemma {:induction false} NoOverwriteMeaning(helds: seq<Held>, steps: seq<Step>, k: nat)
    requires k <= |steps| <= |helds|
    ensures HasNoOverwrite(helds, steps, k) <==> AreEmpty(LostLists(helds, steps, k))
  {
    if k > 0 {
      NoOverwriteMeaning(helds, steps, k - 1);
      assert LostLists(helds, steps, k)[k - 1] == Lost(helds[k - 1], steps[k - 1]);
      assert LostLists(helds, steps, k)[..k - 1] == LostLists(helds, steps, k - 1);
    }
  }

  /** No order is lost or doubled exactly as long as no hold takes the name of an order that waits. */
  lemma NoOrderIsLost(helds: seq<Held>, steps: seq<Step>, k: nat)
    requires IsRun(helds, steps) && k < |helds|
    ensures HasNoOverwrite(helds, steps, k) <==>
              forall x :: multiset(GivenBefore(helds, steps, k))[x]
                            == multiset(helds[k].sent)[x] + WaitingCount(helds[k], x)
  {
    NoOverwriteMeaning(helds, steps, k);
    JoinedIsEmpty(LostLists(helds, steps, k));
    var given, lost := GivenBefore(helds, steps, k), LostBefore(helds, steps, k);
    forall x ensures multiset(given)[x] == multiset(helds[k].sent)[x] + WaitingCount(helds[k], x) + multiset(lost)[x] {
      OrdersAreConserved(helds, steps, k, x);
      TimesInIsMultiplicity(given, x);
      TimesInIsMultiplicity(helds[k].sent, x);
      TimesInIsMultiplicity(lost, x);
    }
    if lost != [] {
      assert multiset(lost)[lost[0]] > 0;
    }
  }

  // ---------------------------------------------------------------- the order of the alerts

  function HoldsBetween(helds: seq<Held>, steps: seq<Step>, i: nat, j: nat): nat
    requires i <= j <= |steps| <= |helds|
  {
    if i == j then 0 else HoldsBetween(helds, steps, i, j - 1) + if IsHold(helds[j - 1], steps[j - 1]) then 1 else 0
  }

  /** The number of waiting orders that went to the engine. */
  function SendsBetween(steps: seq<Step>, i: nat, j: nat): nat
    requires i <= j <= |steps|
  {
    if i == j then 0 else SendsBetween(steps, i, j - 1) + if steps[j - 1].AlertComes? then 1 else 0
  }

  lemma StepChangesCount(held: Held, step: Step)
    requires IsEnabled(held, step) && !IsOverwriting(held, step)
    ensures |After(held, step).waiting|
         == |held.waiting| + (if IsHold(held, step) then 1 else 0) - (if step.AlertComes? then 1 else 0)
  {
    if step.AlertComes? {
      assert (held.waiting - {step.name}).Keys == held.waiting.Keys - {step.name};
    } else if IsHold(held, step) {
      assert After(held, step).waiting.Keys == held.waiting.Keys + {NewName(held)};
    }
  }

  lemma {:induction false} WaitingBalance(helds: seq<Held>, steps: seq<Step>, i: nat, j: nat)
    requires IsRun(helds, steps) && i <= j < |helds| && HasNoOverwrite(helds, steps, j)
    ensures |helds[j].waiting| == |helds[i].waiting| + HoldsBetween(helds, steps, i, j) - SendsBetween(steps, i, j)
    decreases j
  {
    if i < j {
      WaitingBalance(helds, steps, i, j - 1);
      assert IsRunStep(helds, steps, j - 1);
      StepChangesCount(helds[j - 1], steps[j - 1]);
    }
  }

  /** Step `k` holds an order. */
  ghost predicate IsHoldStep(helds: seq<Held>, steps: seq<Step>, k: nat)
    requires |steps| < |helds|
  {
    k < |steps| && IsHold(helds[k], steps[k]) && !IsOverwriting(helds[k], steps[k])
  }

  /** The order that step `k` holds. */
  function OrderOf(helds: seq<Held>, steps: seq<Step>, k: nat): HeldOrder
    requires k < |steps| < |helds| && IsGiving(helds[k], steps[k])
  {
    Given(helds[k], steps[k])[0]
  }

  lemma HeldOrderOf(helds: seq<Held>, steps: seq<Step>, k: nat)
    requires IsRun(helds, steps) && IsHoldStep(helds, steps, k)
    ensures var order := OrderOf(helds, steps, k);
      && helds[k + 1].waiting == helds[k].waiting[NewName(helds[k]) := order]
      && order.alertNs == order.openNs + |helds[k].waiting| + 1
  {
    assert IsRunStep(helds, steps, k);
    AlertOfHold(helds[k], steps[k].instrument, OrderOf(helds, steps, k).side, OrderOf(helds, steps, k).isClose);
  }

  /**
   * The alerts of 2 holds for one open are as many nanoseconds apart as there are holds less
   * sends from the first hold to the second. So they are in the order of the calls exactly
   * with more holds than sends, and 1 nanosecond for each hold apart exactly without a send.
   */
  lemma AlertsFollowHolds(helds: seq<Held>, steps: seq<Step>, i: nat, j: nat)
    requires IsRun(helds, steps) && i < j < |steps| && HasNoOverwrite(helds, steps, j)
    requires IsHoldStep(helds, steps, i) && IsHoldStep(helds, steps, j)
    requires OrderOf(helds, steps, i).openNs == OrderOf(helds, steps, j).openNs
    ensures var first, second := OrderOf(helds, steps, i).alertNs, OrderOf(helds, steps, j).alertNs;
      var holds, sends := HoldsBetween(helds, steps, i, j), SendsBetween(steps, i, j);
      && second - first == |helds[j].waiting| - |helds[i].waiting| == holds - sends
      && (first < second <==> sends < holds)
      && (second == first + holds <==> sends == 0)
  {
    WaitingBalance(helds, steps, i, j);
    HeldOrderOf(helds, steps, i);
    HeldOrderOf(helds, steps, j);
  }

  /** Of 2 orders that wait, the one with the later alert is not sent first. */
  lemma EarlierAlertIsSentFirst(helds: seq<Held>, steps: seq<Step>, k: nat, name: AlertName, other: AlertName)
    requires IsRun(helds, steps) && k < |steps| && HasNoOverwrite(helds, steps, k)
    requires name in helds[k].waiting && other in helds[k].waiting
    requires helds[k].waiting[other].alertNs < helds[k].waiting[name].alertNs
    ensures steps[k] != AlertComes(name)
  {
    RunKeepsInv(helds, steps, k);
    assert IsRunStep(helds, steps, k);
  }

  // ---------------------------------------------------------------- taken names

  /**
   * Step `i` held an order at the time of state `j`, it still waits, and as many orders were held as sent since then.
   */
  ghost predicate HasEqualHold(helds: seq<Held>, steps: seq<Step>, i: nat, j: nat)
    requires i < j <= |steps| < |helds|
  {
    && IsHoldStep(helds, steps, i) && helds[i].nowNs == helds[j].nowNs
    && HoldsBetween(helds, steps, i, j) == SendsBetween(steps, i, j)
    && forall m :: i < m < j ==> steps[m] != AlertComes(NewName(helds[i]))
  }

  lemma StepKeepsOthers(held: Held, step: Step, name: AlertName)
    requires IsEnabled(held, step) && !IsOverwriting(held, step)
    ensures name in After(held, step).waiting <==>
              (name in held.waiting && step != AlertComes(name)) || (IsHold(held, step) && name == NewName(held))
  {
    if step.AlertComes? {
      assert After(held, step).waiting == held.waiting - {step.name};
    } else if IsHold(held, step) {
      GivenWaits(held, step);
    } else {
      assert After(held, step).waiting == held.waiting;
    }
  }

  lemma WaitsAfterHold(held: Held, instrument: Instrument, side: Side, isClose: bool)
    requires NextOpen(held, instrument).Some?
    ensures Hold(held, instrument, side, isClose).waiting
         == held.waiting[NewName(held) := GivenOrder(held, instrument, side, isClose)]
  {
  }

  lemma GivenWaits(held: Held, step: Step)
    requires IsHold(held, step)
    ensures After(held, step).waiting == held.waiting[NewName(held) := Given(held, step)[0]]
  {
    WaitsAfterHold(BeforeHold(held, step), step.instrument, SideOf(step), step.Closes?);
  }

  /** A waiting order came from a hold of the run. */
  lemma {:induction false} WaitingWasHeld(helds: seq<Held>, steps: seq<Step>, j: nat, name: AlertName) returns (i: nat)
    requires IsRun(helds, steps) && j < |helds| && HasNoOverwrite(helds, steps, j) && name in helds[j].waiting
    ensures i < j && IsHoldStep(helds, steps, i) && NewName(helds[i]) == name
    ensures forall m :: i < m < j ==> steps[m] != AlertComes(name)
    decreases j
  {
    assert j > 0;
    assert IsRunStep(helds, steps, j - 1);
    StepKeepsOthers(helds[j - 1], steps[j - 1], name);
    if name in helds[j - 1].waiting && steps[j - 1] != AlertComes(name) {
      i := WaitingWasHeld(helds, steps, j - 1, name);
    } else {
      i := j - 1;
    }
  }

  lemma {:induction false} HeldStillWaits(helds: seq<Held>, steps: seq<Step>, i: nat, j: nat)
    requires IsRun(helds, steps) && i < j < |helds| && HasNoOverwrite(helds, steps, j) && IsHoldStep(helds, steps, i)
    requires forall m :: i < m < j ==> steps[m] != AlertComes(NewName(helds[i]))
    ensures NewName(helds[i]) in helds[j].waiting
    decreases j
  {
    if i + 1 < j {
      HeldStillWaits(helds, steps, i, j - 1);
    }
    assert IsRunStep(helds, steps, j - 1);
    StepKeepsOthers(helds[j - 1], steps[j - 1], NewName(helds[i]));
  }

  /**
   * The next hold of a run takes the place of a waiting order exactly
   * after an earlier hold of the same time and equal counts.
   */
  lemma TakenName(helds: seq<Held>, steps: seq<Step>, j: nat)
    requires IsRun(helds, steps) && j < |helds| && HasNoOverwrite(helds, steps, j)
    ensures NewName(helds[j]) in helds[j].waiting <==> exists i :: 0 <= i < j && HasEqualHold(helds, steps, i, j)
  {
    var name := NewName(helds[j]);
    if name in helds[j].waiting {
      var i := WaitingWasHeld(helds, steps, j, name);
      WaitingBalance(helds, steps, i, j);
      assert HasEqualHold(helds, steps, i, j);
    }
    if i :| 0 <= i < j && HasEqualHold(helds, steps, i, j) {
      WaitingBalance(helds, steps, i, j);
      HeldStillWaits(helds, steps, i, j);
    }
  }

  // ---------------------------------------------------------------- reached runs

  lemma ExtendRun(helds: seq<Held>, steps: seq<Step>, step: Step, next: Held)
    requires IsRun(helds, steps) && IsEnabled(helds[|steps|], step) && next == After(helds[|steps|], step)
    ensures IsRun(helds + [next], steps + [step])
  {
    forall k | 0 <= k < |steps + [step]| ensures IsRunStep(helds + [next], steps + [step], k) {
      if k < |steps| {
        assert IsRunStep(helds, steps, k);
      }
    }
  }

  /** A run without a lost order ends in this state. */
  ghost predicate IsReached(held: Held) {
    exists helds, steps :: EndsAt(helds, steps, held)
  }

  ghost predicate EndsAt(helds: seq<Held>, steps: seq<Step>, held: Held) {
    IsRun(helds, steps) && HasNoOverwrite(helds, steps, |steps|) && helds[|steps|] == held
  }

  lemma {:induction false} NoOverwriteOfPrefix(helds: seq<Held>, steps: seq<Step>, next: Held, step: Step, k: nat)
    requires k <= |steps| < |helds| && HasNoOverwrite(helds, steps, k)
    ensures HasNoOverwrite(helds + [next], steps + [step], k)
  {
    if k > 0 {
      NoOverwriteOfPrefix(helds, steps, next, step, k - 1);
    }
  }

  lemma ExtendNoOverwrite(helds: seq<Held>, steps: seq<Step>, next: Held, step: Step)
    requires |steps| < |helds| && HasNoOverwrite(helds, steps, |steps|) && !IsOverwriting(helds[|steps|], step)
    ensures HasNoOverwrite(helds + [next], steps + [step], |steps| + 1)
  {
    NoOverwriteOfPrefix(helds, steps, next, step, |steps|);
    assert (helds + [next])[|steps|] == helds[|steps|] && (steps + [step])[|steps|] == step;
  }

  lemma Go(held: Held, step: Step)
    requires IsReached(held) && IsEnabled(held, step) && !IsOverwriting(held, step)
    ensures IsReached(After(held, step))
  {
    var helds, steps :| EndsAt(helds, steps, held);
    var next := After(held, step);
    ExtendRun(helds, steps, step, next);
    ExtendNoOverwrite(helds, steps, next, step);
    assert EndsAt(helds + [next], steps + [step], next);
  }

  lemma StartIsReached(held: Held)
    requires IsStart(held)
    ensures IsReached(held)
  {
    assert EndsAt([held], [], held);
  }

  lemma GoHold(held: Held, instrument: Instrument, side: Side, openNs: int) returns (next: Held)
    requires IsReached(held) && NextOpen(held, instrument) == Some(openNs) && NewName(held) !in held.waiting
    ensures IsReached(next) && |next.waiting| == |held.waiting| + 1
    ensures next == held.(waiting := held.waiting[NewName(held) :=
                            HeldOrder(instrument, side, false, openNs, openNs + |held.waiting| + 1)])
  {
    AlertOfHold(held, instrument, side, false);
    Go(held, Submits(instrument, side));
    next := After(held, Submits(instrument, side));
    assert next.waiting.Keys == held.waiting.Keys + {NewName(held)};
  }

  /** The clock moves to the alert of an order, and the order goes. */
  lemma GoSend(held: Held, name: AlertName, nowNs: int) returns (next: Held)
    requires IsReached(held) && name in held.waiting && held.waiting[name].alertNs == nowNs
    requires held.nowNs <= nowNs && !IsAlertPassed(held, nowNs)
    ensures IsReached(next) && next.openTimes == held.openTimes && next.nowNs == nowNs
    ensures next.waiting == held.waiting - {name} && |next.waiting| == |held.waiting| - 1
  {
    Go(held, ClockMoves(nowNs));
    var moved := After(held, ClockMoves(nowNs));
    Go(moved, AlertComes(name));
    next := After(moved, AlertComes(name));
    assert next.waiting.Keys == held.waiting.Keys - {name};
  }

  const OPENS: map<Instrument, seq<int>> := map[1 := [100], 2 := [200, 400]]

  lemma OpensOf(held: Held)
    requires held.openTimes == OPENS
    ensures held.nowNs < 100 ==> NextOpen(held, 1) == Some(100)
    ensures held.nowNs < 200 ==> NextOpen(held, 2) == Some(200)
    ensures 200 <= held.nowNs < 400 ==> NextOpen(held, 2) == Some(400)
  {
    assert OpenTimes(held, 1) == [100] && OpenTimes(held, 2) == [200, 400] && [200, 400][1..] == [400];
    assert held.nowNs < 400 ==> BisectRight([400], held.nowNs) == 0;
  }

  function Waiting(instrument: Instrument, side: Side, openNs: int, alertNs: int): HeldOrder {
    HeldOrder(instrument, side, false, openNs, alertNs)
  }

  /** 2 orders wait for the open at 100 and 1 sell for the open at 200. */
  lemma ThreeWait() returns (held: Held)
    ensures IsReached(held) && held.openTimes == OPENS && held.nowNs == 0
    ensures held.waiting
         == map[AlertName(0, 0) := Waiting(1, Buy, 100, 101), AlertName(0, 1) := Waiting(1, Buy, 100, 102),
                                AlertName(0, 2) := Waiting(2, Sell, 200, 203)]
    ensures |held.waiting| == 3
  {
    held := Held(OPENS, 0, map[], {}, []);
    StartIsReached(held);
    OpensOf(held);
    held := GoHold(held, 1, Buy, 100);
    OpensOf(held);
    held := GoHold(held, 1, Buy, 100);
    OpensOf(held);
    held := GoHold(held, 2, Sell, 200);
  }

  lemma TwoWait() returns (held: Held)
    ensures IsReached(held) && held.openTimes == OPENS && held.nowNs == 101
    ensures held.waiting
         == map[AlertName(0, 1) := Waiting(1, Buy, 100, 102), AlertName(0, 2) := Waiting(2, Sell, 200, 203)]
    ensures |held.waiting| == 2
  {
    held := ThreeWait();
    held := GoSend(held, AlertName(0, 0), 101);
  }

  lemma SellWaits() returns (held: Held)
    ensures IsReached(held) && held.openTimes == OPENS && held.nowNs == 102
    ensures held.waiting == map[AlertName(0, 2) := Waiting(2, Sell, 200, 203)] && |held.waiting| == 1
  {
    held := TwoWait();
    held := GoSend(held, AlertName(0, 1), 102);
  }

  /**
   * A later buy goes before an earlier sell of the same open: 2
   * sends gave their places free, and 1 order was held since.
   */
  lemma LaterHoldCanGoFirst() returns (held: Held)
    ensures IsReached(held)
    ensures held.waiting
         == map[AlertName(0, 2) := Waiting(2, Sell, 200, 203), AlertName(103, 1) := Waiting(2, Buy, 200, 202)]
  {
    held := SellWaits();
    Go(held, ClockMoves(103));
    held := After(held, ClockMoves(103));
    OpensOf(held);
    held := GoHold(held, 2, Buy, 200);
  }

  lemma BuyWaits() returns (held: Held)
    ensures IsReached(held) && held.openTimes == OPENS && held.nowNs == 101
    ensures held.waiting == map[AlertName(0, 1) := Waiting(2, Buy, 200, 202)] && |held.waiting| == 1
  {
    held := Held(OPENS, 0, map[], {}, []);
    StartIsReached(held);
    OpensOf(held);
    held := GoHold(held, 1, Buy, 100);
    OpensOf(held);
    held := GoHold(held, 2, Buy, 200);
    held := GoSend(held, AlertName(0, 0), 101);
  }

  /** 2 orders wait for 1 open with 1 alert time. */
  lemma AlertsCanCollide() returns (held: Held)
    ensures IsReached(held) && held.openTimes == OPENS && held.nowNs == 101 && |held.waiting| == 2
    ensures held.waiting
         == map[AlertName(0, 1) := Waiting(2, Buy, 200, 202), AlertName(101, 1) := Waiting(2, Buy, 200, 202)]
  {
    held := BuyWaits();
    OpensOf(held);
    held := GoHold(held, 2, Buy, 200);
  }

  lemma FirstOfTwoSent() returns (held: Held)
    ensures IsReached(held) && held.openTimes == OPENS && held.nowNs == 202
    ensures held.waiting == map[AlertName(101, 1) := Waiting(2, Buy, 200, 202)] && |held.waiting| == 1
  {
    held := AlertsCanCollide();
    held := GoSend(held, AlertName(0, 1), 202);
  }

  lemma HeldBetweenSends() returns (held: Held)
    ensures IsReached(held) && held.openTimes == OPENS && held.nowNs == 202 && |held.waiting| == 2
    ensures held.waiting
         == map[AlertName(101, 1) := Waiting(2, Buy, 200, 202), AlertName(202, 1) := Waiting(2, Sell, 400, 402)]
  {
    held := FirstOfTwoSent();
    OpensOf(held);
    held := GoHold(held, 2, Sell, 400);
  }

  /** A hold between 2 sends of one time: the next hold of this time takes its name, and its order is lost. */
  lemma OrderCanBeLost() returns (held: Held)
    ensures IsReached(held) && held.waiting == map[AlertName(202, 1) := Waiting(2, Sell, 400, 402)]
    ensures IsOverwriting(held, Submits(2, Buy)) && Lost(held, Submits(2, Buy)) == [Waiting(2, Sell, 400, 402)]
  {
    held := HeldBetweenSends();
    held := GoSend(held, AlertName(101, 1), 202);
    OpensOf(held);
  }
}
