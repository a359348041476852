/** The size of a held buy at its send, and the cash of the engine over a run of held orders. */
module CashFit {
  import opened Sequences
  import opened Trades
  import opened Reals

  /** The price and the size of the last tick, and 1 price step. */
  datatype Tick = Tick(price: real, size: nat, step: real)

  datatype Order = Order(side: Side, quantity: nat)

  /** The price is a positive multiple of the step, and `make_open_ticks` gives each tick a size of 1 or more. */
  ghost predicate IsTick(tick: Tick) { 0.0 < tick.step <= tick.price && tick.size >= 1 }

  /** The price of the check: with the step for an order above the tick size. */
  function CautiousPrice(tick: Tick, quantity: nat): real {
    if quantity > tick.size then tick.price + tick.step else tick.price
  }

  function Cost(quantity: int, price: real): real { quantity as real * price }

  lemma BetweenCosts(low: real, high: real, quotient: real, price: real, cash: real)
    requires price > 0.0 && quotient * price == cash && low <= quotient < high
    ensures low * price <= cash < high * price
  {
    ProductOrder(low, quotient, price);
    ProductOrder(high, quotient, price);
  }

  /** The largest whole quantity that the cash pays at the price. */
  function WholeShares(cash: real, price: real): (shares: int)
    requires price > 0.0
    ensures Cost(shares, price) <= cash < Cost(shares + 1, price)
  {
    var shares := (cash / price).Floor;
    QuotientTimes(cash, price);
    BetweenCosts(shares as real, (shares + 1) as real, cash / price, price, cash);
    shares
  }

  lemma CostOrder(a: int, b: int, price: real)
    requires price > 0.0
    ensures a <= b <==> Cost(a, price) <= Cost(b, price)
  {
    ProductOrder(a as real, b as real, price);
  }

  /** The order, or a smaller one. No tick or no account leaves the order as it is. */
  function FitToCash(order: Order, tick: Option<Tick>, freeCash: Option<real>): Order
    requires tick.Some? ==> IsTick(tick.value)
  {
    if order.side != Buy || tick.None? || freeCash.None? then
      order
    else
      var quantity := WholeShares(freeCash.value, CautiousPrice(tick.value, order.quantity));
      if quantity < 1 || quantity >= order.quantity then order else Order(Buy, quantity)
  }

  /** A sell, and an order without a tick or without an account, goes out as it is. A buy only gets smaller. */
  lemma OnlyBuysAreFitted(order: Order, tick: Option<Tick>, freeCash: Option<real>)
    requires tick.Some? ==> IsTick(tick.value)
    ensures order.side == Sell || tick.None? || freeCash.None? ==> FitToCash(order, tick, freeCash) == order
    ensures FitToCash(order, tick, freeCash).side == order.side
    ensures FitToCash(order, tick, freeCash).quantity <= order.quantity
  {
  }

  // ---------------------------------------------------------------- the engine

  /** The tick size fills at the price, and the rest one step worse. */
  function FillAmount(quantity: nat, tick: Tick, restPrice: real): real {
    if quantity <= tick.size then Cost(quantity, tick.price)
    else Cost(tick.size, tick.price) + Cost(quantity - tick.size, restPrice)
  }

  /** The pre-trade check of the engine. */
  predicate IsRefused(order: Order, tick: Tick, cash: real) {
    order.side == Buy && Cost(order.quantity, tick.price) > cash
  }

  function CashAfter(order: Order, tick: Tick, cash: real): real {
    if IsRefused(order, tick, cash) then cash
    else if order.side == Buy then cash - FillAmount(order.quantity, tick, tick.price + tick.step)
    else cash + FillAmount(order.quantity, tick, tick.price - tick.step)
  }

  lemma SplitCost(quantity: nat, size: nat, price: real, step: real)
    requires quantity >= size
    ensures Cost(size, price) + Cost(quantity - size, price + step)
         == Cost(quantity, price) + Cost(quantity - size, step)
  {
    assert (quantity - size) as real * (price + step)
         == (quantity - size) as real * price + (quantity - size) as real * step;
    assert (quantity - size) as real * price == quantity as real * price - size as real * price;
  }

  /** A fill costs at most its quantity at the cautious price of a larger or equal order. */
  lemma FillIsWithinCautiousCost(quantity: nat, tick: Tick, ordered: nat)
    requires IsTick(tick) && quantity <= ordered
    ensures FillAmount(quantity, tick, tick.price + tick.step) <= Cost(quantity, CautiousPrice(tick, ordered))
  {
    SplitCost(quantity, 0, tick.price, tick.step);
    ProductOrder(0.0, quantity as real, tick.step);
    if quantity > tick.size {
      SplitCost(quantity, tick.size, tick.price, tick.step);
      CostOrder(quantity - tick.size, quantity, tick.step);
    }
  }

  lemma SellAddsCash(quantity: nat, tick: Tick)
    requires IsTick(tick)
    ensures FillAmount(quantity, tick, tick.price - tick.step) >= 0.0
  {
    ProductNonNegative(quantity as real, tick.price);
    if quantity > tick.size {
      ProductNonNegative(tick.size as real, tick.price);
      ProductNonNegative((quantity - tick.size) as real, tick.price - tick.step);
    }
  }

  // ---------------------------------------------------------------- what a buy becomes

  datatype Outcome = Whole | Reduced(quantity: nat) | Refused

  function OutcomeOf(order: Order, tick: Tick, cash: real): Outcome
    requires IsTick(tick)
  {
    var sent := FitToCash(order, Some(tick), Some(cash));
    if IsRefused(sent, tick, cash) then Refused else if sent == order then Whole else Reduced(sent.quantity)
  }

  /** A buy is refused exactly when the cash does not pay 1 share at the cautious price. */
  lemma RefusedBuy(order: Order, tick: Tick, cash: real)
    requires IsTick(tick) && order.side == Buy && order.quantity >= 1 && cash < CautiousPrice(tick, order.quantity)
    ensures FitToCash(order, Some(tick), Some(cash)) == order && IsRefused(order, tick, cash)
  {
    var price := CautiousPrice(tick, order.quantity);
    var shares := WholeShares(cash, price);
    if shares >= 1 {
      CostOrder(1, shares, price);
    }
    if order.quantity > tick.size {
      CostOrder(2, order.quantity, tick.price);
      assert Cost(2, tick.price) == tick.price + tick.price;
    } else {
      CostOrder(1, order.quantity, tick.price);
    }
    assert Cost(1, price) == price && Cost(1, tick.price) == tick.price;
  }

  lemma PaidBuy(order: Order, tick: Tick, cash: real)
    requires IsTick(tick) && order.side == Buy && order.quantity >= 1 && cash >= CautiousPrice(tick, order.quantity)
    ensures var sent := FitToCash(order, Some(tick), Some(cash)); var price := CautiousPrice(tick, order.quantity);
      && sent.side == Buy && 1 <= sent.quantity <= order.quantity
      && Cost(sent.quantity, price) <= cash
      && (sent.quantity < order.quantity ==> cash < Cost(sent.quantity + 1, price))
      && !IsRefused(sent, tick, cash)
      && CashAfter(sent, tick, cash) >= 0.0
  {
    var price := CautiousPrice(tick, order.quantity);
    var shares := WholeShares(cash, price);
    var sent := FitToCash(order, Some(tick), Some(cash));
    assert Cost(1, price) == price;
    if shares < 1 {
      CostOrder(shares + 1, 1, price);
    }
    CostOrder(sent.quantity, shares, price);
    FillIsWithinCautiousCost(sent.quantity, tick, order.quantity);
    assert Cost(sent.quantity, tick.price) <= Cost(sent.quantity, price) by {
      SplitCost(sent.quantity, 0, tick.price, tick.step);
      ProductNonNegative(sent.quantity as real, tick.step);
    }
  }

  /** A buy is sent whole, reduced to the largest quantity that the cash pays at the cautious price, or refused. */
  lemma BuyOutcome(order: Order, tick: Tick, cash: real)
    requires IsTick(tick) && order.side == Buy && order.quantity >= 1
    ensures OutcomeOf(order, tick, cash) == Refused <==> cash < CautiousPrice(tick, order.quantity)
    ensures var price := CautiousPrice(tick, order.quantity);
      match OutcomeOf(order, tick, cash)
      case Refused => cash < price
      case Whole => price <= cash && Cost(order.quantity, price) <= cash
      case Reduced(quantity) =>
        1 <= quantity < order.quantity && Cost(quantity, price) <= cash < Cost(quantity + 1, price)
  {
    if cash < CautiousPrice(tick, order.quantity) {
      RefusedBuy(order, tick, cash);
    } else {
      PaidBuy(order, tick, cash);
    }
  }

  // ---------------------------------------------------------------- the whole shares that the cash pays

  /** What the fill of a buy costs: the shares of the tick at its price, and each other one 1 step more. */
  function BuyAmount(quantity: nat, tick: Tick): real { FillAmount(quantity, tick, tick.price + tick.step) }

  /** The largest part of the ordered quantity whose fill the cash pays. */
  function BestQuantity(ordered: nat, tick: Tick, cash: real): nat {
    if ordered == 0 || BuyAmount(ordered, tick) <= cash then ordered else BestQuantity(ordered - 1, tick, cash)
  }

  lemma {:induction false} BestIsLargest(ordered: nat, tick: Tick, cash: real)
    requires IsTick(tick) && cash >= 0.0
    ensures var best := BestQuantity(ordered, tick, cash);
      && best <= ordered && BuyAmount(best, tick) <= cash
      && forall quantity: nat :: quantity <= ordered && BuyAmount(quantity, tick) <= cash ==> quantity <= best
  {
    if ordered > 0 && BuyAmount(ordered, tick) > cash {
      BestIsLargest(ordered - 1, tick, cash);
    }
  }

  /** The fill of `quantity` costs 1 step less than the cautious price for each share of the tick. */
  lemma BuyAmountIs(quantity: nat, tick: Tick)
    ensures BuyAmount(quantity, tick)
         == Cost(quantity, tick.price + tick.step) - Cost(if quantity <= tick.size then quantity else tick.size,
                                                          tick.step)
  {
    SplitCost(quantity, 0, tick.price, tick.step);
    if quantity > tick.size {
      SplitCost(quantity, tick.size, tick.price, tick.step);
      assert Cost(quantity - tick.size, tick.step) == Cost(quantity, tick.step) - Cost(tick.size, tick.step);
    }
  }

  lemma MoreSharesCostMore(a: nat, b: nat, tick: Tick)
    requires IsTick(tick) && a <= b
    ensures BuyAmount(a, tick) <= BuyAmount(b, tick)
  {
    CostOrder(a, b, tick.price);
    if b > tick.size {
      CostOrder(0, b - tick.size, tick.price + tick.step);
      CostOrder(if a <= tick.size then 0 else a - tick.size, b - tick.size, tick.price + tick.step);
      CostOrder(if a <= tick.size then a else tick.size, tick.size, tick.price);
    }
  }

  /** The quantity that fills: 0 of a refused buy. */
  function FilledQuantity(order: Order, tick: Tick, cash: real): nat
    requires IsTick(tick)
  {
    match OutcomeOf(order, tick, cash)
    case Refused => 0
    case Whole => order.quantity
    case Reduced(quantity) => quantity
  }

  /** The smaller of the order and the whole shares that the cash pays at the cautious price. */
  lemma FilledIsCautious(order: Order, tick: Tick, cash: real)
    requires IsTick(tick) && order.side == Buy && order.quantity >= 1 && cash >= 0.0
    ensures var shares := WholeShares(cash, CautiousPrice(tick, order.quantity));
      && shares >= 0
      && FilledQuantity(order, tick, cash) == if shares < order.quantity then shares else order.quantity
  {
    var price := CautiousPrice(tick, order.quantity);
    var shares := WholeShares(cash, price);
    var filled := FilledQuantity(order, tick, cash);
    BuyOutcome(order, tick, cash);
    assert Cost(0, price) == 0.0 && Cost(1, price) == price;
    CostOrder(shares + 1, 0, price);
    CostOrder(shares + 1, filled, price);
    CostOrder(filled + 1, shares, price);
    CostOrder(1, shares, price);
  }

  /**
   * 1 share more is payable: the cash that it misses at the
   * cautious price is at most the step of the shares of the tick.
   */
  predicate PaysOneMore(tick: Tick, quantity: int, cash: real) {
    Cost(quantity + 1, tick.price + tick.step) - cash <= Cost(if quantity < tick.size then quantity + 1 else tick.size,
                                                              tick.step)
  }

  lemma BestAbove(ordered: nat, tick: Tick, cash: real, shares: nat)
    requires IsTick(tick) && cash >= 0.0 && shares < ordered && BuyAmount(shares, tick) <= cash
    ensures BestQuantity(ordered, tick, cash) == shares <==> BuyAmount(shares + 1, tick) > cash
  {
    BestIsLargest(ordered, tick, cash);
    var best := BestQuantity(ordered, tick, cash);
    if best > shares {
      MoreSharesCostMore(shares + 1, best, tick);
    }
  }

  /**
   * The documentation promises the whole shares that the cash pays. That many fill exactly for an order within the tick
   * size, for an order that the cash pays at the cautious price, and where the cash does not pay 1 share more.
   */
  lemma FillsWhatCashPays(order: Order, tick: Tick, cash: real)
    requires IsTick(tick) && order.side == Buy && order.quantity >= 1 && cash >= 0.0
    ensures var shares := WholeShares(cash, CautiousPrice(tick, order.quantity));
      FilledQuantity(order, tick, cash) == BestQuantity(order.quantity, tick, cash)
      <==> order.quantity <= tick.size || shares >= order.quantity || !PaysOneMore(tick, shares, cash)
    ensures FilledQuantity(order, tick, cash) <= BestQuantity(order.quantity, tick, cash)
  {
    var price := CautiousPrice(tick, order.quantity);
    var shares := WholeShares(cash, price);
    FilledIsCautious(order, tick, cash);
    BestIsLargest(order.quantity, tick, cash);
    if shares >= order.quantity {
      CostOrder(order.quantity, shares, price);
      FillIsWithinCautiousCost(order.quantity, tick, order.quantity);
    } else {
      FillIsWithinCautiousCost(shares, tick, order.quantity);
      BestAbove(order.quantity, tick, cash, shares);
      BuyAmountIs(shares + 1, tick);
    }
  }

  /** The cash pays the whole order, and 1 share of it is cut. */
  lemma PayableOrderCanBeReduced()
    ensures var tick := Tick(10.0, 10, 0.01);
      && IsTick(tick) && BestQuantity(11, tick, 110.01) == 11 && OutcomeOf(Order(Buy, 11), tick, 110.01) == Reduced(10)
  {
    assert BuyAmount(11, Tick(10.0, 10, 0.01)) == 110.01;
    assert (110.01 / 10.01).Floor == 10;
  }

  /** The cash pays exactly 5 shares, and 4 fill. */
  lemma PayableShareCanBeCut()
    ensures var tick := Tick(10.0, 10, 0.01);
      && BuyAmount(5, tick) == 50.0 && BestQuantity(100, tick, 50.0) >= 5
      && OutcomeOf(Order(Buy, 100), tick, 50.0) == Reduced(4)
  {
    var tick := Tick(10.0, 10, 0.01);
    BestIsLargest(100, tick, 50.0);
    assert BuyAmount(5, tick) == 50.0;
    assert (50.0 / 10.01).Floor == 4;
  }

  /**
   * A buy is refused although the cash pays 1 share: exactly
   * above the tick size with cash below 1 step above the price.
   */
  lemma RefusedThoughOneShareIsPaid(order: Order, tick: Tick, cash: real)
    requires IsTick(tick) && order.side == Buy && order.quantity >= 1
    ensures OutcomeOf(order, tick, cash) == Refused && BuyAmount(1, tick) <= cash
       <==> order.quantity > tick.size && tick.price <= cash < tick.price + tick.step
  {
    BuyOutcome(order, tick, cash);
    assert Cost(1, tick.price) == tick.price;
  }

  // ---------------------------------------------------------------- runs

  datatype Sent = Sent(order: Order, tick: Tick)

  ghost predicate IsRunOfOrders(run: seq<Sent>) {
    forall i :: 0 <= i < |run| ==> IsTick(run[i].tick) && run[i].order.quantity >= 1
  }

  /** The cash after held orders, each fitted to the cash that the orders before it left. */
  function CashAfterRun(run: seq<Sent>, startCash: real): real
    requires forall i :: 0 <= i < |run| ==> IsTick(run[i].tick)
  {
    if run == [] then startCash
    else
      var cash := CashAfterRun(run[..|run| - 1], startCash);
      var last := run[|run| - 1];
      CashAfter(FitToCash(last.order, Some(last.tick), Some(cash)), last.tick, cash)
  }

  lemma {:induction false} CashStaysNonNegative(run: seq<Sent>, startCash: real)
    requires IsRunOfOrders(run) && startCash >= 0.0
    ensures CashAfterRun(run, startCash) >= 0.0
  {
    if run != [] {
      CashStaysNonNegative(run[..|run| - 1], startCash);
      var cash := CashAfterRun(run[..|run| - 1], startCash);
      var last := run[|run| - 1];
      if last.order.side == Sell {
        SellAddsCash(last.order.quantity, last.tick);
      } else if cash < CautiousPrice(last.tick, last.order.quantity) {
        RefusedBuy(last.order, last.tick, cash);
      } else {
        PaidBuy(last.order, last.tick, cash);
      }
    }
  }

  /** What fills of each held order: nothing of a refused one. */
  function FillsOfRun(run: seq<Sent>, startCash: real): (fills: seq<Sent>)
    requires forall i :: 0 <= i < |run| ==> IsTick(run[i].tick)
    ensures |fills| == |run|
  {
    if run == [] then []
    else
      var init, last := run[..|run| - 1], run[|run| - 1];
      var cash := CashAfterRun(init, startCash);
      var sent := FitToCash(last.order, Some(last.tick), Some(cash));
      FillsOfRun(init, startCash)
      + [Sent(if IsRefused(sent, last.tick, cash) then Order(sent.side, 0) else sent, last.tick)]
  }

  function SoldShares(sent: Sent): real { if sent.order.side == Sell then sent.order.quantity as real else 0.0 }

  /** The cash that a fill adds. */
  function CashOfFill(sent: Sent): real {
    if sent.order.side == Buy then -FillAmount(sent.order.quantity, sent.tick, sent.tick.price + sent.tick.step)
    else FillAmount(sent.order.quantity, sent.tick, sent.tick.price - sent.tick.step)
  }

  /** Over every run, each sell fills whole, each buy at most whole, and the sold shares are exactly the held ones. */
  lemma {:induction false} SellsFillWhole(run: seq<Sent>, startCash: real)
    requires IsRunOfOrders(run)
    ensures forall i :: 0 <= i < |run| ==>
              FillsOfRun(run, startCash)[i].order.side == run[i].order.side
              && (if run[i].order.side == Sell then FillsOfRun(run, startCash)[i] == run[i]
                  else FillsOfRun(run, startCash)[i].order.quantity <= run[i].order.quantity)
    ensures SumBy(FillsOfRun(run, startCash), SoldShares) == SumBy(run, SoldShares)
  {
    if run != [] {
      SellsFillWhole(run[..|run| - 1], startCash);
    }
  }

  /** Over every run, the cash is the start cash and the cash of the fills. */
  lemma {:induction false} CashIsOfFills(run: seq<Sent>, startCash: real)
    requires IsRunOfOrders(run)
    ensures CashAfterRun(run, startCash) == startCash + SumBy(FillsOfRun(run, startCash), CashOfFill)
  {
    if run != [] {
      CashIsOfFills(run[..|run| - 1], startCash);
    }
  }

  /** Without the fit, the step alone can make the cash negative: the pre-trade check does not see it. */
  lemma UnfittedBuyCanOverdraw()
    ensures var tick := Tick(10.0, 1, 0.01);
      IsTick(tick) && !IsRefused(Order(Buy, 2), tick, 20.0) && CashAfter(Order(Buy, 2), tick, 20.0) < 0.0
  {
  }
}
