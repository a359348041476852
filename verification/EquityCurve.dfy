/** The equity curve of a test with one instrument. */
module EquityCurve {
  import opened Sequences
  import opened Bars
  import opened Trades

  function BarEnds(bars: seq<Bar>, period: BarPeriod): (ends: seq<int>)
    ensures |ends| == |bars|
    ensures forall i :: 0 <= i < |bars| ==> ends[i] == FindBarEnd(bars[i].startUtc, period)
  {
    seq(|bars|, i requires 0 <= i < |bars| => FindBarEnd(bars[i].startUtc, period))
  }

  /** The latest end up to `index`. With ascending ends it is the end at `index`. */
  function LatestEnd(ends: seq<int>, index: nat): (latest: int)
    requires index < |ends|
    ensures exists j :: 0 <= j <= index && latest == ends[j]
    ensures forall j :: 0 <= j <= index ==> ends[j] <= latest
  {
    if index == 0 then ends[0] else Max(LatestEnd(ends, index - 1), ends[index])
  }

  /** The start cash minus all flows up to a time, plus the position of that time at `price`. */
  function EquityAt(startCash: real, trades: seq<Trade>, timeUtc: int, price: real): real {
    startCash - TotalUpTo(trades, timeUtc, CashOut) + MarketValue(TotalUpTo(trades, timeUtc, SignedShares), price)
  }

  /** The cash and the position after the first `cursor` sorted fills. */
  ghost predicate IsAccount(startCash: real, cash: real, shares: real, sorted: seq<Trade>, cursor: nat) {
    && cursor <= |sorted|
    && cash == startCash - SumBy(sorted[..cursor], CashOut)
    && shares == SumBy(sorted[..cursor], SignedShares)
  }

  lemma AccountStep(startCash: real, cash: real, shares: real, sorted: seq<Trade>, cursor: nat)
    requires IsAccount(startCash, cash, shares, sorted, cursor) && cursor < |sorted|
    ensures IsAccount(startCash, cash - CashOut(sorted[cursor]),
                      shares + SignedShares(sorted[cursor]), sorted, cursor + 1)
  {
    StepSum(sorted, cursor, CashOut);
    StepSum(sorted, cursor, SignedShares);
  }

  /** The point of one bar: its end, and the equity of the fills up to the latest bar end so far at its close. */
  ghost predicate IsPoint(point: EquityPoint, startCash: real, trades: seq<Trade>, ends: seq<int>,
                          bars: seq<Bar>, index: nat)
    requires index < |bars| == |ends|
  {
    && point.timeUtc == ends[index]
    && point.equityUsd == EquityAt(startCash, trades, LatestEnd(ends, index), bars[index].close)
  }

  ghost predicate ArePoints(curve: seq<EquityPoint>, startCash: real, trades: seq<Trade>,
                            ends: seq<int>, bars: seq<Bar>)
    requires |bars| == |ends|
  {
    |curve| <= |bars| && forall i :: 0 <= i < |curve| ==> IsPoint(curve[i], startCash, trades, ends, bars, i)
  }

  lemma AppendPoint(curve: seq<EquityPoint>, startCash: real, equity: real, trades: seq<Trade>,
                    ends: seq<int>, bars: seq<Bar>)
    requires |curve| < |bars| == |ends| && ArePoints(curve, startCash, trades, ends, bars)
    requires equity == EquityAt(startCash, trades, LatestEnd(ends, |curve|), bars[|curve|].close)
    ensures ArePoints(curve + [EquityPoint(ends[|curve|], equity)], startCash, trades, ends, bars)
  {
  }

  /** The cash and the position of a cursor are the declared equity. */
  lemma EquityOfAccount(startCash: real, cash: real, shares: real, trades: seq<Trade>, cursor: nat,
                        timeUtc: int, price: real)
    requires IsAccount(startCash, cash, shares, SortedTrades(trades), cursor)
    requires CursorAt(SortedTrades(trades), cursor, timeUtc)
    ensures cash + MarketValue(shares, price) == EquityAt(startCash, trades, timeUtc, price)
  {
    CursorTotal(trades, cursor, timeUtc, CashOut);
    CursorTotal(trades, cursor, timeUtc, SignedShares);
  }

  /** The cursor stands behind the fills up to the latest of the first `count` ends. */
  ghost predicate IsBehindEnds(sorted: seq<Trade>, next: nat, ends: seq<int>, count: nat)
    requires count <= |ends|
  {
    if count == 0 then next == 0 else CursorAt(sorted, next, LatestEnd(ends, count - 1))
  }

  lemma BeforeNextEnd(sorted: seq<Trade>, next: nat, ends: seq<int>, k: nat)
    requires k < |ends| && next <= |sorted| && IsBehindEnds(sorted, next, ends, k)
    ensures NoneAfter(sorted, next, LatestEnd(ends, k)) && ends[k] <= LatestEnd(ends, k)
    ensures ends[k] < LatestEnd(ends, k) ==> RestAfter(sorted, next, LatestEnd(ends, k))
  {
    if k > 0 {
      assert LatestEnd(ends, k) == Max(LatestEnd(ends, k - 1), ends[k]);
    }
  }

  /** The loop over the fills up to a bar end. At an end that is not after an earlier one it takes none. */
  method TakeFillsUpTo(ghost startCash: real, sorted: seq<Trade>, barEnd: int, ghost latest: int, next0: nat,
                       cash0: real, shares0: real)
    returns (next: nat, cash: real, shares: real)
    requires InTimeOrder(sorted) && IsAccount(startCash, cash0, shares0, sorted, next0)
    requires NoneAfter(sorted, next0, latest) && barEnd <= latest
    requires barEnd < latest ==> RestAfter(sorted, next0, latest)
    ensures IsAccount(startCash, cash, shares, sorted, next) && CursorAt(sorted, next, latest)
  {
    next, cash, shares := next0, cash0, shares0;
    while next < |sorted| && sorted[next].timeUtc <= barEnd
      invariant IsAccount(startCash, cash, shares, sorted, next)
      invariant NoneAfter(sorted, next, latest)
      invariant barEnd < latest ==> RestAfter(sorted, next, latest)
    {
      var trade := sorted[next];
      AccountStep(startCash, cash, shares, sorted, next);
      CursorStep(sorted, next, latest, latest);
      cash := cash - (MarketValue(SignedShares(trade), trade.priceUsd) + trade.commissionUsd);
      shares := shares + SignedShares(trade);
      next := next + 1;
    }
    RestIsLater(sorted, next, barEnd);
  }

  /** The loop variables before bar `k`. */
  datatype Account = Account(next: nat, cash: real, shares: real)

  ghost predicate IsBeforeBar(startCash: real, sorted: seq<Trade>, ends: seq<int>, k: nat, account: Account)
    requires k <= |ends|
  {
    && IsAccount(startCash, account.cash, account.shares, sorted, account.next)
    && IsBehindEnds(sorted, account.next, ends, k)
  }

  /** The fills of one bar, and the equity at its close. */
  method StepBar(ghost startCash: real, ghost trades: seq<Trade>, sorted: seq<Trade>, ghost ends: seq<int>,
                 ghost k: nat, barEnd: int,
                 close: real, account0: Account)
    returns (account: Account, equity: real)
    requires sorted == SortedTrades(trades) && k < |ends| && barEnd == ends[k]
    requires IsBeforeBar(startCash, sorted, ends, k, account0)
    ensures IsBeforeBar(startCash, sorted, ends, k + 1, account)
    ensures equity == EquityAt(startCash, trades, LatestEnd(ends, k), close)
  {
    SortedTradesInOrder(trades);
    BeforeNextEnd(sorted, account0.next, ends, k);
    var next, cash, shares := TakeFillsUpTo(startCash, sorted, barEnd, LatestEnd(ends, k), account0.next,
                                            account0.cash, account0.shares);
    EquityOfAccount(startCash, cash, shares, trades, next, LatestEnd(ends, k), close);
    account, equity := Account(next, cash, shares), cash + MarketValue(shares, close);
  }

  /** A bar end that is not after an earlier end takes in no more fills, so the fills count up to the latest end. */
  method CalculateEquityCurve(startCash: real, bars: seq<Bar>, period: BarPeriod, trades: seq<Trade>)
    returns (curve: seq<EquityPoint>)
    ensures |curve| == |bars|
    ensures ArePoints(curve, startCash, trades, BarEnds(bars, period), bars)
  {
    var sorted := SortedTrades(trades);
    ghost var ends := BarEnds(bars, period);
    assert sorted[..0] == [];
    var account := Account(0, startCash, 0.0);
    curve := [];
    for k := 0 to |bars|
      invariant |curve| == k && ArePoints(curve, startCash, trades, ends, bars)
      invariant IsBeforeBar(startCash, sorted, ends, k, account)
    {
      var barEnd, equity := FindBarEnd(bars[k].startUtc, period), 0.0;
      account, equity := StepBar(startCash, trades, sorted, ends, k, barEnd, bars[k].close, account);
      AppendPoint(curve, startCash, equity, trades, ends, bars);
      curve := curve + [EquityPoint(barEnd, equity)];
    }
  }

  lemma {:induction false} LatestEndOfAscending(ends: seq<int>, index: nat)
    requires index < |ends| && (forall i, j :: 0 <= i < j < |ends| ==> ends[i] < ends[j])
    ensures LatestEnd(ends, index) == ends[index]
  {
    if index > 0 {
      LatestEndOfAscending(ends, index - 1);
    }
  }
}
