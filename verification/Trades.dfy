/** The fills of a backtest and the sums over them that the metrics are compared with. */
module Trades {
  import opened Sequences

  datatype Side = Buy | Sell

  datatype InstrumentKey = InstrumentKey(symbol: Option<string>, exchange: Option<string>)

  /** One fill. `id` is the object identity: two fills of one list can be equal in all other fields. */
  datatype Trade = Trade(
    id: nat,
    timeUtc: int,
    side: Side,
    quantityShares: real,
    priceUsd: real,
    commissionUsd: real,
    symbol: Option<string>,
    exchange: Option<string>)

  datatype EquityPoint = EquityPoint(timeUtc: int, equityUsd: real)

  function FindInstrumentKey(trade: Trade): InstrumentKey { InstrumentKey(trade.symbol, trade.exchange) }

  function SignedShares(trade: Trade): real {
    if trade.side == Buy then trade.quantityShares else -trade.quantityShares
  }

  /** A number of shares at a price. */
  function MarketValue(shares: real, price: real): real { shares * price }

  function Amount(trade: Trade): real { MarketValue(trade.quantityShares, trade.priceUsd) }

  /** The cash that leaves the account at the fill. */
  function CashOut(trade: Trade): real {
    MarketValue(SignedShares(trade), trade.priceUsd) + trade.commissionUsd
  }

  const ByTime: Trade -> int := (trade: Trade) => trade.timeUtc
  const PointTime: EquityPoint -> int := (point: EquityPoint) => point.timeUtc

  function SortedTrades(trades: seq<Trade>): seq<Trade> { SortBy(trades, ByTime) }

  ghost predicate InTimeOrder(trades: seq<Trade>) {
    forall i, j :: 0 <= i < j < |trades| ==> trades[i].timeUtc <= trades[j].timeUtc
  }

  lemma SortedTradesInOrder(trades: seq<Trade>)
    ensures InTimeOrder(SortedTrades(trades))
    ensures |SortedTrades(trades)| == |trades|
  {
    SortSorts(trades, ByTime);
    forall i, j | 0 <= i < j < |trades|
      ensures SortedTrades(trades)[i].timeUtc <= SortedTrades(trades)[j].timeUtc
    {
      assert ByTime(SortedTrades(trades)[i]) <= ByTime(SortedTrades(trades)[j]);
    }
  }

  /** `amount` for a fill at or before `timeUtc`, else 0. */
  function UpTo(timeUtc: int, amount: Trade -> real): Trade -> real {
    (trade: Trade) => if trade.timeUtc <= timeUtc then amount(trade) else 0.0
  }

  /** The total of `amount` over the fills at or before `timeUtc`, in any order of the fills. */
  function TotalUpTo(trades: seq<Trade>, timeUtc: int, amount: Trade -> real): real {
    SumBy(trades, UpTo(timeUtc, amount))
  }

  ghost predicate NoneAfter(sorted: seq<Trade>, cursor: nat, timeUtc: int) {
    cursor <= |sorted| && forall i :: 0 <= i < cursor ==> sorted[i].timeUtc <= timeUtc
  }

  ghost predicate RestAfter(sorted: seq<Trade>, cursor: nat, timeUtc: int) {
    forall i :: cursor <= i < |sorted| ==> sorted[i].timeUtc > timeUtc
  }

  /** A cursor over the sorted fills that stands between the fills up to `timeUtc` and the later ones. */
  ghost predicate CursorAt(sorted: seq<Trade>, cursor: nat, timeUtc: int) {
    NoneAfter(sorted, cursor, timeUtc) && RestAfter(sorted, cursor, timeUtc)
  }

  lemma CursorStep(sorted: seq<Trade>, cursor: nat, timeUtc: int, restUtc: int)
    requires NoneAfter(sorted, cursor, timeUtc)
    requires cursor < |sorted| && sorted[cursor].timeUtc <= timeUtc
    ensures NoneAfter(sorted, cursor + 1, timeUtc)
    ensures RestAfter(sorted, cursor, restUtc) ==> RestAfter(sorted, cursor + 1, restUtc)
  {
  }

  /** When the next sorted fill is later, all remaining fills are later. */
  lemma RestIsLater(sorted: seq<Trade>, cursor: nat, timeUtc: int)
    requires InTimeOrder(sorted) && cursor <= |sorted|
    requires cursor == |sorted| || sorted[cursor].timeUtc > timeUtc
    ensures RestAfter(sorted, cursor, timeUtc)
  {
  }

  /** What a time-sorted cursor loop has summed is the total over all fills up to the cursor time. */
  lemma CursorTotal(trades: seq<Trade>, cursor: nat, timeUtc: int, amount: Trade -> real)
    requires CursorAt(SortedTrades(trades), cursor, timeUtc)
    ensures SumBy(SortedTrades(trades)[..cursor], amount) == TotalUpTo(trades, timeUtc, amount)
  {
    var sorted := SortedTrades(trades);
    var upTo := UpTo(timeUtc, amount);
    assert sorted == sorted[..cursor] + sorted[cursor..];
    SumAppend(sorted[..cursor], sorted[cursor..], upTo);
    SumCongruence(sorted[..cursor], amount, upTo);
    SumZero(sorted[cursor..], upTo);
    SortSum(trades, ByTime, upTo);
  }

  /** One cursor step: the sum takes in the fill under the cursor. */
  lemma StepSum(sorted: seq<Trade>, cursor: nat, amount: Trade -> real)
    requires cursor < |sorted|
    ensures SumBy(sorted[..cursor + 1], amount) == SumBy(sorted[..cursor], amount) + amount(sorted[cursor])
  {
    assert sorted[..cursor + 1][..cursor] == sorted[..cursor];
  }
}
