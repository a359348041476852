/** The equity curve of a test with many instruments. */
module UniverseEquityCurve {
  import opened Sequences
  import opened Bars
  import opened Trades
  import opened EquityCurve

  /** One entry of the dictionary from an instrument to its bars, in the order of the dictionary. */
  datatype InstrumentBars = InstrumentBars(key: InstrumentKey, bars: seq<Bar>)

  datatype Close = Close(key: InstrumentKey, endUtc: int, price: real)

  function CloseOf(key: InstrumentKey, bar: Bar, period: BarPeriod): Close {
    Close(key, FindBarEnd(bar.startUtc, period), bar.close)
  }

  function InstrumentCloses(key: InstrumentKey, bars: seq<Bar>, period: BarPeriod): seq<Close> {
    if bars == [] then []
    else InstrumentCloses(key, bars[..|bars| - 1], period) + [CloseOf(key, bars[|bars| - 1], period)]
  }

  /** All bar closes, in the order in which the curve reads them. */
  function AllCloses(instruments: seq<InstrumentBars>, period: BarPeriod): seq<Close> {
    if instruments == [] then []
    else
      var last := instruments[|instruments| - 1];
      AllCloses(instruments[..|instruments| - 1], period) + InstrumentCloses(last.key, last.bars, period)
  }

  // ---------------------------------------------------------------- the price of a position

  /** The last fill of the instrument in `trades`. */
  function LatestTrade(trades: seq<Trade>, key: InstrumentKey): Option<Trade> {
    if trades == [] then None
    else if FindInstrumentKey(trades[|trades| - 1]) == key then Some(trades[|trades| - 1])
    else LatestTrade(trades[..|trades| - 1], key)
  }

  /** The close of the instrument with the latest bar end at or before a time; of two, the one that is read later. */
  function LatestClose(closes: seq<Close>, key: InstrumentKey, timeUtc: int): Option<Close> {
    if closes == [] then None
    else
      var last := closes[|closes| - 1];
      var before := LatestClose(closes[..|closes| - 1], key, timeUtc);
      if last.key == key && last.endUtc <= timeUtc && (before.None? || before.value.endUtc <= last.endUtc)
      then Some(last) else before
  }

  lemma {:induction false} LatestCloseIsLatest(closes: seq<Close>, key: InstrumentKey, timeUtc: int)
    ensures var latest := LatestClose(closes, key, timeUtc);
      && (latest.Some? ==> latest.value in closes && latest.value.key == key && latest.value.endUtc <= timeUtc)
      && (latest.None? <==> forall c <- closes :: c.key == key ==> c.endUtc > timeUtc)
      && (latest.Some? ==> forall c <- closes :: c.key == key && c.endUtc <= timeUtc ==>
                c.endUtc <= latest.value.endUtc)
  {
    if closes != [] {
      LatestCloseIsLatest(closes[..|closes| - 1], key, timeUtc);
      assert closes == closes[..|closes| - 1] + [closes[|closes| - 1]];
    }
  }

  /** A close wins over a fill at or before its bar end. A fill after the last close sets the price again. */
  function LatestPrice(trade: Option<Trade>, close: Option<Close>): Option<real> {
    match (trade, close)
    case (None, None) => None
    case (Some(t), None) => Some(t.priceUsd)
    case (None, Some(c)) => Some(c.price)
    case (Some(t), Some(c)) => if t.timeUtc > c.endUtc then Some(t.priceUsd) else Some(c.price)
  }

  function UpToTime(timeUtc: int): Trade -> bool { (trade: Trade) => trade.timeUtc <= timeUtc }

  /** The price that the curve uses for an instrument at a time. */
  function MarkPrice(trades: seq<Trade>, closes: seq<Close>, key: InstrumentKey, timeUtc: int): Option<real> {
    LatestPrice(
      LatestTrade(Filter(SortedTrades(trades), UpToTime(timeUtc)), key),
      LatestClose(closes, key, timeUtc))
  }

  /** The shares of one fill at the price of its instrument at `timeUtc`. */
  function MarkedValue(trades: seq<Trade>, closes: seq<Close>, timeUtc: int): Trade -> real {
    (trade: Trade) =>
      MarketValue(SignedShares(trade), MarkPrice(trades, closes, FindInstrumentKey(trade), timeUtc).GetOr(0.0))
  }

  /** The equity at a bar end, as sums over all fills up to it. */
  function UniverseEquityAt(startCash: real, trades: seq<Trade>, closes: seq<Close>, timeUtc: int): real {
    startCash - TotalUpTo(trades, timeUtc, CashOut) + TotalUpTo(trades, timeUtc, MarkedValue(trades, closes, timeUtc))
  }

  // ---------------------------------------------------------------- the table of closes by bar end

  function EndsOf(closes: seq<Close>): set<int> { set c <- closes :: c.endUtc }

  function CloseAt(closes: seq<Close>, key: InstrumentKey, endUtc: int): Option<real> {
    if closes == [] then None
    else
      var last := closes[|closes| - 1];
      if last.key == key && last.endUtc == endUtc then Some(last.price)
      else CloseAt(closes[..|closes| - 1], key, endUtc)
  }

  type CloseTable = map<int, map<InstrumentKey, real>>

  function Lookup<K, V>(table: map<K, V>, key: K): Option<V> {
    if key in table then Some(table[key]) else None
  }

  ghost predicate IsCloseTable(table: CloseTable, closes: seq<Close>) {
    && table.Keys == EndsOf(closes)
    && forall e, k :: e in table ==> Lookup(table[e], k) == CloseAt(closes, k, e)
  }

  function AddClose(table: CloseTable, close: Close): CloseTable {
    var row := if close.endUtc in table then table[close.endUtc] else map[];
    table[close.endUtc := row[close.key := close.price]]
  }

  lemma {:induction false} NoCloseAtOtherEnd(closes: seq<Close>, key: InstrumentKey, endUtc: int)
    requires endUtc !in EndsOf(closes)
    ensures CloseAt(closes, key, endUtc).None?
  {
    if closes != [] {
      assert closes[|closes| - 1] in closes;
      NoCloseAtOtherEnd(closes[..|closes| - 1], key, endUtc);
    }
  }

  lemma AddCloseKeepsTable(table: CloseTable, closes: seq<Close>, close: Close)
    requires IsCloseTable(table, closes)
    ensures IsCloseTable(AddClose(table, close), closes + [close])
  {
    var after := closes + [close];
    assert after[..|after| - 1] == closes;
    assert EndsOf(after) == EndsOf(closes) + {close.endUtc};
    forall e, k | e in AddClose(table, close)
      ensures Lookup(AddClose(table, close)[e], k) == CloseAt(after, k, e)
    {
      if e !in table {
        NoCloseAtOtherEnd(closes, k, e);
      }
    }
  }

  // ---------------------------------------------------------------- the last prices

  ghost predicate AreLastPrices(prices: map<InstrumentKey, real>, processed: seq<Trade>,
                                closes: seq<Close>, timeUtc: int) {
    forall k :: Lookup(prices, k) == LatestPrice(LatestTrade(processed, k), LatestClose(closes, k, timeUtc))
  }

  /** The fill is later than each close of its instrument up to `timeUtc`. */
  ghost predicate IsAfterClose(trade: Trade, closes: seq<Close>, timeUtc: int) {
    LatestClose(closes, FindInstrumentKey(trade), timeUtc).Some? ==> trade.timeUtc > timeUtc
  }

  ghost predicate RestAfterCloses(sorted: seq<Trade>, cursor: nat, closes: seq<Close>, timeUtc: int) {
    forall i :: cursor <= i < |sorted| ==> IsAfterClose(sorted[i], closes, timeUtc)
  }

  lemma TradeSetsPrice(prices: map<InstrumentKey, real>, processed: seq<Trade>, closes: seq<Close>,
                       timeUtc: int, trade: Trade)
    requires AreLastPrices(prices, processed, closes, timeUtc)
    requires IsAfterClose(trade, closes, timeUtc)
    ensures AreLastPrices(SetPrice(prices, trade), processed + [trade], closes, timeUtc)
  {
    assert (processed + [trade])[..|processed|] == processed;
    LatestCloseIsLatest(closes, FindInstrumentKey(trade), timeUtc);
  }

  lemma {:induction false} LatestTradeIsMember(trades: seq<Trade>, key: InstrumentKey)
    ensures LatestTrade(trades, key).Some? ==> LatestTrade(trades, key).value in trades
    ensures LatestTrade(trades, key).None? <==> forall t <- trades :: FindInstrumentKey(t) != key
  {
    if trades != [] {
      LatestTradeIsMember(trades[..|trades| - 1], key);
      assert trades == trades[..|trades| - 1] + [trades[|trades| - 1]];
    }
  }

  /** The close that the table holds for a bar end is the latest close at that end. */
  lemma {:induction false} LatestCloseAtEnd(closes: seq<Close>, key: InstrumentKey, beforeUtc: int, endUtc: int)
    requires beforeUtc < endUtc
    requires forall c <- closes :: !(beforeUtc < c.endUtc < endUtc)
    ensures CloseAt(closes, key, endUtc).Some? ==>
      && LatestClose(closes, key, endUtc).Some?
      && LatestClose(closes, key, endUtc).value.endUtc == endUtc
      && LatestClose(closes, key, endUtc).value.price == CloseAt(closes, key, endUtc).value
    ensures CloseAt(closes, key, endUtc).None? ==>
              LatestClose(closes, key, endUtc) == LatestClose(closes, key, beforeUtc)
  {
    if closes != [] {
      var init, last := closes[..|closes| - 1], closes[|closes| - 1];
      assert closes == init + [last];
      LatestCloseAtEnd(init, key, beforeUtc, endUtc);
      LatestCloseIsLatest(init, key, beforeUtc);
      LatestCloseIsLatest(init, key, endUtc);
    }
  }

  /** The step to the next bar end: the closes of that end replace the prices, and the others stay. */
  lemma ClosesSetPrices(prices: map<InstrumentKey, real>, processed: seq<Trade>, closes: seq<Close>,
                        beforeUtc: int, endUtc: int, row: map<InstrumentKey, real>)
    requires AreLastPrices(prices, processed, closes, beforeUtc)
    requires beforeUtc < endUtc
    requires forall c <- closes :: !(beforeUtc < c.endUtc < endUtc)
    requires forall t <- processed :: t.timeUtc <= endUtc
    requires forall k :: Lookup(row, k) == CloseAt(closes, k, endUtc)
    ensures AreLastPrices(prices + row, processed, closes, endUtc)
  {
    forall k ensures Lookup(prices + row, k) == LatestPrice(LatestTrade(processed, k), LatestClose(closes, k, endUtc)) {
      LatestCloseIsLatest(closes, k, beforeUtc);
      assert Lookup(row, k) == CloseAt(closes, k, endUtc);
      LatestCloseAtEnd(closes, k, beforeUtc, endUtc);
      LatestTradeIsMember(processed, k);
    }
  }

  // ---------------------------------------------------------------- the positions

  function SharesOf(key: InstrumentKey): Trade -> real {
    (trade: Trade) => if FindInstrumentKey(trade) == key then SignedShares(trade) else 0.0
  }

  ghost predicate Distinct<T>(s: seq<T>) {
    forall i, j :: 0 <= i < j < |s| ==> s[i] != s[j]
  }

  /** The dictionary of the positions: `keys` is its insertion order. */
  ghost predicate ArePositions(keys: seq<InstrumentKey>, positions: map<InstrumentKey, real>, processed: seq<Trade>) {
    && Distinct(keys)
    && (forall k :: k in keys <==> k in positions)
    && (forall k <- keys :: positions[k] == SumBy(processed, SharesOf(k)) && LatestTrade(processed, k).Some?)
    && (forall t <- processed :: FindInstrumentKey(t) in keys)
  }

  /** The insertion order of the positions after a fill. */
  function AddKey(keys: seq<InstrumentKey>, positions: map<InstrumentKey, real>, trade: Trade): seq<InstrumentKey> {
    if FindInstrumentKey(trade) in positions then keys else keys + [FindInstrumentKey(trade)]
  }

  function AddShares(positions: map<InstrumentKey, real>, trade: Trade): map<InstrumentKey, real> {
    positions[FindInstrumentKey(trade) := Lookup(positions, FindInstrumentKey(trade)).GetOr(0.0) + SignedShares(trade)]
  }

  function SetPrice(prices: map<InstrumentKey, real>, trade: Trade): map<InstrumentKey, real> {
    prices[FindInstrumentKey(trade) := trade.priceUsd]
  }

  lemma {:induction false} NoSharesOfOther(processed: seq<Trade>, key: InstrumentKey)
    requires forall t <- processed :: FindInstrumentKey(t) != key
    ensures SumBy(processed, SharesOf(key)) == 0.0
  {
    SumZero(processed, SharesOf(key));
  }

  lemma AddTradeKeepsPositions(keys: seq<InstrumentKey>, positions: map<InstrumentKey, real>,
                               processed: seq<Trade>, trade: Trade)
    requires ArePositions(keys, positions, processed)
    ensures ArePositions(AddKey(keys, positions, trade), AddShares(positions, trade), processed + [trade])
  {
    var key := FindInstrumentKey(trade);
    var keys' := AddKey(keys, positions, trade);
    var positions' := AddShares(positions, trade);
    var processed' := processed + [trade];
    assert processed'[..|processed|] == processed;
    if key !in positions {
      NoSharesOfOther(processed, key);
    }
    forall k | k in keys' ensures positions'[k] == SumBy(processed', SharesOf(k)) {
      assert SumBy(processed', SharesOf(k)) == SumBy(processed, SharesOf(k)) + SharesOf(k)(trade);
    }
    assert Distinct(keys');
  }

  /** The sum over the items of the dictionary of the positions. */
  function PositionValue(keys: seq<InstrumentKey>, positions: map<InstrumentKey, real>,
                         prices: map<InstrumentKey, real>): real
    requires forall k <- keys :: k in positions && k in prices
  {
    if keys == [] then 0.0
    else
      var last := keys[|keys| - 1];
      PositionValue(keys[..|keys| - 1], positions, prices) + MarketValue(positions[last], prices[last])
  }

  /** The sum over instruments of the position from the fills at the price of the instrument. */
  function ValueByInstrument(keys: seq<InstrumentKey>, trades: seq<Trade>, price: InstrumentKey -> real): real {
    if keys == [] then 0.0
    else
      var last := keys[|keys| - 1];
      ValueByInstrument(keys[..|keys| - 1], trades, price) + MarketValue(SumBy(trades, SharesOf(last)), price(last))
  }

  function ValueOfTrade(price: InstrumentKey -> real): Trade -> real {
    (trade: Trade) => MarketValue(SignedShares(trade), price(FindInstrumentKey(trade)))
  }

  lemma MarketValueAdds(a: real, b: real, price: real)
    ensures MarketValue(a + b, price) == MarketValue(a, price) + MarketValue(b, price)
    ensures MarketValue(0.0, price) == 0.0
  {
  }

  lemma {:induction false} AddTradeValue(keys: seq<InstrumentKey>, trades: seq<Trade>, trade: Trade,
                                         price: InstrumentKey -> real)
    requires Distinct(keys)
    ensures ValueByInstrument(keys, trades + [trade], price)
         == ValueByInstrument(keys, trades, price)
            + if FindInstrumentKey(trade) in keys then ValueOfTrade(price)(trade) else 0.0
  {
    if keys != [] {
      var init, last := keys[..|keys| - 1], keys[|keys| - 1];
      assert keys == init + [last];
      AddTradeValue(init, trades, trade, price);
      assert (trades + [trade])[..|trades|] == trades;
      assert SumBy(trades + [trade], SharesOf(last)) == SumBy(trades, SharesOf(last)) + SharesOf(last)(trade);
      MarketValueAdds(SumBy(trades, SharesOf(last)), SharesOf(last)(trade), price(last));
    }
  }

  lemma {:induction false} NoTradesNoValue(keys: seq<InstrumentKey>, price: InstrumentKey -> real)
    ensures ValueByInstrument(keys, [], price) == 0.0
  {
    if keys != [] {
      NoTradesNoValue(keys[..|keys| - 1], price);
      MarketValueAdds(0.0, 0.0, price(keys[|keys| - 1]));
    }
  }

  /** The value of the positions is a sum over the fills: each fill at the price of its instrument. */
  lemma {:induction false} ValueIsSumOverTrades(keys: seq<InstrumentKey>, trades: seq<Trade>,
                                                price: InstrumentKey -> real)
    requires Distinct(keys) && forall t <- trades :: FindInstrumentKey(t) in keys
    ensures ValueByInstrument(keys, trades, price) == SumBy(trades, ValueOfTrade(price))
  {
    if trades == [] {
      NoTradesNoValue(keys, price);
    } else {
      var init, last := trades[..|trades| - 1], trades[|trades| - 1];
      assert trades == init + [last];
      ValueIsSumOverTrades(keys, init, price);
      AddTradeValue(keys, init, last, price);
    }
  }

  function PriceIn(prices: map<InstrumentKey, real>): InstrumentKey -> real {
    (k: InstrumentKey) => Lookup(prices, k).GetOr(0.0)
  }

  lemma {:induction false} PositionValueByInstrument(keys: seq<InstrumentKey>, positions: map<InstrumentKey, real>,
                                  prices: map<InstrumentKey, real>, trades: seq<Trade>)
    requires forall k <- keys :: k in positions && k in prices
    requires forall k <- keys :: positions[k] == SumBy(trades, SharesOf(k))
    ensures PositionValue(keys, positions, prices) == ValueByInstrument(keys, trades, PriceIn(prices))
  {
    if keys != [] {
      assert keys[|keys| - 1] in keys;
      PositionValueByInstrument(keys[..|keys| - 1], positions, prices, trades);
    }
  }

  // ---------------------------------------------------------------- the loops

  method MakeCloseTable(instruments: seq<InstrumentBars>, period: BarPeriod) returns (table: CloseTable)
    ensures IsCloseTable(table, AllCloses(instruments, period))
  {
    table := map[];
    for i := 0 to |instruments|
      invariant IsCloseTable(table, AllCloses(instruments[..i], period))
    {
      var key, bars := instruments[i].key, instruments[i].bars;
      ghost var before := AllCloses(instruments[..i], period);
      assert before + InstrumentCloses(key, bars[..0], period) == before;
      for j := 0 to |bars|
        invariant IsCloseTable(table, before + InstrumentCloses(key, bars[..j], period))
      {
        var close := CloseOf(key, bars[j], period);
        AddCloseKeepsTable(table, before + InstrumentCloses(key, bars[..j], period), close);
        table := AddClose(table, close);
        assert bars[..j + 1][..j] == bars[..j];
        assert before + InstrumentCloses(key, bars[..j + 1], period)
            == before + InstrumentCloses(key, bars[..j], period) + [close];
      }
      assert bars[..|bars|] == bars;
      assert instruments[..i + 1][..i] == instruments[..i];
    }
    assert instruments[..|instruments|] == instruments;
  }

  /** The loop variables: the cash, the positions in insertion order, and the last price of each instrument. */
  datatype CurveState = CurveState(
    cash: real,
    keys: seq<InstrumentKey>,
    positions: map<InstrumentKey, real>,
    lastPrices: map<InstrumentKey, real>)

  function TakeFill(state: CurveState, trade: Trade): CurveState {
    CurveState(
      state.cash - (MarketValue(SignedShares(trade), trade.priceUsd) + trade.commissionUsd),
      AddKey(state.keys, state.positions, trade),
      AddShares(state.positions, trade),
      SetPrice(state.lastPrices, trade))
  }

  /** The state after the fills `processed` and the closes up to `timeUtc`. */
  ghost predicate IsCurveState(startCash: real, processed: seq<Trade>, closes: seq<Close>,
                               timeUtc: int, state: CurveState) {
    && state.cash == startCash - SumBy(processed, CashOut)
    && ArePositions(state.keys, state.positions, processed)
    && AreLastPrices(state.lastPrices, processed, closes, timeUtc)
  }

  /** One fill moves the state on when it is later than each close of its instrument that the loop has read. */
  lemma TakeFillKeepsState(startCash: real, processed: seq<Trade>, trade: Trade, closes: seq<Close>,
                           timeUtc: int, state: CurveState)
    requires IsCurveState(startCash, processed, closes, timeUtc, state)
    requires IsAfterClose(trade, closes, timeUtc)
    ensures IsCurveState(startCash, processed + [trade], closes, timeUtc, TakeFill(state, trade))
  {
    assert (processed + [trade])[..|processed|] == processed;
    AddTradeKeepsPositions(state.keys, state.positions, processed, trade);
    TradeSetsPrice(state.lastPrices, processed, closes, timeUtc, trade);
  }

  lemma InitialState(startCash: real, closes: seq<Close>, ends: seq<int>, timeUtc: int)
    requires Ascending(ends) && forall e :: e in ends <==> e in EndsOf(closes)
    requires |ends| > 0 ==> timeUtc < ends[0]
    ensures IsCurveState(startCash, [], closes, timeUtc, CurveState(startCash, [], map[], map[]))
    ensures forall key :: LatestClose(closes, key, timeUtc).None?
  {
    forall c | c in closes ensures c.endUtc > timeUtc {
      assert c.endUtc in EndsOf(closes) && c.endUtc in ends;
    }
    forall key ensures LatestClose(closes, key, timeUtc).None? {
      LatestCloseIsLatest(closes, key, timeUtc);
    }
  }

  ghost predicate AreUniversePoints(curve: seq<EquityPoint>, startCash: real, trades: seq<Trade>,
                                    closes: seq<Close>, ends: seq<int>) {
    && |curve| <= |ends|
    && forall i :: 0 <= i < |curve| ==>
         curve[i] == EquityPoint(ends[i], UniverseEquityAt(startCash, trades, closes, ends[i]))
  }

  lemma AppendUniversePoint(curve: seq<EquityPoint>, startCash: real, trades: seq<Trade>, closes: seq<Close>,
                            ends: seq<int>, equity: real)
    requires AreUniversePoints(curve, startCash, trades, closes, ends) && |curve| < |ends|
    requires equity == UniverseEquityAt(startCash, trades, closes, ends[|curve|])
    ensures AreUniversePoints(curve + [EquityPoint(ends[|curve|], equity)], startCash, trades, closes, ends)
  {
  }

  lemma {:induction false} FilterOfCursor(sorted: seq<Trade>, cursor: nat, timeUtc: int)
    requires CursorAt(sorted, cursor, timeUtc)
    ensures Filter(sorted, UpToTime(timeUtc)) == sorted[..cursor]
  {
    assert sorted == sorted[..cursor] + sorted[cursor..];
    FilterAppend(sorted[..cursor], sorted[cursor..], UpToTime(timeUtc));
    FilterAll(sorted[..cursor], UpToTime(timeUtc));
    FilterNone(sorted[cursor..], UpToTime(timeUtc));
  }

  /** Each instrument with a position has a last price: the price lookup of the position value is defined. */
  lemma PositionsHavePrices(startCash: real, processed: seq<Trade>, closes: seq<Close>, timeUtc: int, state: CurveState)
    requires IsCurveState(startCash, processed, closes, timeUtc, state)
    ensures forall k <- state.keys :: k in state.positions && k in state.lastPrices
  {
    forall k | k in state.keys ensures k in state.lastPrices {
      assert LatestTrade(processed, k).Some?;
      assert Lookup(state.lastPrices, k) == LatestPrice(LatestTrade(processed, k), LatestClose(closes, k, timeUtc));
    }
  }

  /** At a bar end, the cash plus the positions at the last prices is the declared equity. */
  lemma StateEquity(startCash: real, trades: seq<Trade>, closes: seq<Close>, cursor: nat,
                    timeUtc: int, state: CurveState)
    requires CursorAt(SortedTrades(trades), cursor, timeUtc)
    requires IsCurveState(startCash, SortedTrades(trades)[..cursor], closes, timeUtc, state)
    requires forall k <- state.keys :: k in state.positions && k in state.lastPrices
    ensures state.cash + PositionValue(state.keys, state.positions, state.lastPrices)
         == UniverseEquityAt(startCash, trades, closes, timeUtc)
  {
    var sorted := SortedTrades(trades);
    var processed := sorted[..cursor];
    var marked := MarkedValue(trades, closes, timeUtc);
    var prices := PriceIn(state.lastPrices);
    PositionValueByInstrument(state.keys, state.positions, state.lastPrices, processed);
    ValueIsSumOverTrades(state.keys, processed, prices);
    FilterOfCursor(sorted, cursor, timeUtc);
    forall i | 0 <= i < |processed| ensures ValueOfTrade(prices)(processed[i]) == marked(processed[i]) {
      var key := FindInstrumentKey(processed[i]);
      assert Lookup(state.lastPrices, key) == MarkPrice(trades, closes, key, timeUtc);
    }
    SumCongruence(processed, ValueOfTrade(prices), marked);
    CursorTotal(trades, cursor, timeUtc, CashOut);
    CursorTotal(trades, cursor, timeUtc, marked);
  }

  /** The closes of one bar end move the state to that end. */
  lemma TakeCloses(startCash: real, processed: seq<Trade>, closes: seq<Close>, beforeUtc: int,
                   endUtc: int, state: CurveState,
                   table: CloseTable)
    requires IsCurveState(startCash, processed, closes, beforeUtc, state)
    requires forall t <- processed :: t.timeUtc <= endUtc
    requires IsCloseTable(table, closes) && endUtc in table
    requires beforeUtc < endUtc && forall e <- table :: !(beforeUtc < e < endUtc)
    ensures IsCurveState(startCash, processed, closes, endUtc, state.(lastPrices := state.lastPrices + table[endUtc]))
  {
    forall c | c in closes ensures !(beforeUtc < c.endUtc < endUtc) {
      assert c.endUtc in EndsOf(closes);
    }
    ClosesSetPrices(state.lastPrices, processed, closes, beforeUtc, endUtc, table[endUtc]);
  }

  /** The loop over the fills up to `barEnd`, with the closes up to `before`, stands before fill `next`. */
  ghost predicate IsFillLoop(startCash: real, sorted: seq<Trade>, closes: seq<Close>, before: int,
                             barEnd: int, next: nat,
                             state: CurveState) {
    && NoneAfter(sorted, next, barEnd)
    && RestAfterCloses(sorted, next, closes, before)
    && IsCurveState(startCash, sorted[..next], closes, before, state)
  }

  lemma FillLoopStep(startCash: real, sorted: seq<Trade>, closes: seq<Close>, before: int, barEnd: int,
                     next: nat, state: CurveState)
    requires IsFillLoop(startCash, sorted, closes, before, barEnd, next, state)
    requires next < |sorted| && sorted[next].timeUtc <= barEnd
    ensures IsFillLoop(startCash, sorted, closes, before, barEnd, next + 1, TakeFill(state, sorted[next]))
  {
    TakeFillKeepsState(startCash, sorted[..next], sorted[next], closes, before, state);
    TakeNext(sorted, next);
    CursorStep(sorted, next, barEnd, before);
  }

  /**
   * The cursor loop over the fills up to one bar end. `isAt`: what
   * holds before a fill, with the state of the fills before it.
   */
  method TakeFills(sorted: seq<Trade>, barEnd: int, next0: nat, state0: CurveState,
                   ghost isAt: (nat, CurveState) -> bool)
    returns (next: nat, state: CurveState)
    requires next0 <= |sorted| && isAt(next0, state0)
    requires forall n: nat, s: CurveState :: n < |sorted| && sorted[n].timeUtc <= barEnd && isAt(n, s) ==>
               isAt(n + 1, TakeFill(s, sorted[n]))
    ensures next <= |sorted| && isAt(next, state)
    ensures next == |sorted| || sorted[next].timeUtc > barEnd
  {
    next, state := next0, state0;
    while next < |sorted| && sorted[next].timeUtc <= barEnd
      invariant next <= |sorted| && isAt(next, state)
    {
      state := TakeFill(state, sorted[next]);
      next := next + 1;
    }
  }

  /** The fills up to one bar end, from the cursor on. */
  method TakeFillsUpTo(ghost startCash: real, sorted: seq<Trade>, ghost closes: seq<Close>,
                       ghost before: int, barEnd: int,
                       next0: nat, state0: CurveState)
    returns (next: nat, state: CurveState)
    requires InTimeOrder(sorted) && IsFillLoop(startCash, sorted, closes, before, barEnd, next0, state0)
    ensures CursorAt(sorted, next, barEnd)
    ensures IsCurveState(startCash, sorted[..next], closes, before, state)
  {
    forall n: nat, s: CurveState
      | n < |sorted| && sorted[n].timeUtc <= barEnd && IsFillLoop(startCash, sorted, closes, before, barEnd, n, s)
      ensures IsFillLoop(startCash, sorted, closes, before, barEnd, n + 1, TakeFill(s, sorted[n]))
    {
      FillLoopStep(startCash, sorted, closes, before, barEnd, n, s);
    }
    next, state := TakeFills(sorted, barEnd, next0, state0,
                             (n: nat, s: CurveState) => IsFillLoop(startCash, sorted, closes, before, barEnd, n, s));
    RestIsLater(sorted, next, barEnd);
  }

  /** The time up to which the closes count before end `k`. */
  function TimeBefore(ends: seq<int>, k: nat): int
    requires k <= |ends|
  {
    if k > 0 then ends[k - 1] else if ends == [] then 0 else ends[0] - 1
  }

  /** The loop over the bar ends stands before end `k`. */
  ghost predicate IsBeforeEnd(startCash: real, sorted: seq<Trade>, closes: seq<Close>,
                              ends: seq<int>, k: nat, next: nat,
                              state: CurveState)
    requires k <= |ends|
  {
    && NoneAfter(sorted, next, TimeBefore(ends, k)) && RestAfterCloses(sorted, next, closes, TimeBefore(ends, k))
    && IsCurveState(startCash, sorted[..next], closes, TimeBefore(ends, k), state)
  }

  lemma BeforeFirstEnd(startCash: real, sorted: seq<Trade>, closes: seq<Close>, ends: seq<int>)
    requires Ascending(ends) && forall e :: e in ends <==> e in EndsOf(closes)
    ensures IsBeforeEnd(startCash, sorted, closes, ends, 0, 0, CurveState(startCash, [], map[], map[]))
  {
    InitialState(startCash, closes, ends, TimeBefore(ends, 0));
    assert sorted[..0] == [];
  }

  lemma BeforeLaterEnd(startCash: real, sorted: seq<Trade>, closes: seq<Close>, ends: seq<int>, k: nat,
                       next: nat, state: CurveState)
    requires k < |ends| && CursorAt(sorted, next, ends[k])
    requires IsCurveState(startCash, sorted[..next], closes, ends[k], state)
    ensures IsBeforeEnd(startCash, sorted, closes, ends, k + 1, next, state)
  {
  }

  /** The fills and the closes of one bar end, and the equity at it. */
  method StepToBarEnd(ghost startCash: real, ghost trades: seq<Trade>, sorted: seq<Trade>, table: CloseTable,
                      ghost closes: seq<Close>, ghost ends: seq<int>, ghost k: nat, barEnd: int,
                      next0: nat, state0: CurveState)
    returns (next: nat, state: CurveState, equity: real)
    requires sorted == SortedTrades(trades) && IsCloseTable(table, closes)
    requires Ascending(ends) && forall e :: e in ends <==> e in table
    requires k < |ends| && barEnd == ends[k]
    requires IsBeforeEnd(startCash, sorted, closes, ends, k, next0, state0)
    ensures IsBeforeEnd(startCash, sorted, closes, ends, k + 1, next, state)
    ensures equity == UniverseEquityAt(startCash, trades, closes, barEnd)
  {
    ghost var before := TimeBefore(ends, k);
    NoEndBetween(ends, k, before);
    SortedTradesInOrder(trades);
    next, state := TakeFillsUpTo(startCash, sorted, closes, before, barEnd, next0, state0);
    TakeCloses(startCash, sorted[..next], closes, before, barEnd, state, table);
    state := state.(lastPrices := state.lastPrices + table[barEnd]);
    PositionsHavePrices(startCash, sorted[..next], closes, barEnd, state);
    StateEquity(startCash, trades, closes, next, barEnd, state);
    BeforeLaterEnd(startCash, sorted, closes, ends, k, next, state);
    equity := state.cash + PositionValue(state.keys, state.positions, state.lastPrices);
  }

  /** One point at each distinct bar end, in time order, with the declared equity. */
  method CalculateUniverseEquityCurve(startCash: real, instruments: seq<InstrumentBars>,
                                      period: BarPeriod, trades: seq<Trade>)
    returns (curve: seq<EquityPoint>)
    ensures |curve| == |SortedSet(EndsOf(AllCloses(instruments, period)))|
    ensures AreUniversePoints(curve, startCash, trades, AllCloses(instruments, period),
                              SortedSet(EndsOf(AllCloses(instruments, period))))
  {
    var closesByEnd := MakeCloseTable(instruments, period);
    ghost var closes := AllCloses(instruments, period);
    var sorted := SortedTrades(trades);
    var ends := SortedSet(closesByEnd.Keys);
    var next: nat, state := 0, CurveState(startCash, [], map[], map[]);
    BeforeFirstEnd(startCash, sorted, closes, ends);
    curve := [];
    for k := 0 to |ends|
      invariant |curve| == k && AreUniversePoints(curve, startCash, trades, closes, ends)
      invariant IsBeforeEnd(startCash, sorted, closes, ends, k, next, state)
    {
      var equity;
      next, state, equity := StepToBarEnd(startCash, trades, sorted, closesByEnd, closes, ends, k,
                                          ends[k], next, state);
      AppendUniversePoint(curve, startCash, trades, closes, ends, equity);
      curve := curve + [EquityPoint(ends[k], equity)];
    }
  }

  lemma NoEndBetween(ends: seq<int>, index: nat, beforeUtc: int)
    requires Ascending(ends) && index < |ends|
    requires beforeUtc == TimeBefore(ends, index)
    ensures beforeUtc < ends[index] && forall e <- ends :: !(beforeUtc < e < ends[index])
  {
    forall e | e in ends ensures !(beforeUtc < e < ends[index]) {
      var i :| 0 <= i < |ends| && ends[i] == e;
    }
  }
}
