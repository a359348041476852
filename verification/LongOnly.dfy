/** A test on a cash account that never sells short: its equity stays above 0, so its split never divides by 0. */
module LongOnly {
  import opened Sequences
  import opened Bars
  import opened Trades
  import opened Reals
  import opened EquityCurve
  import opened UniverseEquityCurve
  import opened RoundTripLists
  import opened SplitMetrics

  // ---------------------------------------------------------------- the fills of a cash account

  /** A fill of the engine: it has no commission model. */
  predicate IsEngineFill(trade: Trade) {
    trade.quantityShares > 0.0 && trade.priceUsd > 0.0 && trade.commissionUsd == 0.0
  }

  function CashAfterFills(startCash: real, fills: seq<Trade>): real { startCash - SumBy(fills, CashOut) }

  /** The fills took no more than the cash, and sold no more than the position of an instrument. */
  ghost predicate IsCovered(startCash: real, fills: seq<Trade>) {
    CashAfterFills(startCash, fills) >= 0.0 && forall key :: SumBy(fills, SharesOf(key)) >= 0.0
  }

  /** `sorted`: the fills in time order. The account is covered after each of them. */
  ghost predicate IsLongOnly(startCash: real, sorted: seq<Trade>) {
    && startCash > 0.0
    && (forall trade <- sorted :: IsEngineFill(trade))
    && (forall n :: 0 <= n <= |sorted| ==> IsCovered(startCash, sorted[..n]))
  }

  ghost predicate HasShares(fills: seq<Trade>) {
    exists key :: SumBy(fills, SharesOf(key)) > 0.0
  }

  lemma FillMovesCash(trade: Trade)
    requires IsEngineFill(trade)
    ensures if trade.side == Buy then CashOut(trade) > 0.0 else CashOut(trade) < 0.0
  {
    ProductPositive(trade.quantityShares, trade.priceUsd);
    assert -trade.quantityShares * trade.priceUsd == -(trade.quantityShares * trade.priceUsd);
  }

  /** After a sell there is cash, and after a buy there are shares. */
  lemma CashOrShares(startCash: real, fills: seq<Trade>)
    requires IsLongOnly(startCash, fills)
    ensures CashAfterFills(startCash, fills) > 0.0 || HasShares(fills)
  {
    if fills != [] {
      var n := |fills| - 1;
      var init, last := fills[..n], fills[n];
      assert IsCovered(startCash, init);
      assert last in fills;
      FillMovesCash(last);
      if last.side == Buy {
        assert SumBy(fills, SharesOf(FindInstrumentKey(last))) > 0.0;
      }
    }
  }

  lemma PrefixIsLongOnly(startCash: real, sorted: seq<Trade>, count: nat)
    requires IsLongOnly(startCash, sorted) && count <= |sorted|
    ensures IsLongOnly(startCash, sorted[..count])
  {
    forall n | 0 <= n <= count ensures IsCovered(startCash, sorted[..count][..n]) {
      assert sorted[..count][..n] == sorted[..n];
    }
  }

  // ---------------------------------------------------------------- the value of the positions

  ghost predicate ArePrices(keys: seq<InstrumentKey>, price: InstrumentKey -> real) {
    forall key <- keys :: price(key) > 0.0
  }

  /** Positions that are not short have a value, and one with shares has a value above 0. */
  lemma {:induction false} ValueOfShares(keys: seq<InstrumentKey>, fills: seq<Trade>, price: InstrumentKey -> real)
    requires ArePrices(keys, price) && forall key <- keys :: SumBy(fills, SharesOf(key)) >= 0.0
    ensures ValueByInstrument(keys, fills, price) >= 0.0
    ensures (exists key <- keys :: SumBy(fills, SharesOf(key)) > 0.0) ==> ValueByInstrument(keys, fills, price) > 0.0
  {
    if keys != [] {
      var init, last := keys[..|keys| - 1], keys[|keys| - 1];
      assert keys == init + [last] && last in keys;
      ValueOfShares(init, fills, price);
      ProductNonNegative(SumBy(fills, SharesOf(last)), price(last));
      if SumBy(fills, SharesOf(last)) > 0.0 {
        ProductPositive(SumBy(fills, SharesOf(last)), price(last));
      }
    }
  }

  /** The cash and the value of the positions after some fills. */
  lemma EquityOfFills(startCash: real, fills: seq<Trade>, keys: seq<InstrumentKey>, price: InstrumentKey -> real)
    requires IsLongOnly(startCash, fills) && ArePrices(keys, price)
    requires forall trade <- fills :: FindInstrumentKey(trade) in keys
    ensures CashAfterFills(startCash, fills) + ValueByInstrument(keys, fills, price) > 0.0
  {
    assert fills[..|fills|] == fills;
    assert IsCovered(startCash, fills);
    CashOrShares(startCash, fills);
    ValueOfShares(keys, fills, price);
    if HasShares(fills) {
      var key :| SumBy(fills, SharesOf(key)) > 0.0;
      if key !in keys {
        NoSharesOfOther(fills, key);
      }
    }
  }

  lemma {:induction false} CursorOf(sorted: seq<Trade>, timeUtc: int) returns (cursor: nat)
    requires InTimeOrder(sorted)
    ensures CursorAt(sorted, cursor, timeUtc)
  {
    cursor := |sorted|;
    if sorted != [] && sorted[|sorted| - 1].timeUtc > timeUtc {
      cursor := CursorOf(sorted[..|sorted| - 1], timeUtc);
    }
  }

  ghost predicate ArePositiveCloses(closes: seq<Close>) { forall close <- closes :: close.price > 0.0 }

  lemma MarkIsPositive(trades: seq<Trade>, closes: seq<Close>, key: InstrumentKey, timeUtc: int)
    requires ArePositiveCloses(closes) && forall trade <- SortedTrades(trades) :: IsEngineFill(trade)
    requires LatestTrade(Filter(SortedTrades(trades), UpToTime(timeUtc)), key).Some?
    ensures MarkPrice(trades, closes, key, timeUtc).GetOr(0.0) > 0.0
  {
    var processed := Filter(SortedTrades(trades), UpToTime(timeUtc));
    var trade := LatestTrade(processed, key).value;
    LatestTradeIsMember(processed, key);
    FilterKeeps(SortedTrades(trades), UpToTime(timeUtc), trade);
    LatestCloseIsLatest(closes, key, timeUtc);
  }

  function MarkAt(trades: seq<Trade>, closes: seq<Close>, timeUtc: int): InstrumentKey -> real {
    (key: InstrumentKey) => MarkPrice(trades, closes, key, timeUtc).GetOr(0.0)
  }

  /** The declared equity is the cash and the value of the positions of the fills up to the time. */
  lemma EquityIsCashAndValue(startCash: real, trades: seq<Trade>, closes: seq<Close>, timeUtc: int, cursor: nat,
                             keys: seq<InstrumentKey>)
    requires CursorAt(SortedTrades(trades), cursor, timeUtc)
    requires Distinct(keys) && forall trade <- SortedTrades(trades)[..cursor] :: FindInstrumentKey(trade) in keys
    ensures var fills := SortedTrades(trades)[..cursor];
      UniverseEquityAt(startCash, trades, closes, timeUtc)
        == CashAfterFills(startCash, fills) + ValueByInstrument(keys, fills, MarkAt(trades, closes, timeUtc))
  {
    var fills := SortedTrades(trades)[..cursor];
    var mark, marked := MarkAt(trades, closes, timeUtc), MarkedValue(trades, closes, timeUtc);
    CursorTotal(trades, cursor, timeUtc, CashOut);
    CursorTotal(trades, cursor, timeUtc, marked);
    ValueIsSumOverTrades(keys, fills, mark);
    SumCongruence(fills, ValueOfTrade(mark), marked);
  }

  lemma MarksArePositive(trades: seq<Trade>, closes: seq<Close>, timeUtc: int, cursor: nat)
    requires CursorAt(SortedTrades(trades), cursor, timeUtc)
    requires ArePositiveCloses(closes) && forall trade <- SortedTrades(trades) :: IsEngineFill(trade)
    ensures ArePrices(InstrumentKeys(SortedTrades(trades)[..cursor]), MarkAt(trades, closes, timeUtc))
  {
    var fills := SortedTrades(trades)[..cursor];
    FilterOfCursor(SortedTrades(trades), cursor, timeUtc);
    forall key <- InstrumentKeys(fills) ensures MarkAt(trades, closes, timeUtc)(key) > 0.0 {
      LatestTradeIsMember(fills, key);
      MarkIsPositive(trades, closes, key, timeUtc);
    }
  }

  /** Each equity of a long-only test with positive closes is above 0. */
  lemma UniverseEquityIsPositive(startCash: real, trades: seq<Trade>, closes: seq<Close>, timeUtc: int)
    requires IsLongOnly(startCash, SortedTrades(trades)) && ArePositiveCloses(closes)
    ensures UniverseEquityAt(startCash, trades, closes, timeUtc) > 0.0
  {
    var sorted := SortedTrades(trades);
    SortedTradesInOrder(trades);
    var cursor := CursorOf(sorted, timeUtc);
    var fills := sorted[..cursor];
    PrefixIsLongOnly(startCash, sorted, cursor);
    MarksArePositive(trades, closes, timeUtc, cursor);
    EquityIsCashAndValue(startCash, trades, closes, timeUtc, cursor, InstrumentKeys(fills));
    EquityOfFills(startCash, fills, InstrumentKeys(fills), MarkAt(trades, closes, timeUtc));
  }

  // ---------------------------------------------------------------- one instrument

  lemma {:induction false} SharesOfOne(fills: seq<Trade>, key: InstrumentKey)
    requires forall trade <- fills :: FindInstrumentKey(trade) == key
    ensures SumBy(fills, SharesOf(key)) == SumBy(fills, SignedShares)
  {
    forall i | 0 <= i < |fills| ensures SharesOf(key)(fills[i]) == SignedShares(fills[i]) {
      assert fills[i] in fills;
    }
    SumCongruence(fills, SharesOf(key), SignedShares);
  }

  /** The same for the curve of one instrument. */
  lemma EquityIsPositive(startCash: real, trades: seq<Trade>, key: InstrumentKey, timeUtc: int, price: real)
    requires IsLongOnly(startCash, SortedTrades(trades)) && price > 0.0
    requires forall trade <- trades :: FindInstrumentKey(trade) == key
    ensures EquityAt(startCash, trades, timeUtc, price) > 0.0
  {
    var sorted := SortedTrades(trades);
    SortedTradesInOrder(trades);
    var cursor := CursorOf(sorted, timeUtc);
    var fills := sorted[..cursor];
    PrefixIsLongOnly(startCash, sorted, cursor);
    forall trade <- fills ensures FindInstrumentKey(trade) == key {
      assert trade in sorted;
      SortKeeps(trades, ByTime, trade);
    }
    SharesOfOne(fills, key);
    assert [key][..0] == [];
    assert ValueByInstrument([key], fills, k => price) == MarketValue(SumBy(fills, SharesOf(key)), price);
    EquityOfFills(startCash, fills, [key], k => price);
    CursorTotal(trades, cursor, timeUtc, CashOut);
    CursorTotal(trades, cursor, timeUtc, SignedShares);
  }

  // ---------------------------------------------------------------- the split

  ghost predicate IsPositiveCurve(curve: seq<EquityPoint>) { forall i :: 0 <= i < |curve| ==> curve[i].equityUsd > 0.0 }

  /** The split sorts the curve by time. */
  lemma SortedStaysPositive(curve: seq<EquityPoint>)
    requires IsPositiveCurve(curve)
    ensures IsPositiveCurve(SortBy(curve, PointTime))
  {
    var sorted := SortBy(curve, PointTime);
    forall i | 0 <= i < |sorted| ensures sorted[i].equityUsd > 0.0 {
      SortKeeps(curve, PointTime, sorted[i]);
      assert sorted[i] in curve;
    }
  }

  /** Neither the whole test nor a part of it divides by 0. */
  ghost predicate IsSplitDefined(capital: real, range: TimeRange, curve: seq<EquityPoint>, flags: seq<bool>,
                                 trades: seq<Trade>, splitUtc: int)
    requires |flags| == |curve|
  {
    && !DividesByZero(WholeTest(capital, range, curve, flags, trades))
    && !DividesByZero(InSample(capital, range, curve, flags, trades, splitUtc))
    && !DividesByZero(OutOfSample(capital, range, curve, flags, trades, splitUtc))
  }

  lemma PositiveSplitIsDefined(capital: real, range: TimeRange, curve: seq<EquityPoint>, flags: seq<bool>,
                               trades: seq<Trade>, splitUtc: int)
    requires |flags| == |curve| == |SortBy(curve, PointTime)| && capital > 0.0 && IsPositiveCurve(curve)
    ensures IsSplitDefined(capital, range, SortBy(curve, PointTime), flags, trades, splitUtc)
  {
    SortedStaysPositive(curve);
    SplitDividesByZero(capital, range, SortBy(curve, PointTime), flags, trades, splitUtc);
  }

  /** The split of a long-only test of many instruments with positive closes never divides by 0. */
  lemma UniverseSplitIsDefined(capital: real, range: TimeRange, closes: seq<Close>, ends: seq<int>,
                               curve: seq<EquityPoint>, flags: seq<bool>, trades: seq<Trade>, splitUtc: int)
    requires IsLongOnly(capital, SortedTrades(trades)) && ArePositiveCloses(closes)
    requires AreUniversePoints(curve, capital, trades, closes, ends) && |flags| == |curve|
    ensures |SortBy(curve, PointTime)| == |curve|
    ensures IsSplitDefined(capital, range, SortBy(curve, PointTime), flags, trades, splitUtc)
  {
    forall i | 0 <= i < |curve| ensures curve[i].equityUsd > 0.0 {
      UniverseEquityIsPositive(capital, trades, closes, ends[i]);
    }
    SortSorts(curve, PointTime);
    PositiveSplitIsDefined(capital, range, curve, flags, trades, splitUtc);
  }

  /** The same for a test of one instrument. */
  lemma SingleSplitIsDefined(capital: real, range: TimeRange, bars: seq<Bar>, ends: seq<int>, curve: seq<EquityPoint>,
                             flags: seq<bool>, trades: seq<Trade>, key: InstrumentKey, splitUtc: int)
    requires IsLongOnly(capital, SortedTrades(trades)) && forall trade <- trades :: FindInstrumentKey(trade) == key
    requires |bars| == |ends| && (forall bar <- bars :: bar.close > 0.0)
    requires ArePoints(curve, capital, trades, ends, bars) && |flags| == |curve|
    ensures |SortBy(curve, PointTime)| == |curve|
    ensures IsSplitDefined(capital, range, SortBy(curve, PointTime), flags, trades, splitUtc)
  {
    forall i | 0 <= i < |curve| ensures curve[i].equityUsd > 0.0 {
      assert IsPoint(curve[i], capital, trades, ends, bars, i);
      EquityIsPositive(capital, trades, key, LatestEnd(ends, i), bars[i].close);
    }
    SortSorts(curve, PointTime);
    PositiveSplitIsDefined(capital, range, curve, flags, trades, splitUtc);
  }
}
