/** What the two equity curves have in common, and which price a position has. */
module UniverseCurveLaws {
  import opened Sequences
  import opened Bars
  import opened Trades
  import opened EquityCurve
  import opened UniverseEquityCurve
  import opened Reals

  // ---------------------------------------------------------------- one instrument

  lemma {:induction false} InstrumentCloseAt(key: InstrumentKey, bars: seq<Bar>, period: BarPeriod, index: nat)
    requires index < |bars|
    ensures |InstrumentCloses(key, bars, period)| == |bars|
    ensures InstrumentCloses(key, bars, period)[index] == CloseOf(key, bars[index], period)
  {
    if index < |bars| - 1 {
      InstrumentCloseAt(key, bars[..|bars| - 1], period, index);
    } else if |bars| > 1 {
      InstrumentCloseAt(key, bars[..|bars| - 1], period, 0);
    }
  }

  /** At the end of a bar, the latest close of its instrument is the close of that bar. */
  lemma CloseOfOwnBar(key: InstrumentKey, bars: seq<Bar>, period: BarPeriod, index: nat)
    requires Ascending(BarEnds(bars, period)) && index < |bars|
    ensures LatestClose(InstrumentCloses(key, bars, period), key, BarEnds(bars, period)[index])
         == Some(CloseOf(key, bars[index], period))
  {
    var closes := InstrumentCloses(key, bars, period);
    var ends := BarEnds(bars, period);
    InstrumentCloseAt(key, bars, period, index);
    assert closes[index] in closes;
    LatestCloseIsLatest(closes, key, ends[index]);
    var latest := LatestClose(closes, key, ends[index]).value;
    var j :| 0 <= j < |closes| && closes[j] == latest;
    InstrumentCloseAt(key, bars, period, j);
    assert latest.endUtc == ends[j];
    assert j == index;
  }

  lemma {:induction false} SumScales(trades: seq<Trade>, amount: Trade -> real, scaled: Trade -> real, price: real)
    requires forall i :: 0 <= i < |trades| ==> scaled(trades[i]) == MarketValue(amount(trades[i]), price)
    ensures SumBy(trades, scaled) == MarketValue(SumBy(trades, amount), price)
  {
    if trades == [] {
      MarketValueAdds(0.0, 0.0, price);
    } else {
      var init, last := trades[..|trades| - 1], trades[|trades| - 1];
      SumScales(init, amount, scaled, price);
      MarketValueAdds(SumBy(init, amount), amount(last), price);
    }
  }

  lemma EndsAreBarEnds(key: InstrumentKey, bars: seq<Bar>, period: BarPeriod)
    requires Ascending(BarEnds(bars, period))
    ensures SortedSet(EndsOf(InstrumentCloses(key, bars, period))) == BarEnds(bars, period)
  {
    var ends, closes := BarEnds(bars, period), InstrumentCloses(key, bars, period);
    forall i | 0 <= i < |bars| ensures ends[i] in EndsOf(closes) {
      InstrumentCloseAt(key, bars, period, i);
      assert closes[i] in closes;
    }
    forall x | x in EndsOf(closes) ensures x in ends {
      var c :| c in closes && c.endUtc == x;
      var i :| 0 <= i < |closes| && closes[i] == c;
      if bars != [] {
        InstrumentCloseAt(key, bars, period, 0);
        InstrumentCloseAt(key, bars, period, i);
        assert ends[i] == x;
      }
    }
    StrictlySortedIsUnique(ends, SortedSet(EndsOf(closes)), (x: int) => x);
  }

  lemma OnlyInstrument(key: InstrumentKey, bars: seq<Bar>, period: BarPeriod)
    ensures AllCloses([InstrumentBars(key, bars)], period) == InstrumentCloses(key, bars, period)
  {
    var instruments := [InstrumentBars(key, bars)];
    assert instruments[..0] == [];
    assert AllCloses(instruments, period) == [] + InstrumentCloses(key, bars, period);
  }

  lemma OwnCloseIsPrice(trades: seq<Trade>, key: InstrumentKey, bars: seq<Bar>, period: BarPeriod, index: nat)
    requires Ascending(BarEnds(bars, period)) && index < |bars|
    ensures MarkPrice(trades, InstrumentCloses(key, bars, period), key, BarEnds(bars, period)[index])
         == Some(bars[index].close)
  {
    var end := BarEnds(bars, period)[index];
    CloseOfOwnBar(key, bars, period, index);
    var processed := Filter(SortedTrades(trades), UpToTime(end));
    LatestTradeIsMember(processed, key);
    if LatestTrade(processed, key).Some? {
      FilterKeeps(SortedTrades(trades), UpToTime(end), LatestTrade(processed, key).value);
    }
  }

  /** With one instrument and ascending bar ends, the universe curve is the single-instrument curve. */
  lemma OneInstrumentCurve(startCash: real, key: InstrumentKey, bars: seq<Bar>, period: BarPeriod,
                           trades: seq<Trade>, index: nat)
    requires Ascending(BarEnds(bars, period)) && index < |bars|
    requires forall t <- trades :: FindInstrumentKey(t) == key
    ensures var ends := BarEnds(bars, period);
      var closes := AllCloses([InstrumentBars(key, bars)], period);
      && SortedSet(EndsOf(closes)) == ends
      && UniverseEquityAt(startCash, trades, closes, ends[index])
           == EquityAt(startCash, trades, LatestEnd(ends, index), bars[index].close)
  {
    var ends := BarEnds(bars, period);
    var closes := InstrumentCloses(key, bars, period);
    OnlyInstrument(key, bars, period);
    EndsAreBarEnds(key, bars, period);
    LatestEndOfAscending(ends, index);
    var end, price := ends[index], bars[index].close;
    OwnCloseIsPrice(trades, key, bars, period, index);
    MarketValueAdds(0.0, 0.0, price);
    var marked := MarkedValue(trades, closes, end);
    forall i | 0 <= i < |trades|
      ensures UpTo(end, marked)(trades[i]) == MarketValue(UpTo(end, SignedShares)(trades[i]), price)
    {
      assert FindInstrumentKey(trades[i]) == key;
    }
    SumScales(trades, UpTo(end, SignedShares), UpTo(end, marked), price);
  }

  // ---------------------------------------------------------------- the documented price

  /** The documented price: the last close at or before the time, or the last fill before the first close. */
  function DocumentedPrice(trades: seq<Trade>, closes: seq<Close>, key: InstrumentKey, timeUtc: int): Option<real> {
    match LatestClose(closes, key, timeUtc)
    case Some(close) => Some(close.price)
    case None =>
      match LatestTrade(Filter(SortedTrades(trades), UpToTime(timeUtc)), key)
      case Some(trade) => Some(trade.priceUsd)
      case None => None
  }

  /** A fill of the instrument came after its last close, at a price other than this close. */
  predicate IsMarkedAgain(trades: seq<Trade>, closes: seq<Close>, key: InstrumentKey, timeUtc: int) {
    match (LatestTrade(Filter(SortedTrades(trades), UpToTime(timeUtc)), key), LatestClose(closes, key, timeUtc))
    case (Some(trade), Some(close)) => trade.timeUtc > close.endUtc && trade.priceUsd != close.price
    case _ => false
  }

  /** The curve uses the documented price exactly when no fill after the last close sets another price. */
  lemma DocumentedPriceHolds(trades: seq<Trade>, closes: seq<Close>, key: InstrumentKey, timeUtc: int)
    ensures MarkPrice(trades, closes, key, timeUtc) == DocumentedPrice(trades, closes, key, timeUtc)
       <==> !IsMarkedAgain(trades, closes, key, timeUtc)
  {
    assert MarkPrice(trades, closes, key, timeUtc)
        == LatestPrice(LatestTrade(Filter(SortedTrades(trades), UpToTime(timeUtc)), key),
                       LatestClose(closes, key, timeUtc));
  }

  // ---------------------------------------------------------------- the documented equity

  function DocumentedValue(trades: seq<Trade>, closes: seq<Close>, timeUtc: int): Trade -> real {
    (trade: Trade) =>
      MarketValue(SignedShares(trade), DocumentedPrice(trades, closes, FindInstrumentKey(trade), timeUtc).GetOr(0.0))
  }

  /** The equity at a bar end with each position at the documented price. */
  function DocumentedEquityAt(startCash: real, trades: seq<Trade>, closes: seq<Close>, timeUtc: int): real {
    startCash - TotalUpTo(trades, timeUtc, CashOut) + TotalUpTo(trades, timeUtc,
                                                                DocumentedValue(trades, closes, timeUtc))
  }

  /** A point of the curve is the documented equity. */
  predicate IsDocumented(startCash: real, trades: seq<Trade>, closes: seq<Close>, timeUtc: int) {
    UniverseEquityAt(startCash, trades, closes, timeUtc) == DocumentedEquityAt(startCash, trades, closes, timeUtc)
  }

  /** What the price of the curve is above the documented one. */
  function PriceExcess(trades: seq<Trade>, closes: seq<Close>, timeUtc: int): InstrumentKey -> real {
    (key: InstrumentKey) =>
      MarkPrice(trades, closes, key, timeUtc).GetOr(0.0) - DocumentedPrice(trades, closes, key, timeUtc).GetOr(0.0)
  }

  lemma ExcessOfMarkedAgain(trades: seq<Trade>, closes: seq<Close>, key: InstrumentKey, timeUtc: int)
    ensures PriceExcess(trades, closes, timeUtc)(key) != 0.0 <==> IsMarkedAgain(trades, closes, key, timeUtc)
  {
    DocumentedPriceHolds(trades, closes, key, timeUtc);
  }

  lemma {:induction false} SumDifference(trades: seq<Trade>, f: Trade -> real, g: Trade -> real, d: Trade -> real)
    requires forall i :: 0 <= i < |trades| ==> f(trades[i]) - g(trades[i]) == d(trades[i])
    ensures SumBy(trades, f) - SumBy(trades, g) == SumBy(trades, d)
  {
    if trades != [] {
      SumDifference(trades[..|trades| - 1], f, g, d);
    }
  }

  lemma TotalIsFilteredSum(trades: seq<Trade>, timeUtc: int, amount: Trade -> real)
    ensures TotalUpTo(trades, timeUtc, amount) == SumBy(Filter(trades, UpToTime(timeUtc)), amount)
  {
    SumFilter(trades, UpToTime(timeUtc), amount, UpTo(timeUtc, amount));
  }

  lemma ValueDifference(trade: Trade, trades: seq<Trade>, closes: seq<Close>, timeUtc: int)
    ensures MarkedValue(trades, closes, timeUtc)(trade) - DocumentedValue(trades, closes, timeUtc)(trade)
         == ValueOfTrade(PriceExcess(trades, closes, timeUtc))(trade)
  {
    var key := FindInstrumentKey(trade);
    var mark := MarkPrice(trades, closes, key, timeUtc).GetOr(0.0);
    var documented := DocumentedPrice(trades, closes, key, timeUtc).GetOr(0.0);
    PricesDiffer(SignedShares(trade), mark, documented);
  }

  lemma PricesDiffer(shares: real, a: real, b: real)
    ensures MarketValue(shares, a) - MarketValue(shares, b) == MarketValue(shares, a - b)
  {
  }

  /** `keys`: the instruments of the fills up to a time, each once. */
  ghost predicate AreTradedKeys(keys: seq<InstrumentKey>, trades: seq<Trade>, timeUtc: int) {
    Distinct(keys) && forall trade <- Filter(trades, UpToTime(timeUtc)) :: FindInstrumentKey(trade) in keys
  }

  /** The curve is above the documented equity by the position of each instrument times the excess of its price. */
  lemma EquityDifference(startCash: real, trades: seq<Trade>, closes: seq<Close>, timeUtc: int,
                         keys: seq<InstrumentKey>)
    requires AreTradedKeys(keys, trades, timeUtc)
    ensures UniverseEquityAt(startCash, trades, closes, timeUtc)
            - DocumentedEquityAt(startCash, trades, closes, timeUtc)
         == ValueByInstrument(keys, Filter(trades, UpToTime(timeUtc)), PriceExcess(trades, closes, timeUtc))
  {
    var processed := Filter(trades, UpToTime(timeUtc));
    var marked, documented := MarkedValue(trades, closes, timeUtc), DocumentedValue(trades, closes, timeUtc);
    var excess := PriceExcess(trades, closes, timeUtc);
    TotalIsFilteredSum(trades, timeUtc, marked);
    TotalIsFilteredSum(trades, timeUtc, documented);
    forall i | 0 <= i < |processed|
      ensures marked(processed[i]) - documented(processed[i]) == ValueOfTrade(excess)(processed[i])
    {
      ValueDifference(processed[i], trades, closes, timeUtc);
    }
    SumDifference(processed, marked, documented, ValueOfTrade(excess));
    ValueIsSumOverTrades(keys, processed, excess);
  }

  /** The value of the positions up to a time at prices that are 0 for each instrument without this position. */
  lemma {:induction false} OnlyPosition(keys: seq<InstrumentKey>, trades: seq<Trade>,
                                        price: InstrumentKey -> real, key: InstrumentKey)
    requires Distinct(keys)
    requires forall other <- keys :: other == key || price(other) == 0.0 || SumBy(trades, SharesOf(other)) == 0.0
    ensures ValueByInstrument(keys, trades, price)
         == if key in keys then MarketValue(SumBy(trades, SharesOf(key)), price(key)) else 0.0
  {
    if keys != [] {
      var init, last := keys[..|keys| - 1], keys[|keys| - 1];
      assert keys == init + [last];
      OnlyPosition(init, trades, price, key);
      if last != key {
        ZeroValue(SumBy(trades, SharesOf(last)), price(last));
      }
    }
  }

  lemma ZeroValue(shares: real, price: real)
    ensures MarketValue(shares, price) == 0.0 <==> shares == 0.0 || price == 0.0
  {
    ProductNonZero(shares, price);
  }

  /** An instrument with a position whose price a fill set again after its last close. */
  predicate IsHeldAtFill(trades: seq<Trade>, closes: seq<Close>, key: InstrumentKey, timeUtc: int) {
    IsMarkedAgain(trades, closes, key, timeUtc) && SumBy(Filter(trades, UpToTime(timeUtc)), SharesOf(key)) != 0.0
  }

  /**
   * A point of the curve is the documented equity exactly when the excess of the prices adds to 0 over the positions.
   * So it is when no position has the price of a later fill, and it is not when exactly one position has it.
   */
  lemma DocumentedEquityHolds(startCash: real, trades: seq<Trade>, closes: seq<Close>, timeUtc: int,
                              keys: seq<InstrumentKey>)
    requires AreTradedKeys(keys, trades, timeUtc)
    ensures IsDocumented(startCash, trades, closes, timeUtc)
       <==> ValueByInstrument(keys, Filter(trades, UpToTime(timeUtc)), PriceExcess(trades, closes, timeUtc)) == 0.0
    ensures forall key <- keys ::
              (forall other <- keys :: other != key ==> !IsHeldAtFill(trades, closes, other, timeUtc)) ==>
                (IsDocumented(startCash, trades, closes, timeUtc)
                 <==> !IsHeldAtFill(trades, closes, key, timeUtc))
  {
    EquityDifference(startCash, trades, closes, timeUtc, keys);
    var processed, excess := Filter(trades, UpToTime(timeUtc)), PriceExcess(trades, closes, timeUtc);
    forall key <- keys | forall other <- keys :: other != key ==> !IsHeldAtFill(trades, closes, other, timeUtc)
      ensures ValueByInstrument(keys, processed, excess) == 0.0 <==> !IsHeldAtFill(trades, closes, key, timeUtc)
    {
      forall other <- keys ensures other == key || excess(other) == 0.0 || SumBy(processed, SharesOf(other)) == 0.0 {
        ExcessOfMarkedAgain(trades, closes, other, timeUtc);
      }
      OnlyPosition(keys, processed, excess, key);
      ExcessOfMarkedAgain(trades, closes, key, timeUtc);
      ZeroValue(SumBy(processed, SharesOf(key)), excess(key));
    }
  }

  // ---------------------------------------------------------------- bars whose curve is not the documented one

  const KEY := InstrumentKey(Some("A"), Some("NYSE"))
  const OTHER := InstrumentKey(Some("B"), Some("NYSE"))
  const MINUTE := 60 * SECOND

  function BarAt(startUtc: int, close: real): Bar { Bar(startUtc, close, close, close, close, 1.0) }

  /** 1-minute bars: one of `KEY` that closes at 10, and the next one of another instrument. */
  const INSTRUMENTS := [InstrumentBars(KEY, [BarAt(0, 10.0)]), InstrumentBars(OTHER, [BarAt(MINUTE, 5.0)])]

  lemma ClosesOfBars()
    ensures AllCloses(INSTRUMENTS, OneMinute) == [Close(KEY, MINUTE, 10.0), Close(OTHER, 2 * MINUTE, 5.0)]
  {
    var first, second := INSTRUMENTS[0], INSTRUMENTS[1];
    assert INSTRUMENTS[..1] == [first] && [first][..0] == [] && first.bars[..0] == [] && second.bars[..0] == [];
    assert InstrumentCloses(first.key, first.bars, OneMinute) == [Close(KEY, MINUTE, 10.0)];
    assert InstrumentCloses(second.key, second.bars, OneMinute) == [Close(OTHER, 2 * MINUTE, 5.0)];
    assert AllCloses([first], OneMinute) == [Close(KEY, MINUTE, 10.0)];
  }

  /** A fill of `KEY` at 12 in the second minute: at the end of it the curve uses 12, and the documented price is 10. */
  lemma DocumentedPriceCanFail(trade: Trade)
    requires trade.timeUtc == 90 * SECOND && FindInstrumentKey(trade) == KEY && trade.priceUsd == 12.0
    requires trade.side == Buy && trade.quantityShares == 1.0 && trade.commissionUsd == 0.0
    ensures var closes := AllCloses(INSTRUMENTS, OneMinute);
      var end := 2 * MINUTE;
      && end in EndsOf(closes)
      && MarkPrice([trade], closes, KEY, end) == Some(12.0) && DocumentedPrice([trade], closes, KEY, end) == Some(10.0)
      && UniverseEquityAt(100.0, [trade], closes, end) == 100.0
      && DocumentedEquityAt(100.0, [trade], closes, end) == 98.0
  {
    var closes, end := AllCloses(INSTRUMENTS, OneMinute), 2 * MINUTE;
    ClosesOfBars();
    assert closes[1] in closes;
    SortOfSorted([trade], ByTime);
    FilterOne(trade, UpToTime(end));
    assert LatestTrade([trade], KEY) == Some(trade);
    LastCloseOfKey(end);
    SumOne(trade, UpTo(end, CashOut));
    SumOne(trade, UpTo(end, MarkedValue([trade], closes, end)));
    SumOne(trade, UpTo(end, DocumentedValue([trade], closes, end)));
    assert CashOut(trade) == 12.0 && MarketValue(1.0, 12.0) == 12.0 && MarketValue(1.0, 10.0) == 10.0;
  }

  lemma LastCloseOfKey(timeUtc: int)
    requires timeUtc >= MINUTE
    ensures LatestClose(AllCloses(INSTRUMENTS, OneMinute), KEY, timeUtc) == Some(Close(KEY, MINUTE, 10.0))
  {
    ClosesOfBars();
    var close, other := Close(KEY, MINUTE, 10.0), Close(OTHER, 2 * MINUTE, 5.0);
    assert [close, other][..1] == [close] && [close][..0] == [];
    assert LatestClose([close], KEY, timeUtc) == Some(close);
  }
}
