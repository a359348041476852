/** The round trips of all instruments of a test, and the profit at each fill. */
module RoundTripLists {
  import opened Sequences
  import opened Trades
  import opened UniverseEquityCurve
  import opened RoundTrips

  function HasKey(key: InstrumentKey): Trade -> bool { (trade: Trade) => FindInstrumentKey(trade) == key }

  function TradesOf(trades: seq<Trade>, key: InstrumentKey): seq<Trade> { Filter(trades, HasKey(key)) }

  /** The keys of the dictionary of the fills by instrument, in insertion order. */
  function InstrumentKeys(trades: seq<Trade>): (keys: seq<InstrumentKey>)
    ensures Distinct(keys)
    ensures forall t <- trades :: FindInstrumentKey(t) in keys
    ensures forall k <- keys :: exists t <- trades :: FindInstrumentKey(t) == k
  {
    if trades == [] then []
    else
      var before := InstrumentKeys(trades[..|trades| - 1]);
      var key := FindInstrumentKey(trades[|trades| - 1]);
      assert trades == trades[..|trades| - 1] + [trades[|trades| - 1]];
      if key in before then before else before + [key]
  }

  ghost predicate AreGroups(keys: seq<InstrumentKey>, groups: map<InstrumentKey, seq<Trade>>, trades: seq<Trade>) {
    && keys == InstrumentKeys(trades)
    && (forall k :: k in keys <==> k in groups)
    && (forall k <- keys :: groups[k] == TradesOf(trades, k))
  }

  lemma TradesOfOneMore(trades: seq<Trade>, trade: Trade, key: InstrumentKey)
    ensures TradesOf(trades + [trade], key) == TradesOf(trades, key) + if FindInstrumentKey(trade) == key then [trade]
                                                                       else []
  {
    FilterAppend(trades, [trade], HasKey(key));
    FilterOne(trade, HasKey(key));
  }

  lemma NoTradesOfOther(trades: seq<Trade>, key: InstrumentKey)
    requires key !in InstrumentKeys(trades)
    ensures TradesOf(trades, key) == []
  {
    FilterNone(trades, HasKey(key));
  }

  lemma KeysOfOneMore(trades: seq<Trade>, trade: Trade)
    ensures var keys, key := InstrumentKeys(trades), FindInstrumentKey(trade);
      InstrumentKeys(trades + [trade]) == if key in keys then keys else keys + [key]
  {
    assert (trades + [trade])[..|trades|] == trades;
  }

  lemma GroupOfOneMore(keys: seq<InstrumentKey>, groups: map<InstrumentKey, seq<Trade>>,
                       trades: seq<Trade>, trade: Trade,
                       key: InstrumentKey)
    requires AreGroups(keys, groups, trades) && (key in keys || key == FindInstrumentKey(trade))
    ensures Lookup(groups, key).GetOr([]) + (if FindInstrumentKey(trade) == key then [trade] else [])
         == TradesOf(trades + [trade], key)
  {
    TradesOfOneMore(trades, trade, key);
    if key !in groups {
      NoTradesOfOther(trades, key);
    }
  }

  lemma AddToGroup(keys: seq<InstrumentKey>, groups: map<InstrumentKey, seq<Trade>>, trades: seq<Trade>, trade: Trade)
    requires AreGroups(keys, groups, trades)
    ensures var key := FindInstrumentKey(trade);
      AreGroups(if key in groups then keys else keys + [key],
                groups[key := Lookup(groups, key).GetOr([]) + [trade]],
                trades + [trade])
  {
    KeysOfOneMore(trades, trade);
    var key := FindInstrumentKey(trade);
    var after := groups[key := Lookup(groups, key).GetOr([]) + [trade]];
    forall k <- after ensures after[k] == TradesOf(trades + [trade], k) {
      GroupOfOneMore(keys, groups, trades, trade, k);
    }
  }

  method GroupByInstrument(trades: seq<Trade>)
    returns (keys: seq<InstrumentKey>, groups: map<InstrumentKey, seq<Trade>>)
    ensures AreGroups(keys, groups, trades)
  {
    keys, groups := [], map[];
    for i := 0 to |trades|
      invariant AreGroups(keys, groups, trades[..i])
    {
      var key := FindInstrumentKey(trades[i]);
      AddToGroup(keys, groups, trades[..i], trades[i]);
      TakeNext(trades, i);
      keys := if key in groups then keys else keys + [key];
      groups := groups[key := Lookup(groups, key).GetOr([]) + [trades[i]]];
    }
    assert trades[..|trades|] == trades;
  }

  const EndTime: RoundTrip -> int := (trip: RoundTrip) => trip.endUtc

  function InstrumentTrips(trades: seq<Trade>): seq<RoundTrip> {
    var sorted := SortedTrades(trades);
    EndedTrips(sorted, |sorted|)
  }

  function TripsByKey(keys: seq<InstrumentKey>, trades: seq<Trade>): seq<RoundTrip> {
    if keys == [] then []
    else TripsByKey(keys[..|keys| - 1], trades) + InstrumentTrips(TradesOf(trades, keys[|keys| - 1]))
  }

  /** The ended round trips of each instrument, by end time. */
  function FoundRoundTrips(trades: seq<Trade>): seq<RoundTrip> {
    SortBy(TripsByKey(InstrumentKeys(trades), trades), EndTime)
  }

  /** The ended round trips of a walk. */
  function TripsIn(walked: seq<(Trade, Option<RoundTrip>)>, count: nat): seq<RoundTrip>
    requires count <= |walked|
  {
    if count == 0 then []
    else if walked[count - 1].1.Some? then TripsIn(walked, count - 1) + [walked[count - 1].1.value]
    else TripsIn(walked, count - 1)
  }

  lemma {:induction false} TripsInAreEnded(walked: seq<(Trade, Option<RoundTrip>)>, sorted: seq<Trade>, count: nat)
    requires count <= |sorted| && walked == Walked(sorted, |sorted|)
    ensures TripsIn(walked, count) == EndedTrips(sorted, count)
  {
    if count > 0 {
      TripsInAreEnded(walked, sorted, count - 1);
      WalkedAt(sorted, |sorted|, count - 1);
      NextEndedTrip(sorted, count - 1, walked[count - 1].1);
    }
  }

  method CollectTrips(walked: seq<(Trade, Option<RoundTrip>)>) returns (trips: seq<RoundTrip>)
    ensures trips == TripsIn(walked, |walked|)
  {
    trips := [];
    for i := 0 to |walked|
      invariant trips == TripsIn(walked, i)
    {
      if walked[i].1.Some? {
        trips := trips + [walked[i].1.value];
      }
    }
  }

  method FindInstrumentRoundTrips(trades: seq<Trade>) returns (trips: seq<RoundTrip>)
    ensures trips == InstrumentTrips(trades)
  {
    var walked := WalkInstrumentRoundTrips(trades);
    TripsInAreEnded(walked, SortedTrades(trades), |walked|);
    trips := CollectTrips(walked);
  }

  method FindRoundTrips(trades: seq<Trade>) returns (trips: seq<RoundTrip>)
    ensures trips == FoundRoundTrips(trades)
  {
    var keys, groups := GroupByInstrument(trades);
    var unsorted := [];
    for i := 0 to |keys|
      invariant unsorted == TripsByKey(keys[..i], trades)
    {
      var instrumentTrips := FindInstrumentRoundTrips(groups[keys[i]]);
      unsorted := unsorted + instrumentTrips;
      assert keys[..i + 1][..i] == keys[..i];
    }
    assert keys[..|keys|] == keys;
    trips := SortBy(unsorted, EndTime);
  }

  // ---------------------------------------------------------------- conservation over all instruments

  /** The sum over instruments of the sum over their fills. */
  function SumByKey(keys: seq<InstrumentKey>, trades: seq<Trade>, amount: Trade -> real): real {
    if keys == [] then 0.0
    else SumByKey(keys[..|keys| - 1], trades, amount) + SumBy(TradesOf(trades, keys[|keys| - 1]), amount)
  }

  lemma {:induction false} SumByKeyAdds(keys: seq<InstrumentKey>, trades: seq<Trade>, trade: Trade,
                                        amount: Trade -> real)
    requires Distinct(keys)
    ensures SumByKey(keys, trades + [trade], amount)
         == SumByKey(keys, trades, amount) + if FindInstrumentKey(trade) in keys then amount(trade) else 0.0
  {
    if keys != [] {
      var init, last := keys[..|keys| - 1], keys[|keys| - 1];
      assert keys == init + [last];
      SumByKeyAdds(init, trades, trade, amount);
      FilterAppend(trades, [trade], HasKey(last));
      FilterOne(trade, HasKey(last));
      SumAppend(TradesOf(trades, last), [trade], amount);
      SumOne(trade, amount);
      assert TradesOf(trades, last) + [] == TradesOf(trades, last);
    }
  }

  lemma {:induction false} SumByKeyOfNothing(keys: seq<InstrumentKey>, amount: Trade -> real)
    ensures SumByKey(keys, [], amount) == 0.0
  {
    if keys != [] {
      SumByKeyOfNothing(keys[..|keys| - 1], amount);
    }
  }

  /** Grouping by instrument loses and doubles nothing. */
  lemma {:induction false} SumByKeyIsSum(keys: seq<InstrumentKey>, trades: seq<Trade>, amount: Trade -> real)
    requires Distinct(keys) && forall t <- trades :: FindInstrumentKey(t) in keys
    ensures SumByKey(keys, trades, amount) == SumBy(trades, amount)
  {
    if trades == [] {
      SumByKeyOfNothing(keys, amount);
    } else {
      var init, last := trades[..|trades| - 1], trades[|trades| - 1];
      assert trades == init + [last];
      SumByKeyIsSum(keys, init, amount);
      SumByKeyAdds(keys, init, last, amount);
    }
  }

  /** The fills of an instrument since its position was last 0, by time. */
  function OpenTail(trades: seq<Trade>, key: InstrumentKey): seq<Trade> {
    var sorted := SortedTrades(TradesOf(trades, key));
    sorted[BlockStart(sorted, |sorted|)..]
  }

  function OpenTailCash(keys: seq<InstrumentKey>, trades: seq<Trade>): real {
    if keys == [] then 0.0
    else OpenTailCash(keys[..|keys| - 1], trades) + SumBy(OpenTail(trades, keys[|keys| - 1]), CashOut)
  }

  lemma {:induction false} TripsByKeyConserve(keys: seq<InstrumentKey>, trades: seq<Trade>)
    ensures SumBy(TripsByKey(keys, trades), Profit) == OpenTailCash(keys, trades) - SumByKey(keys, trades, CashOut)
  {
    if keys != [] {
      var init, last := keys[..|keys| - 1], keys[|keys| - 1];
      TripsByKeyConserve(init, trades);
      SumAppend(TripsByKey(init, trades), InstrumentTrips(TradesOf(trades, last)), Profit);
      ProfitsAndTailConserveCash(TradesOf(trades, last));
    }
  }

  /** The profits of all round trips plus the cash of all open tails are the cash flow of all fills. */
  lemma RoundTripsConserveCash(trades: seq<Trade>)
    ensures SumBy(FoundRoundTrips(trades), Profit) - OpenTailCash(InstrumentKeys(trades), trades)
         == -SumBy(trades, CashOut)
  {
    var keys := InstrumentKeys(trades);
    TripsByKeyConserve(keys, trades);
    SumByKeyIsSum(keys, trades, CashOut);
    SortSum(TripsByKey(keys, trades), EndTime, Profit);
  }

  ghost predicate EndsFlat(trades: seq<Trade>) {
    forall key :: SumBy(trades, SharesOf(key)) == 0.0
  }

  lemma {:induction false} FlatHasNoTail(keys: seq<InstrumentKey>, trades: seq<Trade>)
    requires EndsFlat(trades)
    ensures OpenTailCash(keys, trades) == 0.0
  {
    if keys != [] {
      var key := keys[|keys| - 1];
      FlatHasNoTail(keys[..|keys| - 1], trades);
      var own := TradesOf(trades, key);
      var sorted := SortedTrades(own);
      SumFilter(trades, HasKey(key), SignedShares, SharesOf(key));
      SortSum(own, ByTime, SignedShares);
      assert sorted[..|sorted|] == sorted;
      assert IsFlat(sorted, |sorted|);
      assert OpenTail(trades, key) == [];
    }
  }

  lemma {:induction false} FlatHasNoValue(keys: seq<InstrumentKey>, trades: seq<Trade>, price: InstrumentKey -> real)
    requires EndsFlat(trades)
    ensures ValueByInstrument(keys, trades, price) == 0.0
  {
    if keys != [] {
      FlatHasNoValue(keys[..|keys| - 1], trades, price);
      MarketValueAdds(0.0, 0.0, price(keys[|keys| - 1]));
    }
  }

  function MarkPriceAt(trades: seq<Trade>, closes: seq<Close>, timeUtc: int): InstrumentKey -> real {
    (key: InstrumentKey) => MarkPrice(trades, closes, key, timeUtc).GetOr(0.0)
  }

  /** A test that ends flat: the profits of its round trips are its last equity minus its start cash. */
  lemma FlatTestProfit(startCash: real, trades: seq<Trade>, closes: seq<Close>, lastEndUtc: int)
    requires EndsFlat(trades)
    requires forall t <- trades :: t.timeUtc <= lastEndUtc
    ensures SumBy(FoundRoundTrips(trades), Profit)
         == UniverseEquityAt(startCash, trades, closes, lastEndUtc) - startCash
  {
    var keys := InstrumentKeys(trades);
    var marked := MarkedValue(trades, closes, lastEndUtc);
    var price := MarkPriceAt(trades, closes, lastEndUtc);
    RoundTripsConserveCash(trades);
    FlatHasNoTail(keys, trades);
    SumCongruence(trades, UpTo(lastEndUtc, CashOut), CashOut);
    SumCongruence(trades, UpTo(lastEndUtc, marked), ValueOfTrade(price));
    ValueIsSumOverTrades(keys, trades, price);
    FlatHasNoValue(keys, trades, price);
  }

  // ---------------------------------------------------------------- the profit at each fill

  ghost predicate DistinctIds(trades: seq<Trade>) {
    forall i, j :: 0 <= i < j < |trades| ==> trades[i].id != trades[j].id
  }

  /** `profit` is the profit of the round trip that `trade` ends in the fills of its instrument, or nothing. */
  ghost predicate IsProfitAt(trades: seq<Trade>, trade: Trade, profit: Option<real>) {
    var sorted := SortedTrades(TradesOf(trades, FindInstrumentKey(trade)));
    exists j :: 0 <= j < |sorted| && sorted[j] == trade && profit == ProfitOption(EndedRoundTrip(sorted, j))
  }

  function ProfitOption(trip: Option<RoundTrip>): Option<real> {
    match trip
    case Some(t) => Some(t.profitUsd)
    case None => None
  }

  ghost function Ids(trades: seq<Trade>): set<nat> { set t <- trades :: t.id }

  /** The dictionary from fills to profits holds the right profit, or nothing, for each fill of `done`. */
  ghost predicate AreProfits(profits: map<nat, real>, isRight: (Trade, Option<real>) -> bool, done: seq<Trade>) {
    && (forall i :: 0 <= i < |done| ==> isRight(done[i], Lookup(profits, done[i].id)))
    && profits.Keys <= Ids(done)
  }

  function SetProfit(profits: map<nat, real>, trade: Trade, profit: Option<real>): map<nat, real> {
    match profit
    case Some(p) => profits[trade.id := p]
    case None => profits
  }

  lemma AddProfit(profits: map<nat, real>, isRight: (Trade, Option<real>) -> bool, done: seq<Trade>,
                  trade: Trade, profit: Option<real>)
    requires AreProfits(profits, isRight, done)
    requires trade.id !in Ids(done)
    requires isRight(trade, profit)
    ensures AreProfits(SetProfit(profits, trade, profit), isRight, done + [trade])
  {
    var after, all := SetProfit(profits, trade, profit), done + [trade];
    assert Ids(all) == Ids(done) + {trade.id};
    forall i | 0 <= i < |all| ensures isRight(all[i], Lookup(after, all[i].id)) {
      if i < |done| {
        assert all[i] == done[i] && done[i].id in Ids(done);
        assert Lookup(after, all[i].id) == Lookup(profits, done[i].id);
      }
    }
  }

  ghost function RightProfit(trades: seq<Trade>): (Trade, Option<real>) -> bool {
    (trade: Trade, profit: Option<real>) => IsProfitAt(trades, trade, profit)
  }

  lemma InGroup(trades: seq<Trade>, key: InstrumentKey, index: nat)
    requires index < |SortedTrades(TradesOf(trades, key))|
    ensures var sorted := SortedTrades(TradesOf(trades, key));
      && FindInstrumentKey(sorted[index]) == key
      && RightProfit(trades)(sorted[index], ProfitOption(EndedRoundTrip(sorted, index)))
  {
    var sorted := SortedTrades(TradesOf(trades, key));
    SortKeeps(TradesOf(trades, key), ByTime, sorted[index]);
    FilterKeeps(trades, HasKey(key), sorted[index]);
    assert HasKey(key)(sorted[index]);
  }

  lemma NewId(done: seq<Trade>, sorted: seq<Trade>, index: nat)
    requires DistinctIds(done + sorted) && index < |sorted|
    ensures sorted[index].id !in Ids(done + sorted[..index])
  {
    var all := done + sorted;
    assert done + sorted[..index] == all[..|done| + index];
    assert all[|done| + index] == sorted[index];
  }

  /** The walk over the fills of one instrument adds the profits of exactly these fills. */
  method AddInstrumentProfits(ghost trades: seq<Trade>, ghost key: InstrumentKey, group: seq<Trade>,
                              profits0: map<nat, real>,
                              ghost done: seq<Trade>)
    returns (profits: map<nat, real>)
    requires group == TradesOf(trades, key)
    requires DistinctIds(done + SortedTrades(group))
    requires AreProfits(profits0, RightProfit(trades), done)
    ensures AreProfits(profits, RightProfit(trades), done + SortedTrades(group))
  {
    profits := profits0;
    var walked := WalkSorted(SortedTrades(group));
    ghost var sorted := SortedTrades(group);
    ghost var isRight := RightProfit(trades);
    assert done + sorted[..0] == done;
    for i := 0 to |walked|
      invariant AreProfits(profits, isRight, done + sorted[..i])
    {
      var (trade, trip) := walked[i];
      WalkedAt(sorted, |sorted|, i);
      InGroup(trades, key, i);
      NewId(done, sorted, i);
      AddProfit(profits, isRight, done + sorted[..i], trade, ProfitOption(trip));
      assert done + sorted[..i + 1] == (done + sorted[..i]) + [trade];
      profits := SetProfit(profits, trade, ProfitOption(trip));
    }
    assert sorted[..|sorted|] == sorted;
  }

  /** The sorted fills of the first instruments, one after the other. */
  ghost function SortedGroups(keys: seq<InstrumentKey>, trades: seq<Trade>): seq<Trade> {
    if keys == [] then []
    else SortedGroups(keys[..|keys| - 1], trades) + SortedTrades(TradesOf(trades, keys[|keys| - 1]))
  }

  lemma {:induction false} SortedGroupsMembers(keys: seq<InstrumentKey>, trades: seq<Trade>, trade: Trade)
    ensures trade in SortedGroups(keys, trades) <==> trade in trades && FindInstrumentKey(trade) in keys
  {
    if keys != [] {
      var init, last := keys[..|keys| - 1], keys[|keys| - 1];
      assert keys == init + [last];
      SortedGroupsMembers(init, trades, trade);
      SortKeeps(TradesOf(trades, last), ByTime, trade);
      FilterKeeps(trades, HasKey(last), trade);
      assert trade in SortedTrades(TradesOf(trades, last)) <==> trade in trades && FindInstrumentKey(trade) == last;
    }
  }

  lemma {:induction false} FilterKeepsIds(trades: seq<Trade>, p: Trade -> bool)
    requires DistinctIds(trades)
    ensures DistinctIds(Filter(trades, p))
    ensures Ids(Filter(trades, p)) <= Ids(trades)
  {
    if trades != [] {
      FilterKeepsIds(trades[..|trades| - 1], p);
      assert trades == trades[..|trades| - 1] + [trades[|trades| - 1]];
      assert trades[|trades| - 1].id !in Ids(trades[..|trades| - 1]);
      forall t | t in Filter(trades[..|trades| - 1], p) ensures t.id in Ids(trades[..|trades| - 1]) {
      }
      AppendDistinct(Filter(trades[..|trades| - 1], p), if p(trades[|trades| - 1]) then [trades[|trades| - 1]] else []);
    }
  }

  lemma AppendDistinct(a: seq<Trade>, b: seq<Trade>)
    requires DistinctIds(a) && DistinctIds(b) && Ids(a) !! Ids(b)
    ensures DistinctIds(a + b)
    ensures Ids(a + b) == Ids(a) + Ids(b)
  {
    forall i, j | 0 <= i < |a| && 0 <= j < |b| ensures a[i].id != b[j].id {
      assert a[i].id in Ids(a) && b[j].id in Ids(b);
    }
  }

  lemma {:induction false} InsertDistinct(trade: Trade, trades: seq<Trade>)
    requires DistinctIds(trades) && trade.id !in Ids(trades)
    ensures DistinctIds(Insert(trade, trades, ByTime))
    ensures Ids(Insert(trade, trades, ByTime)) == Ids(trades) + {trade.id}
  {
    if trades == [] || ByTime(trade) <= ByTime(trades[0]) {
      AppendDistinct([trade], trades);
    } else {
      assert trades == [trades[0]] + trades[1..];
      assert trades[0].id !in Ids(trades[1..]);
      InsertDistinct(trade, trades[1..]);
      AppendDistinct([trades[0]], Insert(trade, trades[1..], ByTime));
    }
  }

  lemma {:induction false} SortDistinct(trades: seq<Trade>)
    requires DistinctIds(trades)
    ensures DistinctIds(SortedTrades(trades)) && Ids(SortedTrades(trades)) == Ids(trades)
  {
    if trades != [] {
      SortDistinct(trades[1..]);
      assert trades == [trades[0]] + trades[1..];
      assert trades[0].id !in Ids(trades[1..]);
      InsertDistinct(trades[0], SortedTrades(trades[1..]));
    }
  }

  lemma SameIdSameTrade(trades: seq<Trade>, a: Trade, b: Trade)
    requires DistinctIds(trades) && a in trades && b in trades && a.id == b.id
    ensures a == b
  {
  }

  lemma {:induction false} SortedGroupsDistinct(keys: seq<InstrumentKey>, trades: seq<Trade>)
    requires Distinct(keys) && DistinctIds(trades)
    ensures DistinctIds(SortedGroups(keys, trades))
  {
    if keys != [] {
      var init, last := keys[..|keys| - 1], keys[|keys| - 1];
      var own := TradesOf(trades, last);
      SortedGroupsDistinct(init, trades);
      FilterKeepsIds(trades, HasKey(last));
      SortDistinct(own);
      forall a, b | a in SortedGroups(init, trades) && b in SortedTrades(own) ensures a.id != b.id {
        SortedGroupsMembers(init, trades, a);
        SortKeeps(own, ByTime, b);
        FilterKeeps(trades, HasKey(last), b);
        assert HasKey(last)(b);
        if a.id == b.id { SameIdSameTrade(trades, a, b); }
      }
      AppendDistinct(SortedGroups(init, trades), SortedTrades(own));
    }
  }

  /** `isRight` of each fill of the groups holds in the dictionary. */
  method CollectProfits(trades: seq<Trade>, keys: seq<InstrumentKey>, groups: map<InstrumentKey, seq<Trade>>)
    returns (netProfits: map<nat, real>)
    requires DistinctIds(trades) && Distinct(keys)
    requires forall key <- keys :: key in groups && groups[key] == TradesOf(trades, key)
    ensures AreProfits(netProfits, RightProfit(trades), SortedGroups(keys, trades))
  {
    netProfits := map[];
    for k := 0 to |keys|
      invariant AreProfits(netProfits, RightProfit(trades), SortedGroups(keys[..k], trades))
    {
      assert keys[k] in keys;
      netProfits := CollectNext(trades, keys, k, groups[keys[k]], netProfits);
    }
    assert keys[..|keys|] == keys;
  }

  method CollectNext(ghost trades: seq<Trade>, ghost keys: seq<InstrumentKey>, ghost k: nat, group: seq<Trade>,
                     profits0: map<nat, real>)
    returns (profits: map<nat, real>)
    requires DistinctIds(trades) && Distinct(keys) && k < |keys| && group == TradesOf(trades, keys[k])
    requires AreProfits(profits0, RightProfit(trades), SortedGroups(keys[..k], trades))
    ensures AreProfits(profits, RightProfit(trades), SortedGroups(keys[..k + 1], trades))
  {
    assert keys[..k + 1][..k] == keys[..k];
    DistinctPrefix(keys, k + 1);
    SortedGroupsDistinct(keys[..k + 1], trades);
    profits := AddInstrumentProfits(trades, keys[k], group, profits0, SortedGroups(keys[..k], trades));
  }

  lemma DistinctPrefix(keys: seq<InstrumentKey>, count: nat)
    requires Distinct(keys) && count <= |keys|
    ensures Distinct(keys[..count])
  {
  }

  method LookUpProfits(trades: seq<Trade>, netProfits: map<nat, real>, ghost isRight: (Trade, Option<real>) -> bool)
    returns (profits: seq<Option<real>>)
    requires forall trade <- trades :: isRight(trade, Lookup(netProfits, trade.id))
    ensures |profits| == |trades|
    ensures forall i :: 0 <= i < |trades| ==> isRight(trades[i], profits[i])
  {
    profits := [];
    for i := 0 to |trades|
      invariant |profits| == i
      invariant forall j :: 0 <= j < i ==> isRight(trades[j], profits[j])
    {
      assert trades[i] in trades;
      profits := profits + [Lookup(netProfits, trades[i].id)];
    }
  }

  /** For each fill, in the order of `trades`: the profit of the round trip that exactly this fill ends. */
  method FindRoundTripNetProfits(trades: seq<Trade>) returns (profits: seq<Option<real>>)
    requires DistinctIds(trades)
    ensures |profits| == |trades|
    ensures forall i :: 0 <= i < |trades| ==> IsProfitAt(trades, trades[i], profits[i])
  {
    var keys, groups := GroupByInstrument(trades);
    var netProfits := CollectProfits(trades, keys, groups);
    forall trade <- trades ensures RightProfit(trades)(trade, Lookup(netProfits, trade.id)) {
      SortedGroupsMembers(keys, trades, trade);
    }
    profits := LookUpProfits(trades, netProfits, RightProfit(trades));
    assert forall i :: 0 <= i < |trades| ==>
             RightProfit(trades)(trades[i], profits[i]) == IsProfitAt(trades, trades[i], profits[i]);
  }

  /** A fill has one profit: no other value is right for it. */
  lemma ProfitAtIsUnique(trades: seq<Trade>, trade: Trade, p: Option<real>, q: Option<real>)
    requires DistinctIds(trades)
    requires IsProfitAt(trades, trade, p) && IsProfitAt(trades, trade, q)
    ensures p == q
  {
    var own := TradesOf(trades, FindInstrumentKey(trade));
    FilterKeepsIds(trades, HasKey(FindInstrumentKey(trade)));
    SortDistinct(own);
    var sorted := SortedTrades(own);
    var i :| 0 <= i < |sorted| && sorted[i] == trade && p == ProfitOption(EndedRoundTrip(sorted, i));
    var j :| 0 <= j < |sorted| && sorted[j] == trade && q == ProfitOption(EndedRoundTrip(sorted, j));
    assert sorted[i].id == sorted[j].id;
    assert i == j;
  }
}
