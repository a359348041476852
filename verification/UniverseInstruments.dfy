/** The rows of the universe members of a test: the number of fills and the net profit of each. */
module UniverseInstruments {
  import opened Sequences
  import opened Trades
  import opened UniverseEquityCurve
  import opened RoundTrips
  import opened RoundTripLists

  /** `quarterCount`: the number of universe periods in which the instrument is a member. */
  datatype UniverseInstrument = UniverseInstrument(key: InstrumentKey, tradeCount: nat,
                                                   netProfitUsd: real, quarterCount: nat)

  /** One entry of the dictionary of the quarter counts. */
  datatype MemberCount = MemberCount(key: InstrumentKey, quarterCount: nat)

  /** Fills from before the columns have no symbol and no exchange, and are in no row. */
  predicate IsMemberKey(key: InstrumentKey) { key.symbol.Some? && key.exchange.Some? }

  function KeysOf(members: seq<MemberCount>): (keys: seq<InstrumentKey>)
    ensures |keys| == |members| && forall i :: 0 <= i < |members| ==> keys[i] == members[i].key
  {
    seq(|members|, i requires 0 <= i < |members| => members[i].key)
  }

  /** The net profit of an instrument row: the round trips of its own fills. */
  function NetProfit(trades: seq<Trade>, key: InstrumentKey): real {
    SumBy(FoundRoundTrips(TradesOf(trades, key)), Profit)
  }

  // ---------------------------------------------------------------- the loops

  ghost predicate AreMemberGroups(groups: map<InstrumentKey, seq<Trade>>, trades: seq<Trade>) {
    forall key :: IsMemberKey(key) ==> Lookup(groups, key).GetOr([]) == TradesOf(trades, key)
  }

  lemma {:induction false} AddToMemberGroup(groups: map<InstrumentKey, seq<Trade>>, trades: seq<Trade>, trade: Trade)
    requires AreMemberGroups(groups, trades)
    ensures var key := FindInstrumentKey(trade);
      AreMemberGroups(if IsMemberKey(key) then groups[key := Lookup(groups, key).GetOr([]) + [trade]] else groups,
                      trades + [trade])
  {
    forall key | IsMemberKey(key) ensures TradesOf(trades + [trade], key)
        == TradesOf(trades, key) + if FindInstrumentKey(trade) == key then [trade] else []
    {
      TradesOfOneMore(trades, trade, key);
    }
  }

  method GroupByMember(trades: seq<Trade>) returns (groups: map<InstrumentKey, seq<Trade>>)
    ensures AreMemberGroups(groups, trades)
  {
    groups := map[];
    for i := 0 to |trades|
      invariant AreMemberGroups(groups, trades[..i])
    {
      var key := FindInstrumentKey(trades[i]);
      AddToMemberGroup(groups, trades[..i], trades[i]);
      TakeNext(trades, i);
      if key.symbol.Some? && key.exchange.Some? {
        groups := groups[key := Lookup(groups, key).GetOr([]) + [trades[i]]];
      }
    }
    assert trades[..|trades|] == trades;
  }

  /** The row of a member counts its own fills and adds up its own round trips. */
  function RowOf(trades: seq<Trade>, member: MemberCount): UniverseInstrument {
    UniverseInstrument(member.key, |TradesOf(trades, member.key)|, NetProfit(trades, member.key), member.quarterCount)
  }

  method SummarizeInstruments(trades: seq<Trade>, members: seq<MemberCount>) returns (rows: seq<UniverseInstrument>)
    requires forall member <- members :: IsMemberKey(member.key)
    ensures |rows| == |members| && forall i :: 0 <= i < |rows| ==> rows[i] == RowOf(trades, members[i])
  {
    var groups := GroupByMember(trades);
    rows := [];
    for i := 0 to |members|
      invariant |rows| == i && forall j :: 0 <= j < i ==> rows[j] == RowOf(trades, members[j])
    {
      assert members[i] in members;
      var key := members[i].key;
      var memberTrades := if key in groups then groups[key] else [];
      assert memberTrades == Lookup(groups, key).GetOr([]);
      var trips := FindRoundTrips(memberTrades);
      rows := rows + [UniverseInstrument(key, |memberTrades|, SumBy(trips, Profit), members[i].quarterCount)];
    }
  }

  // ---------------------------------------------------------------- the rows and the profit of the test

  const RowProfit: UniverseInstrument -> real := (row: UniverseInstrument) => row.netProfitUsd

  function NetProfitOf(trades: seq<Trade>): InstrumentKey -> real { (key: InstrumentKey) => NetProfit(trades, key) }

  function IsNotIn(keys: seq<InstrumentKey>): InstrumentKey -> bool { (key: InstrumentKey) => key !in keys }

  /** The traded instruments without a row: no members, or without symbol or exchange. */
  function KeysWithoutRow(trades: seq<Trade>, rowKeys: seq<InstrumentKey>): seq<InstrumentKey> {
    Filter(InstrumentKeys(trades), IsNotIn(rowKeys))
  }

  lemma {:induction false} KeysOfOneInstrument(trades: seq<Trade>, key: InstrumentKey)
    requires trades != [] && forall i :: 0 <= i < |trades| ==> FindInstrumentKey(trades[i]) == key
    ensures InstrumentKeys(trades) == [key]
  {
    if |trades| > 1 {
      KeysOfOneInstrument(trades[..|trades| - 1], key);
    } else {
      assert InstrumentKeys(trades[..0]) == [];
    }
  }

  lemma {:induction false} OwnRoundTrips(trades: seq<Trade>, key: InstrumentKey)
    ensures NetProfit(trades, key) == SumBy(InstrumentTrips(TradesOf(trades, key)), Profit)
  {
    var own := TradesOf(trades, key);
    forall i | 0 <= i < |own| ensures HasKey(key)(own[i]) {
      assert own[i] in own;
      FilterKeeps(trades, HasKey(key), own[i]);
    }
    SortSum(TripsByKey(InstrumentKeys(own), own), EndTime, Profit);
    assert NetProfit(trades, key) == SumBy(TripsByKey(InstrumentKeys(own), own), Profit);
    if own == [] {
      assert SortedTrades(own) == [];
    } else {
      KeysOfOneInstrument(own, key);
      FilterAll(own, HasKey(key));
      assert [key][..0] == [];
      assert TradesOf(own, key) == own;
      assert TripsByKey([key], own) == [] + InstrumentTrips(own);
      assert TripsByKey(InstrumentKeys(own), own) == InstrumentTrips(own);
    }
  }

  lemma {:induction false} NetProfitsAddUpByKey(trades: seq<Trade>, keys: seq<InstrumentKey>)
    ensures SumBy(keys, NetProfitOf(trades)) == SumBy(TripsByKey(keys, trades), Profit)
  {
    if keys != [] {
      var init, last := keys[..|keys| - 1], keys[|keys| - 1];
      NetProfitsAddUpByKey(trades, init);
      OwnRoundTrips(trades, last);
      SumAppend(TripsByKey(init, trades), InstrumentTrips(TradesOf(trades, last)), Profit);
    }
  }

  lemma {:induction false} SumAtKey(keys: seq<InstrumentKey>, key: InstrumentKey, amount: real,
                                    f: InstrumentKey -> real)
    requires Distinct(keys) && forall i :: 0 <= i < |keys| ==> f(keys[i]) == if keys[i] == key then amount else 0.0
    ensures SumBy(keys, f) == if key in keys then amount else 0.0
  {
    if keys != [] {
      var init, last := keys[..|keys| - 1], keys[|keys| - 1];
      SumAtKey(init, key, amount, f);
      assert keys == init + [last];
    }
  }

  /** The sum over the keys outside `rows`, as a sum over all keys. */
  function OutsideRows(rows: seq<InstrumentKey>, f: InstrumentKey -> real): InstrumentKey -> real {
    (key: InstrumentKey) => if key !in rows then f(key) else 0.0
  }

  lemma {:induction false} SumSplits(keys: seq<InstrumentKey>, f: InstrumentKey -> real, g: InstrumentKey -> real,
                                     h: InstrumentKey -> real)
    requires forall i :: 0 <= i < |keys| ==> f(keys[i]) == g(keys[i]) + h(keys[i])
    ensures SumBy(keys, f) == SumBy(keys, g) + SumBy(keys, h)
  {
    if keys != [] {
      SumSplits(keys[..|keys| - 1], f, g, h);
    }
  }

  /** Rows whose other keys add 0 add up to the sum without the keys outside the rows. */
  lemma {:induction false} RowsAndRest(rows: seq<InstrumentKey>, keys: seq<InstrumentKey>, f: InstrumentKey -> real)
    requires Distinct(rows) && Distinct(keys) && forall row <- rows :: row in keys || f(row) == 0.0
    ensures SumBy(rows, f) + SumBy(keys, OutsideRows(rows, f)) == SumBy(keys, f)
  {
    if rows == [] {
      SumCongruence(keys, OutsideRows(rows, f), f);
    } else {
      var init, last := rows[..|rows| - 1], rows[|rows| - 1];
      assert rows == init + [last];
      RowsAndRest(init, keys, f);
      var atLast := (key: InstrumentKey) => if key == last then f(last) else 0.0;
      SumSplits(keys, OutsideRows(init, f), OutsideRows(rows, f), atLast);
      SumAtKey(keys, last, f(last), atLast);
    }
  }

  lemma {:induction false} UntradedHasNoProfit(trades: seq<Trade>, key: InstrumentKey)
    ensures key in InstrumentKeys(trades) || NetProfitOf(trades)(key) == 0.0
  {
    if key !in InstrumentKeys(trades) {
      NoTradesOfOther(trades, key);
      OwnRoundTrips(trades, key);
      assert InstrumentTrips([]) == [];
    }
  }

  lemma {:induction false} RowsSum(trades: seq<Trade>, members: seq<MemberCount>, rows: seq<UniverseInstrument>)
    requires |rows| == |members| && forall i :: 0 <= i < |rows| ==> rows[i] == RowOf(trades, members[i])
    ensures SumBy(rows, RowProfit) == SumBy(KeysOf(members), NetProfitOf(trades))
  {
    if rows != [] {
      RowsSum(trades, members[..|members| - 1], rows[..|rows| - 1]);
      assert KeysOf(members)[..|members| - 1] == KeysOf(members[..|members| - 1]);
    }
  }

  lemma {:induction false} TotalByKey(trades: seq<Trade>)
    ensures SumBy(InstrumentKeys(trades), NetProfitOf(trades)) == SumBy(FoundRoundTrips(trades), Profit)
  {
    NetProfitsAddUpByKey(trades, InstrumentKeys(trades));
    SortSum(TripsByKey(InstrumentKeys(trades), trades), EndTime, Profit);
  }

  lemma {:induction false} KeysAndRest(trades: seq<Trade>, rowKeys: seq<InstrumentKey>)
    requires Distinct(rowKeys)
    ensures SumBy(rowKeys, NetProfitOf(trades)) + SumBy(KeysWithoutRow(trades, rowKeys), NetProfitOf(trades))
         == SumBy(FoundRoundTrips(trades), Profit)
  {
    var keys, f := InstrumentKeys(trades), NetProfitOf(trades);
    TotalByKey(trades);
    forall key <- rowKeys ensures key in keys || f(key) == 0.0 {
      UntradedHasNoProfit(trades, key);
    }
    RowsAndRest(rowKeys, keys, f);
    SumFilter(keys, IsNotIn(rowKeys), f, OutsideRows(rowKeys, f));
  }

  lemma {:induction false} NoKeyWithoutRow(trades: seq<Trade>, rowKeys: seq<InstrumentKey>)
    requires forall trade <- trades :: FindInstrumentKey(trade) in rowKeys
    ensures KeysWithoutRow(trades, rowKeys) == []
  {
    var keys := InstrumentKeys(trades);
    forall i | 0 <= i < |keys| ensures keys[i] in rowKeys {
      assert keys[i] in keys;
    }
    FilterNone(keys, IsNotIn(rowKeys));
  }

  /**
   * The rows of the members and the net profits of the traded instruments without a row add up to the
   * profit of all round trips of the test. So the rows alone do when each traded instrument is a member.
   */
  lemma {:induction false} InstrumentRowsAddUp(trades: seq<Trade>, members: seq<MemberCount>,
                                               rows: seq<UniverseInstrument>)
    requires Distinct(KeysOf(members))
    requires |rows| == |members| && forall i :: 0 <= i < |rows| ==> rows[i] == RowOf(trades, members[i])
    ensures SumBy(rows, RowProfit) + SumBy(KeysWithoutRow(trades, KeysOf(members)), NetProfitOf(trades))
         == SumBy(FoundRoundTrips(trades), Profit)
    ensures (forall trade <- trades :: FindInstrumentKey(trade) in KeysOf(members)) ==>
              SumBy(rows, RowProfit) == SumBy(FoundRoundTrips(trades), Profit)
  {
    RowsSum(trades, members, rows);
    KeysAndRest(trades, KeysOf(members));
    if forall trade <- trades :: FindInstrumentKey(trade) in KeysOf(members) {
      NoKeyWithoutRow(trades, KeysOf(members));
    }
  }
}
