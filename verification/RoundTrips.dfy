/** Round trips: the fills of an instrument from a position of 0 back to a position of 0. */
module RoundTrips {
  import opened Sequences
  import opened Trades

  datatype RoundTrip = RoundTrip(startUtc: int, endUtc: int, profitUsd: real, entryAmountUsd: real)

  function EntryAmount(side: Side): Trade -> real {
    (trade: Trade) => if trade.side == side then Amount(trade) else 0.0
  }

  /** The position after the first `count` fills is 0. */
  predicate IsFlat(sorted: seq<Trade>, count: nat)
    requires count <= |sorted|
  {
    SumBy(sorted[..count], SignedShares) == 0.0
  }

  /** The start of the block of fill `count`: the last point at or before it at which the position was 0. */
  function BlockStart(sorted: seq<Trade>, count: nat): (start: nat)
    requires count <= |sorted|
    ensures start <= count && IsFlat(sorted, start)
    ensures forall n :: start < n <= count ==> !IsFlat(sorted, n)
  {
    if IsFlat(sorted, count) then count
    else
      assert sorted[..0] == [];
      BlockStart(sorted, count - 1)
  }

  /** The round trip that the fill ends, when the position is 0 after it: its block is the fills since the last 0. */
  function EndedRoundTrip(sorted: seq<Trade>, index: nat): Option<RoundTrip>
    requires index < |sorted|
  {
    if !IsFlat(sorted, index + 1) then None
    else
      var start := BlockStart(sorted, index);
      var block := sorted[start..index + 1];
      Some(RoundTrip(
             sorted[start].timeUtc,
             sorted[index].timeUtc,
             -SumBy(block, CashOut),
             SumBy(block, EntryAmount(sorted[start].side))))
  }

  lemma NegativeValue(shares: real, price: real)
    ensures MarketValue(-shares, price) == -MarketValue(shares, price)
  {
  }

  lemma ExtendBlock(s: seq<Trade>, from: nat, to: nat, amount: Trade -> real)
    requires from <= to < |s|
    ensures SumBy(s[from..to + 1], amount) == SumBy(s[from..to], amount) + amount(s[to])
  {
    assert s[from..to + 1][..to - from] == s[from..to];
  }

  /** The walk variables in the middle of a block. `start` is empty exactly between two blocks. */
  datatype Walk = Walk(positionShares: real, cashUsd: real, entryAmountUsd: real, entrySide: Option<Side>,
                       startUtc: Option<int>)

  ghost predicate IsWalk(sorted: seq<Trade>, count: nat, walk: Walk)
    requires count <= |sorted|
  {
    var start := BlockStart(sorted, count);
    && walk.positionShares == SumBy(sorted[..count], SignedShares)
    && walk.cashUsd == -SumBy(sorted[start..count], CashOut)
    && (start == count ==> walk.startUtc.None? && walk.entryAmountUsd == 0.0)
    && (start < count ==>
          && walk.startUtc == Some(sorted[start].timeUtc)
          && walk.entrySide == Some(sorted[start].side)
          && walk.entryAmountUsd == SumBy(sorted[start..count], EntryAmount(sorted[start].side)))
  }

  /** The walk takes in one fill, before the check for a position of 0. */
  function TakeTrade(walk: Walk, trade: Trade): Walk {
    var begun :=
      if walk.startUtc.None? then walk.(startUtc := Some(trade.timeUtc), entrySide := Some(trade.side)) else walk;
    var amount := Amount(trade);
    begun.(
      entryAmountUsd := begun.entryAmountUsd + (if Some(trade.side) == begun.entrySide then amount else 0.0),
      cashUsd := begun.cashUsd + (if trade.side == Buy then -amount else amount) - trade.commissionUsd,
      positionShares := begun.positionShares + SignedShares(trade))
  }

  lemma TakeTradeExtendsBlock(sorted: seq<Trade>, count: nat, walk: Walk)
    requires count < |sorted| && IsWalk(sorted, count, walk)
    ensures var start := BlockStart(sorted, count);
      TakeTrade(walk, sorted[count]) ==
        Walk(SumBy(sorted[..count + 1], SignedShares),
             -SumBy(sorted[start..count + 1], CashOut),
             SumBy(sorted[start..count + 1], EntryAmount(sorted[start].side)),
             Some(sorted[start].side),
             Some(sorted[start].timeUtc))
  {
    var start := BlockStart(sorted, count);
    var trade := sorted[count];
    StepSum(sorted, count, SignedShares);
    ExtendBlock(sorted, start, count, CashOut);
    ExtendBlock(sorted, start, count, EntryAmount(sorted[start].side));
    NegativeValue(trade.quantityShares, trade.priceUsd);
  }

  lemma WalkContinues(sorted: seq<Trade>, count: nat, walk: Walk)
    requires count < |sorted| && IsWalk(sorted, count, walk) && !IsFlat(sorted, count + 1)
    ensures IsWalk(sorted, count + 1, TakeTrade(walk, sorted[count]))
  {
    TakeTradeExtendsBlock(sorted, count, walk);
    assert BlockStart(sorted, count + 1) == BlockStart(sorted, count);
  }

  lemma WalkEndsBlock(sorted: seq<Trade>, count: nat, walk: Walk)
    requires count < |sorted| && IsWalk(sorted, count, walk) && IsFlat(sorted, count + 1)
    ensures var taken := TakeTrade(walk, sorted[count]);
      && taken.startUtc.Some?
      && EndedRoundTrip(sorted, count)
           == Some(RoundTrip(taken.startUtc.value, sorted[count].timeUtc, taken.cashUsd, taken.entryAmountUsd))
      && IsWalk(sorted, count + 1, taken.(cashUsd := 0.0, entryAmountUsd := 0.0, startUtc := None))
  {
    TakeTradeExtendsBlock(sorted, count, walk);
    assert sorted[count + 1..count + 1] == [];
  }

  const START_WALK := Walk(0.0, 0.0, 0.0, None, None)

  /** The walk after the first fills, step by step. */
  function WalkAfter(sorted: seq<Trade>, count: nat): Walk
    requires count <= |sorted|
  {
    if count == 0 then START_WALK
    else
      var taken := TakeTrade(WalkAfter(sorted, count - 1), sorted[count - 1]);
      if taken.positionShares != 0.0 then taken else EndBlock(taken)
  }

  function EndBlock(taken: Walk): Walk { taken.(cashUsd := 0.0, entryAmountUsd := 0.0, startUtc := None) }

  /** The round trip that the last fill ends. */
  function TripOf(taken: Walk, endUtc: int): Option<RoundTrip> {
    if taken.positionShares != 0.0 || taken.startUtc.None? then None
    else Some(RoundTrip(taken.startUtc.value, endUtc, taken.cashUsd, taken.entryAmountUsd))
  }

  lemma {:induction false} WalkAfterIsWalk(sorted: seq<Trade>, count: nat)
    requires count <= |sorted|
    ensures IsWalk(sorted, count, WalkAfter(sorted, count))
    ensures count > 0 ==>
              EndedRoundTrip(sorted, count - 1)
              == TripOf(TakeTrade(WalkAfter(sorted, count - 1), sorted[count - 1]), sorted[count - 1].timeUtc)
  {
    if count == 0 {
      assert sorted[..0] == [] && sorted[0..0] == [];
    } else {
      WalkAfterIsWalk(sorted, count - 1);
      var walk := WalkAfter(sorted, count - 1);
      TakeTradeExtendsBlock(sorted, count - 1, walk);
      if TakeTrade(walk, sorted[count - 1]).positionShares != 0.0 {
        WalkContinues(sorted, count - 1, walk);
      } else {
        WalkEndsBlock(sorted, count - 1, walk);
      }
    }
  }

  /** The walk of the first fills with their round trips. */
  function Walked(sorted: seq<Trade>, count: nat): (walked: seq<(Trade, Option<RoundTrip>)>)
    requires count <= |sorted|
    ensures |walked| == count
  {
    if count == 0 then []
    else
      var taken := TakeTrade(WalkAfter(sorted, count - 1), sorted[count - 1]);
      Walked(sorted, count - 1) + [(sorted[count - 1], TripOf(taken, sorted[count - 1].timeUtc))]
  }

  lemma {:induction false} WalkedAt(sorted: seq<Trade>, count: nat, i: nat)
    requires i < count <= |sorted|
    ensures Walked(sorted, count)[i] == (sorted[i], EndedRoundTrip(sorted, i))
  {
    if i == count - 1 {
      WalkAfterIsWalk(sorted, count);
    } else {
      WalkedAt(sorted, count - 1, i);
    }
  }

  method WalkSorted(sorted: seq<Trade>) returns (walked: seq<(Trade, Option<RoundTrip>)>)
    ensures walked == Walked(sorted, |sorted|)
  {
    walked := [];
    var walk := START_WALK;
    for k := 0 to |sorted|
      invariant walked == Walked(sorted, k) && walk == WalkAfter(sorted, k)
    {
      var trade := sorted[k];
      var taken := TakeTrade(walk, trade);
      walked := walked + [(trade, TripOf(taken, trade.timeUtc))];
      walk := if taken.positionShares != 0.0 then taken else EndBlock(taken);
    }
  }

  /** Each fill of one instrument by time, with the round trip that it ends. */
  method WalkInstrumentRoundTrips(trades: seq<Trade>) returns (walked: seq<(Trade, Option<RoundTrip>)>)
    ensures walked == Walked(SortedTrades(trades), |SortedTrades(trades)|)
    ensures forall i :: 0 <= i < |walked| ==>
      walked[i] == (SortedTrades(trades)[i], EndedRoundTrip(SortedTrades(trades), i))
  {
    var sorted := SortedTrades(trades);
    walked := WalkSorted(sorted);
    forall i | 0 <= i < |walked| ensures walked[i] == (sorted[i], EndedRoundTrip(sorted, i)) {
      WalkedAt(sorted, |sorted|, i);
    }
  }

  // ---------------------------------------------------------------- the blocks conserve cash

  const Profit: RoundTrip -> real := (roundTrip: RoundTrip) => roundTrip.profitUsd

  /** The round trips that the first `count` fills end, in fill order. */
  function EndedTrips(sorted: seq<Trade>, count: nat): seq<RoundTrip>
    requires count <= |sorted|
  {
    if count == 0 then []
    else
      EndedTrips(sorted, count - 1)
      + match EndedRoundTrip(sorted, count - 1)
        case Some(trip) => [trip]
        case None => []
  }

  lemma NextEndedTrip(sorted: seq<Trade>, count: nat, trip: Option<RoundTrip>)
    requires count < |sorted| && trip == EndedRoundTrip(sorted, count)
    ensures EndedTrips(sorted, count + 1) == if trip.Some? then EndedTrips(sorted, count) + [trip.value]
                                             else EndedTrips(sorted, count)
  {
    if trip.None? {
      assert EndedTrips(sorted, count) + [] == EndedTrips(sorted, count);
    }
  }

  /** A round trip starts at a position of 0, returns to it, and is not at 0 in between. */
  lemma RoundTripIsOneBlock(sorted: seq<Trade>, index: nat)
    requires index < |sorted| && EndedRoundTrip(sorted, index).Some?
    ensures var start := BlockStart(sorted, index);
      && SumBy(sorted[start..index + 1], SignedShares) == 0.0
      && forall n :: start < n <= index ==> SumBy(sorted[start..n], SignedShares) != 0.0
  {
    var start := BlockStart(sorted, index);
    forall n | start <= n <= index + 1
      ensures SumBy(sorted[start..n], SignedShares) == SumBy(sorted[..n], SignedShares)
    {
      assert sorted[..n] == sorted[..start] + sorted[start..n];
      SumAppend(sorted[..start], sorted[start..n], SignedShares);
    }
    forall n | start < n <= index ensures SumBy(sorted[start..n], SignedShares) != 0.0 {
      assert !IsFlat(sorted, n);
    }
  }

  lemma EndedTripTakesBlock(sorted: seq<Trade>, index: nat)
    requires index < |sorted| && IsFlat(sorted, index + 1)
    ensures SumBy(EndedTrips(sorted, index + 1), Profit)
         == SumBy(EndedTrips(sorted, index), Profit) - SumBy(sorted[BlockStart(sorted, index)..index + 1], CashOut)
  {
    var trip := EndedRoundTrip(sorted, index).value;
    assert EndedTrips(sorted, index + 1) == EndedTrips(sorted, index) + [trip];
    SumAppend(EndedTrips(sorted, index), [trip], Profit);
    SumOne(trip, Profit);
  }

  /** The profits of the ended round trips are the whole cash flow up to the start of the open block. */
  lemma {:induction false} ProfitsAreCashFlow(sorted: seq<Trade>, count: nat)
    requires count <= |sorted|
    ensures SumBy(EndedTrips(sorted, count), Profit) == -SumBy(sorted[..BlockStart(sorted, count)], CashOut)
  {
    if count == 0 {
      assert sorted[..0] == [];
    } else {
      var before := count - 1;
      ProfitsAreCashFlow(sorted, before);
      if IsFlat(sorted, count) {
        var start := BlockStart(sorted, before);
        EndedTripTakesBlock(sorted, before);
        assert sorted[..count] == sorted[..start] + sorted[start..count];
        SumAppend(sorted[..start], sorted[start..count], CashOut);
      } else {
        assert EndedTrips(sorted, count) == EndedTrips(sorted, before);
      }
    }
  }

  /** Conservation: the profits plus the cash of the open tail are the total cash flow of the fills. */
  lemma ProfitsAndTailConserveCash(trades: seq<Trade>)
    ensures var sorted := SortedTrades(trades);
      SumBy(EndedTrips(sorted, |sorted|), Profit) - SumBy(sorted[BlockStart(sorted, |sorted|)..], CashOut)
        == -SumBy(trades, CashOut)
  {
    var sorted := SortedTrades(trades);
    var start := BlockStart(sorted, |sorted|);
    ProfitsAreCashFlow(sorted, |sorted|);
    assert sorted == sorted[..start] + sorted[start..];
    SumAppend(sorted[..start], sorted[start..], CashOut);
    SortSum(trades, ByTime, CashOut);
  }
}
