/** The in-sample and the out-of-sample part of a test, and the split time. */
module SplitMetrics {
  import opened Sequences
  import opened Bars
  import opened Trades
  import opened Reals
  import opened UniverseEquityCurve
  import opened RoundTrips
  import opened RoundTripLists
  import opened PerformanceMetrics

  // ---------------------------------------------------------------- the position flags

  /** A position of a time is not 0. */
  ghost predicate HasPosition(trades: seq<Trade>, timeUtc: int) {
    exists key :: TotalUpTo(trades, timeUtc, SharesOf(key)) != 0.0
  }

  ghost predicate ArePositionFlags(flags: seq<bool>, curve: seq<EquityPoint>, trades: seq<Trade>) {
    |flags| <= |curve| && forall i :: 0 <= i < |flags| ==> (flags[i] <==> HasPosition(trades, curve[i].timeUtc))
  }

  lemma FlagOfPositions(keys: seq<InstrumentKey>, positions: map<InstrumentKey, real>, trades: seq<Trade>,
                        cursor: nat, timeUtc: int)
    requires cursor <= |SortedTrades(trades)| && CursorAt(SortedTrades(trades), cursor, timeUtc)
    requires ArePositions(keys, positions, SortedTrades(trades)[..cursor])
    ensures (exists key :: key in keys && positions[key] != 0.0) <==> HasPosition(trades, timeUtc)
  {
    var processed := SortedTrades(trades)[..cursor];
    forall key ensures TotalUpTo(trades, timeUtc, SharesOf(key)) == if key in keys then positions[key] else 0.0 {
      CursorTotal(trades, cursor, timeUtc, SharesOf(key));
      if key !in keys {
        NoSharesOfOther(processed, key);
      }
    }
    if exists key :: key in keys && positions[key] != 0.0 {
      var key :| key in keys && positions[key] != 0.0;
      assert TotalUpTo(trades, timeUtc, SharesOf(key)) != 0.0;
    }
  }

  method HasOpenPosition(keys: seq<InstrumentKey>, positions: map<InstrumentKey, real>) returns (isOpen: bool)
    requires forall key <- keys :: key in positions
    ensures isOpen <==> exists key :: key in keys && positions[key] != 0.0
  {
    for k := 0 to |keys|
      invariant forall i :: 0 <= i < k ==> positions[keys[i]] == 0.0
    {
      assert keys[k] in keys;
      if positions[keys[k]] != 0.0 {
        return true;
      }
    }
    return false;
  }

  /** The dictionary of the shares: `keys` is its insertion order. */
  datatype Shares = Shares(keys: seq<InstrumentKey>, positions: map<InstrumentKey, real>)

  ghost predicate AreShares(shares: Shares, processed: seq<Trade>) {
    ArePositions(shares.keys, shares.positions, processed)
  }

  function TakeShares(shares: Shares, trade: Trade): Shares {
    Shares(AddKey(shares.keys, shares.positions, trade), AddShares(shares.positions, trade))
  }

  lemma TakeSharesKeeps(shares: Shares, processed: seq<Trade>, trade: Trade)
    requires AreShares(shares, processed)
    ensures AreShares(TakeShares(shares, trade), processed + [trade])
  {
    AddTradeKeepsPositions(shares.keys, shares.positions, processed, trade);
  }

  method TakePositionsUpTo(sorted: seq<Trade>, timeUtc: int, next0: nat, shares0: Shares)
    returns (next: nat, shares: Shares)
    requires InTimeOrder(sorted) && NoneAfter(sorted, next0, timeUtc) && AreShares(shares0, sorted[..next0])
    ensures CursorAt(sorted, next, timeUtc) && AreShares(shares, sorted[..next])
  {
    next, shares := next0, shares0;
    ghost var processed := sorted[..next];
    while next < |sorted| && sorted[next].timeUtc <= timeUtc
      invariant NoneAfter(sorted, next, timeUtc)
      invariant processed == sorted[..next] && AreShares(shares, processed)
    {
      TakeSharesKeeps(shares, processed, sorted[next]);
      TakeNext(sorted, next);
      CursorStep(sorted, next, timeUtc, timeUtc);
      shares := TakeShares(shares, sorted[next]);
      processed := processed + [sorted[next]];
      next := next + 1;
    }
    RestIsLater(sorted, next, timeUtc);
  }

  method FlagOfPoint(trades: seq<Trade>, sorted: seq<Trade>, timeUtc: int, next0: nat, shares0: Shares)
    returns (next: nat, shares: Shares, flag: bool)
    requires sorted == SortedTrades(trades) && NoneAfter(sorted, next0, timeUtc) && AreShares(shares0, sorted[..next0])
    ensures CursorAt(sorted, next, timeUtc) && AreShares(shares, sorted[..next])
    ensures flag <==> HasPosition(trades, timeUtc)
  {
    SortedTradesInOrder(trades);
    next, shares := TakePositionsUpTo(sorted, timeUtc, next0, shares0);
    FlagOfPositions(shares.keys, shares.positions, trades, next, timeUtc);
    flag := HasOpenPosition(shares.keys, shares.positions);
  }

  lemma LaterPoint(sorted: seq<Trade>, next: nat, curve: seq<EquityPoint>, k: nat)
    requires SortedBy(curve, PointTime) && k < |curve| && NoneAfter(sorted, next, curve[k].timeUtc)
    ensures k + 1 < |curve| ==> NoneAfter(sorted, next, curve[k + 1].timeUtc)
  {
    if k + 1 < |curve| {
      assert PointTime(curve[k]) <= PointTime(curve[k + 1]);
    }
  }

  /** For each point in time order: true exactly when a position of its time is not 0. */
  method FindPositions(curve: seq<EquityPoint>, trades: seq<Trade>) returns (flags: seq<bool>)
    ensures |flags| == |curve| && ArePositionFlags(flags, SortBy(curve, PointTime), trades)
  {
    var sorted := SortedTrades(trades);
    var points := SortBy(curve, PointTime);
    SortSorts(curve, PointTime);
    assert sorted[..0] == [];
    var next: nat, shares := 0, Shares([], map[]);
    flags := [];
    for k := 0 to |points|
      invariant |flags| == k && ArePositionFlags(flags, points, trades)
      invariant next <= |sorted| && AreShares(shares, sorted[..next])
      invariant k < |points| ==> NoneAfter(sorted, next, points[k].timeUtc)
    {
      var flag;
      next, shares, flag := FlagOfPoint(trades, sorted, points[k].timeUtc, next, shares);
      LaterPoint(sorted, next, points, k);
      flags := flags + [flag];
    }
  }

  // ---------------------------------------------------------------- the parts

  datatype MetricPart = MetricPart(startCapital: real, range: TimeRange, curve: seq<EquityPoint>, trades: seq<Trade>,
                                   roundTrips: seq<RoundTrip>, positions: seq<bool>)

  function IsUpTo<T>(key: T -> int, timeUtc: int): T -> bool { x => key(x) <= timeUtc }

  function IsAfter<T>(key: T -> int, timeUtc: int): T -> bool { x => key(x) > timeUtc }

  function CountUpTo(curve: seq<EquityPoint>, timeUtc: int): (count: nat)
    ensures count <= |curve|
  {
    FilterIsShorter(curve, IsUpTo(PointTime, timeUtc));
    |Filter(curve, IsUpTo(PointTime, timeUtc))|
  }

  function InSample(capital: real, range: TimeRange, curve: seq<EquityPoint>, flags: seq<bool>, trades: seq<Trade>,
                    splitUtc: int): MetricPart
    requires |flags| == |curve|
  {
    var count := CountUpTo(curve, splitUtc);
    MetricPart(capital, TimeRange(range.startUtc, splitUtc), curve[..count], Filter(trades, IsUpTo(ByTime, splitUtc)),
               Filter(FoundRoundTrips(trades), IsUpTo(EndTime, splitUtc)), flags[..count])
  }

  function OutOfSample(capital: real, range: TimeRange, curve: seq<EquityPoint>, flags: seq<bool>, trades: seq<Trade>,
                       splitUtc: int): MetricPart
    requires |flags| == |curve|
  {
    var count := CountUpTo(curve, splitUtc);
    MetricPart(if count == 0 then capital else curve[count - 1].equityUsd,
               TimeRange(splitUtc, range.endUtc), curve[count..],
               Filter(trades, IsAfter(ByTime, splitUtc)), Filter(FoundRoundTrips(trades), IsAfter(EndTime, splitUtc)),
               flags[count..])
  }

  lemma AllUpTo<T>(s: seq<T>, key: T -> int, timeUtc: int)
    requires forall i :: 0 <= i < |s| ==> key(s[i]) <= timeUtc
    ensures Filter(s, IsUpTo(key, timeUtc)) == s && Filter(s, IsAfter(key, timeUtc)) == []
  {
    FilterAll(s, IsUpTo(key, timeUtc));
    FilterNone(s, IsAfter(key, timeUtc));
  }

  lemma SliceOfInit<T>(s: seq<T>, count: nat)
    requires s != [] && count < |s|
    ensures s[..|s| - 1][..count] == s[..count] && s[..|s| - 1][count..] + [s[|s| - 1]] == s[count..]
  {
  }

  lemma {:induction false} SortedSplits<T>(s: seq<T>, key: T -> int, timeUtc: int) returns (count: nat)
    requires SortedBy(s, key)
    ensures count <= |s|
    ensures Filter(s, IsUpTo(key, timeUtc)) == s[..count] && Filter(s, IsAfter(key, timeUtc)) == s[count..]
  {
    count := |s|;
    if s != [] {
      var init, last := s[..|s| - 1], s[|s| - 1];
      if key(last) <= timeUtc {
        AllUpTo(s, key, timeUtc);
      } else {
        count := SortedSplits(init, key, timeUtc);
        SliceOfInit(s, count);
      }
    }
  }

  /** The elements before and after `count` are those up to the time and those after it. */
  ghost predicate IsSplit<T>(s: seq<T>, key: T -> int, timeUtc: int, count: nat) {
    && count <= |s|
    && (forall i :: 0 <= i < count ==> key(s[i]) <= timeUtc) && (forall i :: count <= i < |s| ==> key(s[i]) > timeUtc)
  }

  lemma SplitByTime<T>(s: seq<T>, key: T -> int, timeUtc: int)
    requires SortedBy(s, key)
    ensures IsSplit(s, key, timeUtc, |Filter(s, IsUpTo(key, timeUtc))|)
  {
    var count := SortedSplits(s, key, timeUtc);
    forall i | 0 <= i < count ensures key(s[i]) <= timeUtc {
      FilterKeeps(s, IsUpTo(key, timeUtc), s[..count][i]);
    }
    forall i | count <= i < |s| ensures key(s[i]) > timeUtc {
      FilterKeeps(s, IsAfter(key, timeUtc), s[count..][i - count]);
    }
  }

  lemma FilterLast<T>(init: seq<T>, last: T, p: T -> bool)
    ensures multiset(Filter(init + [last], p)) == multiset(Filter(init, p)) + if p(last) then multiset{last}
                                                                              else multiset{}
  {
    assert (init + [last])[..|init|] == init;
  }

  lemma {:induction false} FilterPartitions<T>(s: seq<T>, key: T -> int, timeUtc: int)
    ensures multiset(Filter(s, IsUpTo(key, timeUtc))) + multiset(Filter(s, IsAfter(key, timeUtc))) == multiset(s)
  {
    if s != [] {
      var init, last := s[..|s| - 1], s[|s| - 1];
      FilterPartitions(init, key, timeUtc);
      assert s == init + [last];
      FilterLast(init, last, IsUpTo(key, timeUtc));
      FilterLast(init, last, IsAfter(key, timeUtc));
    }
  }

  /** The points and their flags before and after the split. */
  lemma PointsPartition(capital: real, range: TimeRange, curve: seq<EquityPoint>, flags: seq<bool>,
                        trades: seq<Trade>, splitUtc: int)
    requires |flags| == |curve| && SortedBy(curve, PointTime)
    ensures var a := InSample(capital, range, curve, flags, trades, splitUtc);
      var b := OutOfSample(capital, range, curve, flags, trades, splitUtc);
      && a.curve + b.curve == curve && a.positions + b.positions == flags
      && a.range.startUtc == range.startUtc && a.range.endUtc == b.range.startUtc == splitUtc
      && b.range.endUtc == range.endUtc
      && |a.positions| == |a.curve| && |b.positions| == |b.curve|
      && IsSplit(curve, PointTime, splitUtc, |a.curve|)
  {
    SplitByTime(curve, PointTime, splitUtc);
  }

  lemma FilteredTime<T>(s: seq<T>, key: T -> int, timeUtc: int)
    ensures forall x <- Filter(s, IsUpTo(key, timeUtc)) :: key(x) <= timeUtc
    ensures forall x <- Filter(s, IsAfter(key, timeUtc)) :: key(x) > timeUtc
  {
    forall x <- Filter(s, IsUpTo(key, timeUtc)) ensures key(x) <= timeUtc {
      FilterKeeps(s, IsUpTo(key, timeUtc), x);
    }
    forall x <- Filter(s, IsAfter(key, timeUtc)) ensures key(x) > timeUtc {
      FilterKeeps(s, IsAfter(key, timeUtc), x);
    }
  }

  /** Each fill is in exactly one part, by its time. */
  lemma FillsPartition(capital: real, range: TimeRange, curve: seq<EquityPoint>, flags: seq<bool>,
                       trades: seq<Trade>, splitUtc: int)
    requires |flags| == |curve|
    ensures var a := InSample(capital, range, curve, flags, trades, splitUtc);
      var b := OutOfSample(capital, range, curve, flags, trades, splitUtc);
      && multiset(a.trades) + multiset(b.trades) == multiset(trades)
      && (forall trade <- a.trades :: ByTime(trade) <= splitUtc)
      && (forall trade <- b.trades :: ByTime(trade) > splitUtc)
  {
    FilterPartitions(trades, ByTime, splitUtc);
    FilteredTime(trades, ByTime, splitUtc);
  }

  /** Each round trip is in the part where it ends. */
  lemma RoundTripsPartition(capital: real, range: TimeRange, curve: seq<EquityPoint>, flags: seq<bool>,
                            trades: seq<Trade>, splitUtc: int)
    requires |flags| == |curve|
    ensures var a := InSample(capital, range, curve, flags, trades, splitUtc);
      var b := OutOfSample(capital, range, curve, flags, trades, splitUtc);
      && a.roundTrips + b.roundTrips == FoundRoundTrips(trades)
      && (forall trip <- a.roundTrips :: EndTime(trip) <= splitUtc)
      && (forall trip <- b.roundTrips :: EndTime(trip) > splitUtc)
  {
    var trips := FoundRoundTrips(trades);
    assert SortedBy(trips, EndTime) by { SortSorts(TripsByKey(InstrumentKeys(trades), trades), EndTime); }
    FilteredTime(trips, EndTime, splitUtc);
    var count := SortedSplits(trips, EndTime, splitUtc);
  }

  // ---------------------------------------------------------------- the returns and the drawdowns of the parts

  function FinalEquity(part: MetricPart): real {
    if part.curve == [] then part.startCapital else part.curve[|part.curve| - 1].equityUsd
  }

  /** The total return as a fraction, not rounded. */
  function TotalReturn(part: MetricPart): real
    requires part.startCapital != 0.0
  {
    (FinalEquity(part) - part.startCapital) / part.startCapital
  }

  function WholeTest(capital: real, range: TimeRange, curve: seq<EquityPoint>, flags: seq<bool>,
                     trades: seq<Trade>): MetricPart {
    MetricPart(capital, range, curve, trades, FoundRoundTrips(trades), flags)
  }

  lemma GrowthOfTotalReturn(part: MetricPart)
    requires part.startCapital != 0.0
    ensures (1.0 + TotalReturn(part)) * part.startCapital == FinalEquity(part)
  {
    QuotientTimes(FinalEquity(part) - part.startCapital, part.startCapital);
  }

  /** The out-of-sample part starts where the in-sample part ends, and ends where the whole test ends. */
  lemma PartsFollow(capital: real, range: TimeRange, curve: seq<EquityPoint>, flags: seq<bool>,
                    trades: seq<Trade>, splitUtc: int)
    requires |flags| == |curve|
    ensures var a := InSample(capital, range, curve, flags, trades, splitUtc);
      var b := OutOfSample(capital, range, curve, flags, trades, splitUtc);
      && a.startCapital == capital && b.startCapital == FinalEquity(a)
      && FinalEquity(b) == FinalEquity(WholeTest(capital, range, curve, flags, trades))
  {
  }

  lemma PartsMultiply(a: MetricPart, b: MetricPart, whole: MetricPart)
    requires a.startCapital == whole.startCapital != 0.0 && b.startCapital == FinalEquity(a) != 0.0
    requires FinalEquity(b) == FinalEquity(whole)
    ensures (1.0 + TotalReturn(a)) * (1.0 + TotalReturn(b)) == 1.0 + TotalReturn(whole)
  {
    GrowthOfTotalReturn(a);
    GrowthOfTotalReturn(b);
    GrowthOfTotalReturn(whole);
    MultiplyGrowths(1.0 + TotalReturn(a), 1.0 + TotalReturn(b), 1.0 + TotalReturn(whole), a.startCapital,
                    b.startCapital, FinalEquity(b));
  }

  /** The growths of the 2 parts multiply to the growth of the whole test. */
  lemma ReturnsCompose(capital: real, range: TimeRange, curve: seq<EquityPoint>, flags: seq<bool>,
                       trades: seq<Trade>, splitUtc: int)
    requires |flags| == |curve| && capital != 0.0
    ensures var a := InSample(capital, range, curve, flags, trades, splitUtc);
      var b := OutOfSample(capital, range, curve, flags, trades, splitUtc);
      && b.startCapital == FinalEquity(a) && a.startCapital == capital
      && (b.startCapital != 0.0 ==>
            (1.0 + TotalReturn(a)) * (1.0 + TotalReturn(b))
              == 1.0 + TotalReturn(WholeTest(capital, range, curve, flags, trades)))
  {
    PartsFollow(capital, range, curve, flags, trades, splitUtc);
    var b := OutOfSample(capital, range, curve, flags, trades, splitUtc);
    if b.startCapital != 0.0 {
      PartsMultiply(InSample(capital, range, curve, flags, trades, splitUtc), b,
                    WholeTest(capital, range, curve, flags, trades));
    }
  }

  lemma MultiplyGrowths(a: real, b: real, whole: real, start: real, middle: real, end: real)
    requires start != 0.0 && a * start == middle && b * middle == end && whole * start == end
    ensures a * b == whole
  {
    assert (a * b) * start == b * (a * start);
    assert (a * b - whole) * start == 0.0;
    ProductNonZero(a * b - whole, start);
  }

  /** The total return of a part divides by its start capital, and the drawdown by each later running peak. */
  ghost predicate DividesByZero(part: MetricPart) {
    || part.startCapital == 0.0
    || exists j :: 0 < j <= |part.curve| && Peak(Points(part.startCapital, part.curve), j) == 0.0
  }

  /** A part that starts below 0 reaches exactly 0 before an equity above 0. */
  ghost predicate ReachesZeroFromBelow(part: MetricPart) {
    && part.startCapital < 0.0
    && exists j :: 0 <= j < |part.curve| && IsFirstZero(part.curve, j)
  }

  ghost predicate IsFirstZero(curve: seq<EquityPoint>, j: int)
    requires 0 <= j < |curve|
  {
    curve[j].equityUsd == 0.0 && forall i :: 0 <= i < j ==> curve[i].equityUsd <= 0.0
  }

  lemma PeakIsZero(points: seq<real>, j: nat)
    requires j < |points|
    ensures Peak(points, j) == 0.0 <==>
              (forall i :: 0 <= i <= j ==> points[i] <= 0.0) && exists i :: 0 <= i <= j && points[i] == 0.0
  {
    var at := PeakIsLargestPoint(points, j);
  }

  lemma ZeroFromBelow(part: MetricPart, j: nat)
    requires j < |part.curve| && part.startCapital < 0.0 && IsFirstZero(part.curve, j)
    ensures Peak(Points(part.startCapital, part.curve), j + 1) == 0.0
  {
    var points := Points(part.startCapital, part.curve);
    PeakIsZero(points, j + 1);
    forall i | 0 <= i <= j + 1 ensures points[i] <= 0.0 {
    }
    assert points[j + 1] == 0.0;
  }

  lemma ZeroPeakFromBelow(part: MetricPart, j: nat)
    requires 0 < j <= |part.curve| && part.startCapital < 0.0
    requires Peak(Points(part.startCapital, part.curve), j) == 0.0
    ensures ReachesZeroFromBelow(part)
  {
    var points := Points(part.startCapital, part.curve);
    PeakIsZero(points, j);
    var i :| 0 <= i <= j && points[i] == 0.0;
    forall m | 0 <= m < i - 1 ensures part.curve[m].equityUsd <= 0.0 {
      assert points[m + 1] <= 0.0;
    }
    assert IsFirstZero(part.curve, i - 1);
  }

  lemma PositivePartIsDefined(part: MetricPart)
    requires part.startCapital > 0.0
    ensures !DividesByZero(part)
  {
    forall j | 0 <= j <= |part.curve| ensures Peak(Points(part.startCapital, part.curve), j) != 0.0 {
      PositiveCapitalHasPeak(Points(part.startCapital, part.curve), j);
    }
  }

  /**
   * A part divides by 0 exactly when it starts with 0, or starts
   * below 0 and reaches exactly 0 before an equity above 0.
   */
  lemma PartDividesByZero(part: MetricPart)
    ensures DividesByZero(part) <==> part.startCapital == 0.0 || ReachesZeroFromBelow(part)
  {
    if part.startCapital > 0.0 {
      PositivePartIsDefined(part);
    } else if part.startCapital < 0.0 {
      if DividesByZero(part) {
        var j :| 0 < j <= |part.curve| && Peak(Points(part.startCapital, part.curve), j) == 0.0;
        ZeroPeakFromBelow(part, j);
      }
      if ReachesZeroFromBelow(part) {
        var j :| 0 <= j < |part.curve| && IsFirstZero(part.curve, j);
        ZeroFromBelow(part, j);
      }
    }
  }

  /**
   * With a capital above 0, the whole test and the in-sample part
   * are defined, and the out-of-sample part divides by 0 exactly for such a curve.
   */
  lemma SplitDividesByZero(capital: real, range: TimeRange, curve: seq<EquityPoint>, flags: seq<bool>,
                           trades: seq<Trade>, splitUtc: int)
    requires |flags| == |curve| && capital > 0.0
    ensures !DividesByZero(WholeTest(capital, range, curve, flags, trades))
    ensures !DividesByZero(InSample(capital, range, curve, flags, trades, splitUtc))
    ensures var b := OutOfSample(capital, range, curve, flags, trades, splitUtc);
      DividesByZero(b) <==> b.startCapital == 0.0 || ReachesZeroFromBelow(b)
  {
    PositivePartIsDefined(WholeTest(capital, range, curve, flags, trades));
    PositivePartIsDefined(InSample(capital, range, curve, flags, trades, splitUtc));
    PartDividesByZero(OutOfSample(capital, range, curve, flags, trades, splitUtc));
  }

  /** `fall` is the drawdown of the part. */
  ghost predicate IsDrawdown(part: MetricPart, fall: real) { IsFall(Points(part.startCapital, part.curve), fall) }

  /** Each point of a part is a point of the whole test, in the same order. */
  lemma PrefixPoints(capital: real, curve: seq<EquityPoint>, count: nat)
    requires count <= |curve|
    ensures Points(capital, curve[..count]) == Points(capital, curve)[0..count + 1]
  {
  }

  lemma SuffixPoints(capital: real, curve: seq<EquityPoint>, count: nat, start: real)
    requires count <= |curve| && start == if count == 0 then capital else curve[count - 1].equityUsd
    ensures Points(start, curve[count..]) == Points(capital, curve)[count..|curve| + 1]
  {
  }

  ghost predicate IsFall(points: seq<real>, fall: real) { IsLargest(FallBelowPeak(points), |points|, fall) }

  ghost predicate ArePositive(points: seq<real>) { forall i :: 0 <= i < |points| ==> points[i] > 0.0 }

  /** The largest fall of consecutive points is at most the largest fall of all points. */
  lemma DrawdownOfSlice(points: seq<real>, from: nat, to: nat, slice: seq<real>, whole: real, part: real)
    requires from < to <= |points| && slice == points[from..to] && ArePositive(points)
    requires IsFall(points, whole) && IsFall(slice, part)
    ensures part <= whole
  {
    assert slice[0] == points[from];
    var i, j := FallIsAPairFall(slice, part);
    PairFallOfValues(points, whole, from + i, from + j, slice[i], slice[j], part);
  }

  lemma PairFallOfValues(points: seq<real>, whole: real, i: nat, j: nat, before: real, after: real, fall: real)
    requires i <= j < |points| && ArePositive(points) && IsFall(points, whole)
    requires before == points[i] && after == points[j] && FallPercent(before, after) == fall
    ensures fall <= whole
  {
    PairFallIsAtMost(points, whole, i, j);
  }

  lemma PositivePoints(capital: real, curve: seq<EquityPoint>)
    requires capital > 0.0 && forall i :: 0 <= i < |curve| ==> curve[i].equityUsd > 0.0
    ensures ArePositive(Points(capital, curve))
  {
  }

  lemma DrawdownOfPrefix(capital: real, curve: seq<EquityPoint>, count: nat, whole: real, part: real)
    requires count <= |curve| && ArePositive(Points(capital, curve))
    requires IsFall(Points(capital, curve), whole) && IsFall(Points(capital, curve[..count]), part)
    ensures part <= whole
  {
    PrefixPoints(capital, curve, count);
    DrawdownOfSlice(Points(capital, curve), 0, count + 1, Points(capital, curve[..count]), whole, part);
  }

  lemma DrawdownOfSuffix(capital: real, curve: seq<EquityPoint>, count: nat, start: real, whole: real, part: real)
    requires count <= |curve| && ArePositive(Points(capital, curve))
    requires start == if count == 0 then capital else curve[count - 1].equityUsd
    requires IsFall(Points(capital, curve), whole) && IsFall(Points(start, curve[count..]), part)
    ensures part <= whole
  {
    SuffixPoints(capital, curve, count, start);
    DrawdownOfSlice(Points(capital, curve), count, |curve| + 1, Points(start, curve[count..]), whole, part);
  }

  /** With positive equities, no part falls more than the whole test. */
  lemma DrawdownsOfPartsAreWithinWhole(capital: real, range: TimeRange, curve: seq<EquityPoint>,
                                       flags: seq<bool>, trades: seq<Trade>,
                                       splitUtc: int, whole: real, inSample: real, outOfSample: real)
    requires |flags| == |curve|
    requires capital > 0.0 && forall i :: 0 <= i < |curve| ==> curve[i].equityUsd > 0.0
    requires IsDrawdown(WholeTest(capital, range, curve, flags, trades), whole)
    requires IsDrawdown(InSample(capital, range, curve, flags, trades, splitUtc), inSample)
    requires IsDrawdown(OutOfSample(capital, range, curve, flags, trades, splitUtc), outOfSample)
    ensures inSample <= whole && outOfSample <= whole
  {
    var count := CountUpTo(curve, splitUtc);
    PositivePoints(capital, curve);
    DrawdownOfPrefix(capital, curve, count, whole, inSample);
    DrawdownOfSuffix(capital, curve, count,
                     OutOfSample(capital, range, curve, flags, trades, splitUtc).startCapital, whole, outOfSample);
  }

  // ---------------------------------------------------------------- the split time

  /** `timedelta / 100` rounds to the nearest microsecond, and a half to the even one. */
  function RoundHalfEven(amount: int): int {
    var floor, rest := amount / 100, amount % 100;
    if rest > 50 || (rest == 50 && floor % 2 == 1) then floor + 1 else floor
  }

  /** It is the nearest number, and of 2 nearest ones the even one: these 2 facts determine it. */
  lemma HalfGoesToEven(amount: int, rounded: int)
    ensures rounded == RoundHalfEven(amount)
       <==> -50 <= 100 * rounded - amount <= 50
            && (100 * rounded - amount == 50 || 100 * rounded - amount == -50 ==> rounded % 2 == 0)
  {
  }

  function FindSplitTime(range: TimeRange, share: int): Option<int> {
    if share == 0 then None else Some(range.startUtc + RoundHalfEven((range.endUtc - range.startUtc) * (100 - share)))
  }

  lemma SplitOfShare(range: TimeRange, share: int)
    requires range.startUtc <= range.endUtc && 0 < share < 100
    ensures var split := FindSplitTime(range, share).value; var length := range.endUtc - range.startUtc;
      && range.startUtc <= split <= range.endUtc
      && -50 <= 100 * (split - range.startUtc) - length * (100 - share) <= 50
      && (length >= 100 ==> range.startUtc < split < range.endUtc)
  {
    var length := range.endUtc - range.startUtc;
    assert length * (100 - share) == 100 * length - length * share;
    assert length * share >= length && length * (100 - share) >= length;
  }

  /**
   * Without an out-of-sample share there is no split. Else the split time is in the range, within
   * half a microsecond of the share, and inside a range of 100 microseconds or more.
   */
  lemma SplitTimeIsInRange(range: TimeRange, share: int)
    requires range.startUtc <= range.endUtc && 0 <= share < 100
    ensures FindSplitTime(range, share).None? <==> share == 0
    ensures share > 0 ==>
              var split := FindSplitTime(range, share).value; var length := range.endUtc - range.startUtc;
              && range.startUtc <= split <= range.endUtc
              && -50 <= 100 * (split - range.startUtc) - length * (100 - share) <= 50
              && (length >= 100 ==> range.startUtc < split < range.endUtc)
  {
    if share > 0 {
      SplitOfShare(range, share);
    }
  }
}
