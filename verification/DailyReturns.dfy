/** The daily returns of an equity curve, and the curve with only the last point of each UTC date. */
module DailyReturns {
  import opened Sequences
  import opened Bars
  import opened Trades
  import opened Reals

  function Day(point: EquityPoint): int { point.timeUtc / DAY }

  /** The date of a point is the UTC day that contains its time. */
  lemma DayContainsPoint(point: EquityPoint, day: int)
    ensures Day(point) == day <==> day * DAY <= point.timeUtc < (day + 1) * DAY
  {
  }

  // ---------------------------------------------------------------- the last point of each day

  function DropLast<T>(s: seq<T>): seq<T>
    requires s != []
  {
    s[..|s| - 1]
  }

  function Last<T>(s: seq<T>): T
    requires s != []
  {
    s[|s| - 1]
  }

  /** The last element of each run of elements of one group. */
  function LastOfEach<T>(s: seq<T>, group: T -> int): (lasts: seq<T>)
    ensures s != [] ==> lasts != [] && Last(lasts) == Last(s)
    ensures |lasts| <= |s|
  {
    if s == [] then []
    else
      var init := DropLast(s);
      var before := LastOfEach(init, group);
      (if init != [] && group(Last(init)) == group(Last(s)) then DropLast(before) else before) + [Last(s)]
  }

  /** The last point of each date. */
  function DayLasts(points: seq<EquityPoint>): (lasts: seq<EquityPoint>)
    ensures points != [] ==> lasts != [] && Last(lasts) == Last(points)
  {
    LastOfEach(points, Day)
  }

  function Equities(points: seq<EquityPoint>): (equities: seq<real>)
    ensures |equities| == |points| && forall i :: 0 <= i < |points| ==> equities[i] == points[i].equityUsd
  {
    seq(|points|, i requires 0 <= i < |points| => points[i].equityUsd)
  }

  function ReturnOf(before: real, equity: real): real
    requires before != 0.0
  {
    equity / before - 1.0
  }

  function LastOr(start: real, closes: seq<real>): real {
    if closes == [] then start else Last(closes)
  }

  /** A day after an equity of 0 has no return. */
  function Returns(start: real, closes: seq<real>): seq<real> {
    if closes == [] then []
    else
      var before := LastOr(start, DropLast(closes));
      Returns(start, DropLast(closes)) + if before != 0.0 then [ReturnOf(before, Last(closes))] else []
  }

  function DailyReturnsOf(start: real, curve: seq<EquityPoint>): seq<real> {
    Returns(start, Equities(DayLasts(SortBy(curve, PointTime))))
  }

  /** The dictionary by date, `days` in its insertion order. */
  ghost predicate IsByDay(days: seq<int>, byDay: map<int, real>, points: seq<EquityPoint>) {
    var lasts := DayLasts(points);
    && |days| == |lasts|
    && Ascending(days)
    && (forall day :: day in days <==> day in byDay)
    && (forall i :: 0 <= i < |days| ==> days[i] == Day(lasts[i]) && byDay[days[i]] == lasts[i].equityUsd)
  }

  lemma LastDay(days: seq<int>, byDay: map<int, real>, points: seq<EquityPoint>)
    requires IsByDay(days, byDay, points) && points != []
    ensures days != [] && days[|days| - 1] == Day(Last(points)) && Day(Last(points)) in byDay
    ensures forall day :: day in byDay ==> day <= Day(Last(points))
  {
    var lasts := DayLasts(points);
    assert lasts[|lasts| - 1] == Last(points);
    assert days[|days| - 1] in days;
    forall day | day in byDay ensures day <= Day(Last(points)) {
      assert day in days;
      var i :| 0 <= i < |days| && days[i] == day;
    }
  }

  /** A point of the last date takes the place of its equity. */
  lemma AddSameDay(days: seq<int>, byDay: map<int, real>, points: seq<EquityPoint>, point: EquityPoint)
    requires IsByDay(days, byDay, points) && points != [] && Day(Last(points)) == Day(point)
    ensures IsByDay(days, byDay[Day(point) := point.equityUsd], points + [point])
  {
    LastDay(days, byDay, points);
    assert DropLast(points + [point]) == points && Last(points + [point]) == point;
    assert DayLasts(points + [point]) == DropLast(DayLasts(points)) + [point];
  }

  lemma AddNewDay(days: seq<int>, byDay: map<int, real>, points: seq<EquityPoint>, point: EquityPoint)
    requires IsByDay(days, byDay, points) && forall day :: day in byDay ==> day < Day(point)
    requires points != [] ==> Day(Last(points)) != Day(point)
    ensures IsByDay(days + [Day(point)], byDay[Day(point) := point.equityUsd], points + [point])
  {
    assert DropLast(points + [point]) == points && Last(points + [point]) == point;
    assert DayLasts(points + [point]) == DayLasts(points) + [point];
    AscendingAppend(days, Day(point));
  }

  lemma AddDay(days: seq<int>, byDay: map<int, real>, points: seq<EquityPoint>, point: EquityPoint)
    requires IsByDay(days, byDay, points)
    requires points != [] ==> Last(points).timeUtc <= point.timeUtc
    ensures IsByDay(if Day(point) in byDay then days else days + [Day(point)],
                    byDay[Day(point) := point.equityUsd], points + [point])
  {
    if points != [] {
      LastDay(days, byDay, points);
    }
    if points != [] && Day(Last(points)) == Day(point) {
      AddSameDay(days, byDay, points, point);
    } else {
      AddNewDay(days, byDay, points, point);
    }
  }

  method FindDayCloses(sorted: seq<EquityPoint>) returns (closes: seq<real>)
    requires SortedBy(sorted, PointTime)
    ensures closes == Equities(DayLasts(sorted))
  {
    var days: seq<int> := [];
    var byDay: map<int, real> := map[];
    for k := 0 to |sorted|
      invariant IsByDay(days, byDay, sorted[..k])
    {
      var point := sorted[k];
      TakeNext(sorted, k);
      assert k > 0 ==> PointTime(sorted[k - 1]) <= PointTime(point);
      AddDay(days, byDay, sorted[..k], point);
      if Day(point) !in byDay {
        days := days + [Day(point)];
      }
      byDay := byDay[Day(point) := point.equityUsd];
    }
    assert sorted[..|sorted|] == sorted;
    closes := seq(|days|, i requires 0 <= i < |days| && days[i] in byDay => byDay[days[i]]);
  }

  method CalculateDailyReturns(startCapital: real, curve: seq<EquityPoint>) returns (dailyReturns: seq<real>)
    ensures dailyReturns == DailyReturnsOf(startCapital, curve)
  {
    SortSorts(curve, PointTime);
    var closes := FindDayCloses(SortBy(curve, PointTime));
    dailyReturns := [];
    var equityBefore := startCapital;
    for k := 0 to |closes|
      invariant equityBefore == LastOr(startCapital, closes[..k])
      invariant dailyReturns == Returns(startCapital, closes[..k])
    {
      assert DropLast(closes[..k + 1]) == closes[..k];
      if equityBefore != 0.0 {
        dailyReturns := dailyReturns + [ReturnOf(equityBefore, closes[k])];
      }
      equityBefore := closes[k];
    }
    assert closes[..|closes|] == closes;
  }

  // ---------------------------------------------------------------- the daily thinning

  /** No later element is of the same group. */
  ghost predicate IsLastOfGroup<T>(s: seq<T>, key: T -> int, group: T -> int, x: T) {
    x in s && forall other <- s :: group(other) == group(x) ==> key(other) <= key(x)
  }

  ghost predicate IsGrouped<T>(s: seq<T>, key: T -> int, group: T -> int) {
    StrictlySortedBy(s, key) && forall i, j :: 0 <= i < j < |s| ==> group(s[i]) <= group(s[j])
  }

  lemma {:induction false} LastOfEachIsSorted<T>(s: seq<T>, key: T -> int, group: T -> int)
    requires IsGrouped(s, key, group)
    ensures StrictlySortedBy(LastOfEach(s, group), key)
    ensures forall x <- LastOfEach(s, group) :: x in s
  {
    if s != [] {
      var init := DropLast(s);
      LastOfEachIsSorted(init, key, group);
      assert s == init + [Last(s)];
      forall x <- init ensures key(x) < key(Last(s)) {
        var i :| 0 <= i < |init| && init[i] == x;
        assert key(s[i]) < key(s[|s| - 1]);
      }
    }
  }

  lemma EarlierThanLast<T>(s: seq<T>, key: T -> int, group: T -> int, x: T)
    requires IsGrouped(s, key, group) && s != []
    ensures x in DropLast(s) <==> x in s && x != Last(s)
    ensures x in DropLast(s) ==> key(x) < key(Last(s)) && group(x) <= group(Last(s))
  {
    assert s == DropLast(s) + [Last(s)];
    if x in DropLast(s) {
      var i :| 0 <= i < |s| - 1 && s[i] == x;
      assert key(s[i]) < key(s[|s| - 1]);
    }
  }

  lemma LastOfInit<T>(s: seq<T>, key: T -> int, group: T -> int, x: T)
    requires IsGrouped(s, key, group) && s != [] && x in DropLast(s)
    ensures IsLastOfGroup(s, key, group, x) <==> IsLastOfGroup(DropLast(s), key, group, x) && group(x) != group(Last(s))
  {
    EarlierThanLast(s, key, group, x);
    forall other ensures other in s <==> other in DropLast(s) || other == Last(s) {
      EarlierThanLast(s, key, group, other);
    }
  }

  lemma LastGroupOfInit<T>(s: seq<T>, key: T -> int, group: T -> int, x: T)
    requires IsGrouped(s, key, group) && s != [] && IsLastOfGroup(s, key, group, x)
    ensures group(x) == group(Last(s)) <==> x == Last(s)
  {
    EarlierThanLast(s, key, group, x);
    assert Last(s) in s;
  }

  lemma LastIsLastOfGroup<T>(s: seq<T>, key: T -> int, group: T -> int)
    requires IsGrouped(s, key, group) && s != []
    ensures Last(s) in LastOfEach(s, group) && IsLastOfGroup(s, key, group, Last(s))
  {
    assert Last(s) in s;
    forall other <- s ensures key(other) <= key(Last(s)) {
      EarlierThanLast(s, key, group, other);
    }
  }

  lemma {:induction false} LastOfEachMeaning<T>(s: seq<T>, key: T -> int, group: T -> int, x: T)
    requires IsGrouped(s, key, group)
    ensures x in LastOfEach(s, group) <==> IsLastOfGroup(s, key, group, x)
  {
    if s != [] {
      var init, last, lasts := DropLast(s), Last(s), LastOfEach(DropLast(s), group);
      LastOfEachMeaning(init, key, group, x);
      LastOfEachIsSorted(init, key, group);
      EarlierThanLast(s, key, group, x);
      if x == last {
        LastIsLastOfGroup(s, key, group);
      } else if x in init {
        LastOfInit(s, key, group, x);
        LastInDropLast(lasts, key, x);
        assert Last(init) == init[|init| - 1] && group(s[|init| - 1]) <= group(s[|init|]);
        if IsLastOfGroup(init, key, group, x) {
          LastGroupOfInit(init, key, group, x);
        }
        if init != [] && group(Last(init)) != group(last) {
          EarlierGroup(init, key, group, x);
        }
      }
    }
  }

  lemma EarlierGroup<T>(s: seq<T>, key: T -> int, group: T -> int, x: T)
    requires IsGrouped(s, key, group) && x in s
    ensures group(x) <= group(Last(s))
  {
    var i :| 0 <= i < |s| && s[i] == x;
  }

  lemma LastInDropLast<T>(s: seq<T>, key: T -> int, x: T)
    requires StrictlySortedBy(s, key)
    ensures s != [] ==> (x in DropLast(s) <==> x in s && x != Last(s))
  {
    if s != [] {
      assert s == DropLast(s) + [Last(s)];
      if x in DropLast(s) {
        var i :| 0 <= i < |s| - 1 && s[i] == x;
        assert key(s[i]) < key(s[|s| - 1]);
      }
    }
  }

  /** No later point of the list is of the same date. */
  ghost predicate IsDayLast(points: seq<EquityPoint>, point: EquityPoint) {
    IsLastOfGroup(points, PointTime, Day, point)
  }

  lemma DatesAreOrdered(points: seq<EquityPoint>)
    requires StrictlySortedBy(points, PointTime)
    ensures IsGrouped(points, PointTime, Day)
  {
    forall i, j | 0 <= i < j < |points| ensures Day(points[i]) <= Day(points[j]) {
      assert PointTime(points[i]) < PointTime(points[j]);
    }
  }

  lemma DayLastsMeaning(points: seq<EquityPoint>)
    requires StrictlySortedBy(points, PointTime)
    ensures StrictlySortedBy(DayLasts(points), PointTime)
    ensures forall point :: point in DayLasts(points) <==> IsDayLast(points, point)
  {
    DatesAreOrdered(points);
    LastOfEachIsSorted(points, PointTime, Day);
    forall point ensures point in DayLasts(points) <==> IsDayLast(points, point) {
      LastOfEachMeaning(points, PointTime, Day, point);
    }
  }

  /** What the query returns for one test: the last point of each UTC date, in time order. */
  ghost predicate IsDailyThinning(thin: seq<EquityPoint>, full: seq<EquityPoint>) {
    StrictlySortedBy(thin, PointTime) && forall point :: point in thin <==> IsDayLast(full, point)
  }

  lemma StrictIsSorted(points: seq<EquityPoint>)
    requires StrictlySortedBy(points, PointTime)
    ensures SortBy(points, PointTime) == points
  {
    SortOfSorted(points, PointTime);
  }

  /** The thinned curve gives the same daily returns. The table has 1 point for each time of a test. */
  lemma ThinningKeepsDailyReturns(start: real, full: seq<EquityPoint>, thin: seq<EquityPoint>)
    requires StrictlySortedBy(full, PointTime) && IsDailyThinning(thin, full)
    ensures DailyReturnsOf(start, thin) == DailyReturnsOf(start, full)
  {
    StrictIsSorted(full);
    StrictIsSorted(thin);
    DayLastsMeaning(full);
    StrictlySortedIsUnique(thin, DayLasts(full), PointTime);
    DayLastsMeaning(thin);
    forall point ensures point in DayLasts(thin) <==> point in thin {
      if point in thin {
        forall other <- thin | Day(other) == Day(point) ensures other.timeUtc <= point.timeUtc {
          assert IsDayLast(full, other) && IsDayLast(full, point);
        }
        assert IsDayLast(thin, point);
      }
    }
    StrictlySortedIsUnique(DayLasts(thin), thin, PointTime);
  }

  /** A row of the query: a test and a point. */
  datatype CurveRow = CurveRow(backtestId: int, point: EquityPoint)

  function PointsOf(rows: seq<CurveRow>, backtestId: int): seq<EquityPoint> {
    if rows == [] then []
    else PointsOf(DropLast(rows), backtestId) + if Last(rows).backtestId == backtestId then [Last(rows).point] else []
  }

  /** Each test gets its own rows in their order, and a test without rows an empty curve. */
  method SelectDailyEquityCurves(backtestIds: seq<int>, rows: seq<CurveRow>)
    returns (curves: map<int, seq<EquityPoint>>)
    requires forall row <- rows :: row.backtestId in backtestIds
    ensures forall id :: id in curves <==> id in backtestIds
    ensures forall id <- backtestIds :: curves[id] == PointsOf(rows, id)
  {
    curves := map id | id in backtestIds :: [];
    for k := 0 to |rows|
      invariant forall id :: id in curves <==> id in backtestIds
      invariant forall id <- backtestIds :: curves[id] == PointsOf(rows[..k], id)
    {
      assert rows[k] in rows;
      assert DropLast(rows[..k + 1]) == rows[..k];
      curves := curves[rows[k].backtestId := curves[rows[k].backtestId] + [rows[k].point]];
    }
    assert rows[..|rows|] == rows;
  }

  /** The curve of a test has its rows, in their order: row by row, and of no other test. */
  lemma {:induction false} CurveHasOwnRows(rows: seq<CurveRow>, backtestId: int)
    ensures var own := Filter(rows, (row: CurveRow) => row.backtestId == backtestId);
      |PointsOf(rows, backtestId)| == |own|
      && forall i :: 0 <= i < |own| ==> PointsOf(rows, backtestId)[i] == own[i].point
  {
    if rows != [] {
      var isOwn := (row: CurveRow) => row.backtestId == backtestId;
      CurveHasOwnRows(DropLast(rows), backtestId);
      FilterAppend(DropLast(rows), [Last(rows)], isOwn);
      FilterOne(Last(rows), isOwn);
      assert rows == DropLast(rows) + [Last(rows)];
    }
  }

  // ---------------------------------------------------------------- the product of the daily returns

  /** The product of 1 plus each return. */
  function Growth(changes: seq<real>): real {
    if changes == [] then 1.0 else Growth(DropLast(changes)) * (1.0 + Last(changes))
  }

  ghost predicate HasZeroBeforeLast(closes: seq<real>) {
    exists i :: 0 <= i < |closes| - 1 && closes[i] == 0.0
  }

  lemma GrowthStep(growth: real, start: real, before: real, equity: real)
    requires start != 0.0 && before != 0.0 && growth == before / start
    ensures growth * (1.0 + ReturnOf(before, equity)) == equity / start
  {
    QuotientTimes(before, start);
    QuotientTimes(equity, before);
    assert (growth * (equity / before)) * start == (growth * start) * (equity / before);
    QuotientIs(equity, start, growth * (equity / before));
  }

  lemma {:induction false} GrowthOfReturns(start: real, closes: seq<real>)
    requires start != 0.0
    ensures Growth(Returns(start, closes)) == if HasZeroBeforeLast(closes) then 0.0 else LastOr(start, closes) / start
  {
    if closes == [] {
      QuotientIs(start, start, 1.0);
    } else {
      var init, before := DropLast(closes), LastOr(start, DropLast(closes));
      GrowthOfReturns(start, init);
      ZeroBeforeLast(closes);
      if before != 0.0 {
        var changes := Returns(start, closes);
        assert DropLast(changes) == Returns(start, init);
        if !HasZeroBeforeLast(init) {
          GrowthStep(Growth(DropLast(changes)), start, before, Last(closes));
        }
      } else {
        assert Returns(start, closes) == Returns(start, init);
        assert init != [] && Last(init) == 0.0;
        QuotientIs(before, start, 0.0);
      }
    }
  }

  lemma ZeroBeforeLast(closes: seq<real>)
    requires closes != []
    ensures HasZeroBeforeLast(closes)
       <==> HasZeroBeforeLast(DropLast(closes)) || (|closes| > 1 && Last(DropLast(closes)) == 0.0)
  {
    var init := DropLast(closes);
    if HasZeroBeforeLast(init) {
      var i :| 0 <= i < |init| - 1 && init[i] == 0.0;
      assert closes[i] == 0.0;
    }
    if |closes| > 1 && Last(init) == 0.0 {
      assert closes[|closes| - 2] == 0.0;
    }
    if HasZeroBeforeLast(closes) {
      var i :| 0 <= i < |closes| - 1 && closes[i] == 0.0;
      assert init[i] == 0.0;
    }
  }

  lemma ClosesCompound(start: real, closes: seq<real>)
    requires start != 0.0
    ensures Growth(Returns(start, closes)) == LastOr(start, closes) / start
       <==> LastOr(start, closes) == 0.0 || !HasZeroBeforeLast(closes)
  {
    GrowthOfReturns(start, closes);
    QuotientZero(LastOr(start, closes), start);
  }

  /** The returns multiply to the whole return exactly when the last equity is 0 or no daily equity before it is 0. */
  lemma ReturnsCompound(start: real, curve: seq<EquityPoint>)
    requires start != 0.0
    ensures var closes := Equities(DayLasts(SortBy(curve, PointTime)));
      Growth(DailyReturnsOf(start, curve)) == LastOr(start, closes) / start
      <==> LastOr(start, closes) == 0.0 || !HasZeroBeforeLast(closes)
  {
    ClosesCompound(start, Equities(DayLasts(SortBy(curve, PointTime))));
  }
}
