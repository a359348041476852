/** The universe periods that the platform makes: of the recorded quarters of a forward test, and of a screen. */
module RecordedPeriods {
  import opened Sequences
  import opened Bars
  import opened UniverseRanges

  // ---------------------------------------------------------------- the recorded quarters of a forward test

  /** The last quarter that starts at or before the time. */
  function LatestQuarter(quarters: seq<int>, timeUtc: int): Option<int> {
    if quarters == [] then None
    else
      var last := quarters[|quarters| - 1];
      if last <= timeUtc then Some(last) else LatestQuarter(quarters[..|quarters| - 1], timeUtc)
  }

  /** The latest of these quarters that is not after the time, or none. */
  ghost predicate IsLatestQuarter(quarters: seq<int>, timeUtc: int, found: Option<int>) {
    match found
    case None => forall quarter <- quarters :: quarter > timeUtc
    case Some(latest) =>
      && latest in quarters && latest <= timeUtc
      && forall quarter <- quarters :: quarter <= timeUtc ==> quarter <= latest
  }

  lemma LastQuarterIsLatest(init: seq<int>, last: int, timeUtc: int)
    requires Ascending(init + [last])
    ensures last <= timeUtc ==> IsLatestQuarter(init + [last], timeUtc, Some(last))
    ensures forall found :: last > timeUtc && IsLatestQuarter(init, timeUtc, found) ==>
              IsLatestQuarter(init + [last], timeUtc, found)
  {
    forall quarter <- init ensures quarter < last {
      var i :| 0 <= i < |init| && init[i] == quarter;
      assert (init + [last])[i] < (init + [last])[|init|];
    }
  }

  lemma {:induction false} LatestQuarterIsLargest(quarters: seq<int>, timeUtc: int)
    requires Ascending(quarters)
    ensures IsLatestQuarter(quarters, timeUtc, LatestQuarter(quarters, timeUtc))
  {
    if quarters != [] {
      var init, last := quarters[..|quarters| - 1], quarters[|quarters| - 1];
      assert quarters == init + [last];
      LatestQuarterIsLargest(init, timeUtc);
      LastQuarterIsLatest(init, last, timeUtc);
    }
  }

  function FindMembers(members: map<int, seq<Instrument>>, quarter: Option<int>): Option<seq<Instrument>> {
    if quarter.Some? && quarter.value in members then Some(members[quarter.value]) else None
  }

  /** The members of the last period that starts at or before the time. */
  function MembersAt(periods: seq<Period>, timeUtc: int): Option<seq<Instrument>> {
    if periods == [] then None
    else
      var last := periods[|periods| - 1];
      if last.startUtc <= timeUtc then Some(last.members) else MembersAt(periods[..|periods| - 1], timeUtc)
  }

  ghost predicate StartsInside(periods: seq<Period>, range: TimeRange) {
    && (forall i, j :: 0 <= i < j < |periods| ==> periods[i].startUtc < periods[j].startUtc)
    && (forall i :: 0 <= i < |periods| ==> range.startUtc <= periods[i].startUtc < range.endUtc)
  }

  /** At each time of the range, the periods hold the members of the latest quarter, and none before all quarters. */
  ghost predicate HoldsLatestMembers(periods: seq<Period>, quarters: seq<int>,
                                     members: map<int, seq<Instrument>>, range: TimeRange) {
    forall time :: Contains(range, time) ==>
      MembersAt(periods, time) == FindMembers(members, LatestQuarter(quarters, time))
  }

  ghost predicate EndsBefore(periods: seq<Period>, quarters: seq<int>, range: TimeRange) {
    periods != [] ==> quarters != [] && periods[|periods| - 1].startUtc <= Max(quarters[|quarters| - 1], range.startUtc)
  }

  /** One more quarter replaces the period of the same start: both started at or before the range. */
  function AddQuarter(periods: seq<Period>, quarter: int, members: seq<Instrument>, range: TimeRange): seq<Period> {
    var startUtc := Max(quarter, range.startUtc);
    if startUtc >= range.endUtc then periods
    else
      var n := |periods|;
      (if n > 0 && periods[n - 1].startUtc == startUtc then periods[..n - 1] else periods) + [Period(startUtc, members)]
  }

  lemma AddQuarterStartsInside(periods: seq<Period>, quarters: seq<int>, quarter: int,
                               members: seq<Instrument>, range: TimeRange)
    requires StartsInside(periods, range) && EndsBefore(periods, quarters, range) && Ascending(quarters + [quarter])
    ensures StartsInside(AddQuarter(periods, quarter, members, range), range)
    ensures EndsBefore(AddQuarter(periods, quarter, members, range), quarters + [quarter], range)
  {
    if quarters != [] {
      assert (quarters + [quarter])[|quarters| - 1] < (quarters + [quarter])[|quarters|];
    }
  }

  lemma AddQuarterHoldsLatest(periods: seq<Period>, quarters: seq<int>, quarter: int,
                              members: map<int, seq<Instrument>>, range: TimeRange)
    requires quarter in members && HoldsLatestMembers(periods, quarters, members, range)
    ensures HoldsLatestMembers(AddQuarter(periods, quarter, members[quarter], range),
                               quarters + [quarter], members, range)
  {
    var next := AddQuarter(periods, quarter, members[quarter], range);
    forall time | Contains(range, time)
      ensures MembersAt(next, time) == FindMembers(members, LatestQuarter(quarters + [quarter], time))
    {
      assert (quarters + [quarter])[..|quarters|] == quarters;
      if next != periods {
        assert next[..|next| - 1] == if |next| == |periods| then periods[..|periods| - 1] else periods;
      }
    }
  }

  lemma AddQuarterKeeps(periods: seq<Period>, quarters: seq<int>, k: nat,
                        members: map<int, seq<Instrument>>, range: TimeRange)
    requires k < |quarters| && Ascending(quarters) && quarters[k] in members
    requires StartsInside(periods, range) && EndsBefore(periods, quarters[..k], range)
    requires HoldsLatestMembers(periods, quarters[..k], members, range)
    ensures var next := AddQuarter(periods, quarters[k], members[quarters[k]], range);
      && StartsInside(next, range) && EndsBefore(next, quarters[..k + 1], range)
      && HoldsLatestMembers(next, quarters[..k + 1], members, range)
  {
    TakeNext(quarters, k);
    AddQuarterStartsInside(periods, quarters[..k], quarters[k], members[quarters[k]], range);
    AddQuarterHoldsLatest(periods, quarters[..k], quarters[k], members, range);
  }

  method AddRecordedPeriod(periods0: seq<Period>, quarter: int, members: seq<Instrument>, range: TimeRange)
    returns (periods: seq<Period>)
    ensures periods == AddQuarter(periods0, quarter, members, range)
  {
    periods := periods0;
    var startUtc := Max(quarter, range.startUtc);
    if startUtc >= range.endUtc {
      return;
    }
    if periods != [] && periods[|periods| - 1].startUtc == startUtc {
      periods := periods[..|periods| - 1];
    }
    periods := periods + [Period(startUtc, members)];
  }

  method MakeRecordedPeriods(members: map<int, seq<Instrument>>, range: TimeRange) returns (periods: seq<Period>)
    ensures StartsInside(periods, range)
    ensures HoldsLatestMembers(periods, SortedSet(members.Keys), members, range)
  {
    var quarters := SortedSet(members.Keys);
    periods := [];
    for k := 0 to |quarters|
      invariant StartsInside(periods, range) && EndsBefore(periods, quarters[..k], range)
      invariant HoldsLatestMembers(periods, quarters[..k], members, range)
    {
      assert quarters[k] in quarters;
      AddQuarterKeeps(periods, quarters, k, members, range);
      periods := AddRecordedPeriod(periods, quarters[k], members[quarters[k]], range);
    }
    assert quarters[..|quarters|] == quarters;
  }

  /** The recorded periods are a timeline, so the member ranges of a same-period backtest are canonical. */
  lemma RecordedPeriodsAreTimeline(periods: seq<Period>, range: TimeRange)
    requires StartsInside(periods, range) && forall i :: 0 <= i < |periods| ==> HasDistinctMembers(periods[i])
    ensures IsTimeline(periods, range.endUtc)
  {
  }

  // ---------------------------------------------------------------- the periods of a screen

  datatype RebalancePeriod = Quarter | Month

  function MonthsInPeriod(period: RebalancePeriod): int {
    match period
    case Quarter => 3
    case Month => 1
  }

  /** The first index after `monthIndex` that starts a period. */
  function NextPeriodIndex(monthIndex: int, period: RebalancePeriod): (next: int)
    ensures monthIndex < next <= monthIndex + MonthsInPeriod(period) && IsPeriodIndex(next, period)
  {
    match period
    case Quarter => (monthIndex / 3 + 1) * 3
    case Month => monthIndex + 1
  }

  predicate IsPeriodIndex(index: int, period: RebalancePeriod) {
    match period
    case Quarter => index % 3 == 0
    case Month => true
  }

  /** The quarters start in January, April, July, and October. */
  lemma QuarterMonths(year: int, month: int)
    requires 1 <= month <= 12
    ensures IsPeriodIndex(12 * year + month - 1, Quarter) <==> month in {1, 4, 7, 10}
    ensures IsPeriodIndex(12 * year + month - 1, Month)
  {
    RestOfMonth(4 * year, month - 1);
  }

  lemma RestOfMonth(quarters: int, month: int)
    ensures (3 * quarters + month) % 3 == month % 3
  {
  }

  /** `monthStart(12 year + month - 1)`: 00:00 UTC of the first day of the month. */
  ghost predicate IsCalendar(monthStart: int -> int) {
    forall i, j :: i < j ==> monthStart(i) < monthStart(j)
  }

  /** The index of the start number `i`, counted from 1. */
  function StartIndex(monthIndex: int, period: RebalancePeriod, i: nat): int {
    match period
    case Quarter => NextPeriodIndex(monthIndex, period) + (i - 1) * 3
    case Month => NextPeriodIndex(monthIndex, period) + (i - 1)
  }

  /** The range start, then the starts that come before the end of the range, from the first one after the month on. */
  ghost predicate AreStarts(starts: seq<int>, range: TimeRange, monthStart: int -> int, monthIndex: int,
                            period: RebalancePeriod) {
    && starts != [] && starts[0] == range.startUtc
    && (forall i :: 0 < i < |starts| ==> starts[i] == monthStart(StartIndex(monthIndex, period, i)) < range.endUtc)
  }

  method FindScreenPeriodStarts(range: TimeRange, period: RebalancePeriod, monthStart: int -> int, monthIndex: int)
    returns (starts: seq<int>)
    requires IsCalendar(monthStart) && monthStart(monthIndex) <= range.startUtc < monthStart(monthIndex + 1)
    ensures AreStarts(starts, range, monthStart, monthIndex, period)
    ensures monthStart(StartIndex(monthIndex, period, |starts|)) >= range.endUtc
  {
    var step := MonthsInPeriod(period);
    starts := [range.startUtc];
    var nextIndex := NextPeriodIndex(monthIndex, period);
    while monthStart(nextIndex) < range.endUtc
      invariant AreStarts(starts, range, monthStart, monthIndex, period)
      invariant nextIndex == StartIndex(monthIndex, period, |starts|)
      decreases range.endUtc - monthStart(nextIndex)
    {
      assert monthStart(nextIndex) < monthStart(nextIndex + step);
      starts := starts + [monthStart(nextIndex)];
      nextIndex := nextIndex + step;
    }
  }

  /** The start number of a period index. */
  function StartNumber(monthIndex: int, period: RebalancePeriod, index: int): int {
    match period
    case Quarter => (index - NextPeriodIndex(monthIndex, period)) / 3 + 1
    case Month => index - NextPeriodIndex(monthIndex, period) + 1
  }

  lemma StartNumberOfIndex(monthIndex: int, period: RebalancePeriod, index: int)
    requires monthIndex < index && IsPeriodIndex(index, period)
    ensures StartNumber(monthIndex, period, index) >= 1
    ensures StartIndex(monthIndex, period, StartNumber(monthIndex, period, index)) == index
  {
  }

  lemma StartsAscend(starts: seq<int>, range: TimeRange, period: RebalancePeriod, monthStart: int -> int,
                     monthIndex: int)
    requires IsCalendar(monthStart) && monthStart(monthIndex) <= range.startUtc < monthStart(monthIndex + 1)
    requires range.startUtc < range.endUtc
    requires AreStarts(starts, range, monthStart, monthIndex, period)
    ensures Ascending(starts) && forall start <- starts :: range.startUtc <= start < range.endUtc
  {
    forall i | 0 < i < |starts| ensures range.startUtc < starts[i] {
      MonthsAreOrdered(monthStart, monthIndex + 1, StartIndex(monthIndex, period, i));
    }
    forall i, j | 0 < i < j < |starts| ensures starts[i] < starts[j] {
      assert StartIndex(monthIndex, period, i) < StartIndex(monthIndex, period, j);
    }
  }

  lemma PeriodHasStart(starts: seq<int>, range: TimeRange, period: RebalancePeriod, monthStart: int -> int,
                       monthIndex: int, index: int)
    requires IsCalendar(monthStart) && monthStart(monthIndex) <= range.startUtc < monthStart(monthIndex + 1)
    requires range.startUtc < range.endUtc
    requires AreStarts(starts, range, monthStart, monthIndex, period)
    requires monthStart(StartIndex(monthIndex, period, |starts|)) >= range.endUtc
    requires IsPeriodIndex(index, period) && range.startUtc < monthStart(index) < range.endUtc
    ensures monthStart(index) in starts
  {
    if index <= monthIndex {
      MonthsAreOrdered(monthStart, index, monthIndex);
    }
    StartNumberOfIndex(monthIndex, period, index);
    var i := StartNumber(monthIndex, period, index);
    if i >= |starts| {
      assert StartIndex(monthIndex, period, |starts|) <= StartIndex(monthIndex, period, i);
      MonthsAreOrdered(monthStart, StartIndex(monthIndex, period, |starts|), index);
    }
    assert starts[i] == monthStart(index);
  }

  lemma StartIndexIsPeriod(monthIndex: int, period: RebalancePeriod, i: nat)
    ensures IsPeriodIndex(StartIndex(monthIndex, period, i), period)
  {
    if period == Quarter {
      RestOfMonth(i - 1, NextPeriodIndex(monthIndex, period));
    }
  }

  ghost predicate IsPeriodStart(start: int, period: RebalancePeriod, monthStart: int -> int) {
    exists index :: IsPeriodIndex(index, period) && monthStart(index) == start
  }

  lemma StartIsPeriodStart(starts: seq<int>, range: TimeRange, period: RebalancePeriod, monthStart: int -> int,
                           monthIndex: int, i: nat)
    requires IsCalendar(monthStart) && monthStart(monthIndex) <= range.startUtc < monthStart(monthIndex + 1)
    requires range.startUtc < range.endUtc
    requires AreStarts(starts, range, monthStart, monthIndex, period)
    requires 0 < i < |starts|
    ensures IsPeriodStart(starts[i], period, monthStart)
  {
    StartIndexIsPeriod(monthIndex, period, i);
    assert monthStart(StartIndex(monthIndex, period, i)) == starts[i];
  }

  /** The starts are a timeline inside the range: its start, and exactly the quarters or months that start in it. */
  lemma ScreenStartsAreComplete(starts: seq<int>, range: TimeRange, period: RebalancePeriod, monthStart: int -> int,
                                monthIndex: int)
    requires IsCalendar(monthStart) && monthStart(monthIndex) <= range.startUtc < monthStart(monthIndex + 1)
    requires range.startUtc < range.endUtc
    requires AreStarts(starts, range, monthStart, monthIndex, period)
    requires monthStart(StartIndex(monthIndex, period, |starts|)) >= range.endUtc
    ensures Ascending(starts) && forall start <- starts :: range.startUtc <= start < range.endUtc
    ensures forall index :: IsPeriodIndex(index, period) && range.startUtc < monthStart(index) < range.endUtc ==>
              monthStart(index) in starts
    ensures forall start <- starts :: start == range.startUtc || IsPeriodStart(start, period, monthStart)
  {
    StartsAscend(starts, range, period, monthStart, monthIndex);
    forall index | IsPeriodIndex(index, period) && range.startUtc < monthStart(index) < range.endUtc
      ensures monthStart(index) in starts
    {
      PeriodHasStart(starts, range, period, monthStart, monthIndex, index);
    }
    forall i | 0 < i < |starts| ensures IsPeriodStart(starts[i], period, monthStart) {
      StartIsPeriodStart(starts, range, period, monthStart, monthIndex, i);
    }
  }

  lemma MonthsAreOrdered(monthStart: int -> int, i: int, j: int)
    requires IsCalendar(monthStart) && i <= j
    ensures monthStart(i) <= monthStart(j)
  {
  }
}
