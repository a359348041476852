/** The universe periods, and the time ranges in which each instrument is a member. */
module UniverseRanges {
  import opened Bars

  datatype Symbol = Symbol(text: string)

  datatype Instrument = Instrument(symbol: Symbol, exchange: string)

  datatype Period = Period(startUtc: int, members: seq<Instrument>)

  function PeriodEnd(periods: seq<Period>, endUtc: int, index: nat): int {
    if index + 1 < |periods| then periods[index + 1].startUtc else endUtc
  }

  function PeriodRange(periods: seq<Period>, endUtc: int, index: nat): TimeRange
    requires index < |periods|
  {
    TimeRange(periods[index].startUtc, PeriodEnd(periods, endUtc, index))
  }

  /** A range that starts at the end of the last one makes it longer. */
  function AddRange(ranges: seq<TimeRange>, range: TimeRange): seq<TimeRange> {
    var n := |ranges|;
    if n > 0 && ranges[n - 1].endUtc == range.startUtc
    then ranges[..n - 1] + [TimeRange(ranges[n - 1].startUtc, range.endUtc)]
    else ranges + [range]
  }

  /** One more range for each time that the instrument is in the list. */
  function AddMember(ranges: seq<TimeRange>, range: TimeRange, members: seq<Instrument>,
                     instrument: Instrument): seq<TimeRange> {
    if members == [] then ranges
    else
      var before := AddMember(ranges, range, members[..|members| - 1], instrument);
      if members[|members| - 1] == instrument then AddRange(before, range) else before
  }

  /** The ranges of an instrument after the first `count` periods. */
  function RangesUpTo(periods: seq<Period>, endUtc: int, count: nat, instrument: Instrument): seq<TimeRange>
    requires count <= |periods|
  {
    if count == 0 then []
    else AddMember(RangesUpTo(periods, endUtc, count - 1, instrument), PeriodRange(periods, endUtc, count - 1),
                   periods[count - 1].members, instrument)
  }

  function RangesOf(periods: seq<Period>, endUtc: int, instrument: Instrument): seq<TimeRange> {
    RangesUpTo(periods, endUtc, |periods|, instrument)
  }

  function Find(ranges: map<Instrument, seq<TimeRange>>, instrument: Instrument): seq<TimeRange> {
    if instrument in ranges then ranges[instrument] else []
  }

  /** `order`: the instruments in the order in which they came into the dictionary. */
  ghost predicate IsOrder(order: seq<Instrument>, ranges: map<Instrument, seq<TimeRange>>) {
    && (forall instrument :: instrument in order <==> instrument in ranges)
    && (forall i, j :: 0 <= i < j < |order| ==> order[i] != order[j])
  }

  /** Each instrument of the dictionary has a range. */
  ghost predicate AreRanges(ranges: map<Instrument, seq<TimeRange>>, expected: Instrument -> seq<TimeRange>) {
    && (forall instrument :: Find(ranges, instrument) == expected(instrument))
    && (forall instrument <- ranges :: ranges[instrument] != [])
  }

  method AddPeriodMember(order0: seq<Instrument>, ranges0: map<Instrument, seq<TimeRange>>,
                         member: Instrument, range: TimeRange)
    returns (order: seq<Instrument>, ranges: map<Instrument, seq<TimeRange>>)
    requires IsOrder(order0, ranges0) && forall instrument <- ranges0 :: ranges0[instrument] != []
    ensures IsOrder(order, ranges) && forall instrument <- ranges :: ranges[instrument] != []
    ensures ranges == ranges0[member := AddRange(Find(ranges0, member), range)]
  {
    order, ranges := order0, ranges0;
    if member !in ranges {
      order := order + [member];
      ranges := ranges[member := []];
    }
    var memberRanges := ranges[member];
    if memberRanges != [] && memberRanges[|memberRanges| - 1].endUtc == range.startUtc {
      var last := memberRanges[|memberRanges| - 1];
      memberRanges := memberRanges[..|memberRanges| - 1] + [TimeRange(last.startUtc, range.endUtc)];
    } else {
      memberRanges := memberRanges + [range];
    }
    ranges := ranges[member := memberRanges];
  }

  method FindMemberRanges(periods: seq<Period>, endUtc: int)
    returns (order: seq<Instrument>, ranges: map<Instrument, seq<TimeRange>>)
    ensures IsOrder(order, ranges)
    ensures AreRanges(ranges, instrument => RangesOf(periods, endUtc, instrument))
  {
    order, ranges := [], map[];
    for k := 0 to |periods|
      invariant IsOrder(order, ranges)
      invariant AreRanges(ranges, instrument => RangesUpTo(periods, endUtc, k, instrument))
    {
      order, ranges := AddPeriod(order, ranges, periods[k].members,
                                 TimeRange(periods[k].startUtc, PeriodEnd(periods, endUtc, k)),
                                 instrument => RangesUpTo(periods, endUtc, k, instrument));
    }
  }

  /** The range of one period is added for each of these members. */
  ghost predicate AreAdded(ranges: map<Instrument, seq<TimeRange>>,
                           before: Instrument -> seq<TimeRange>, range: TimeRange,
                           members: seq<Instrument>) {
    && (forall instrument :: Find(ranges, instrument) == AddMember(before(instrument), range, members, instrument))
    && (forall instrument <- ranges :: ranges[instrument] != [])
  }

  lemma AddNextMember(ranges: map<Instrument, seq<TimeRange>>, before: Instrument -> seq<TimeRange>, range: TimeRange,
                      members: seq<Instrument>, j: nat)
    requires j < |members| && AreAdded(ranges, before, range, members[..j])
    ensures AreAdded(ranges[members[j] := AddRange(Find(ranges, members[j]), range)], before, range, members[..j + 1])
  {
    assert members[..j + 1][..j] == members[..j];
  }

  method AddPeriod(order0: seq<Instrument>, ranges0: map<Instrument, seq<TimeRange>>,
                   members: seq<Instrument>, range: TimeRange,
                   ghost before: Instrument -> seq<TimeRange>)
    returns (order: seq<Instrument>, ranges: map<Instrument, seq<TimeRange>>)
    requires IsOrder(order0, ranges0) && AreRanges(ranges0, before)
    ensures IsOrder(order, ranges)
    ensures AreRanges(ranges, instrument => AddMember(before(instrument), range, members, instrument))
  {
    order, ranges := order0, ranges0;
    for j := 0 to |members|
      invariant IsOrder(order, ranges) && AreAdded(ranges, before, range, members[..j])
    {
      AddNextMember(ranges, before, range, members, j);
      order, ranges := AddPeriodMember(order, ranges, members[j], range);
    }
    assert members[..|members|] == members;
  }

  // ---------------------------------------------------------------- the ranges are canonical

  predicate Contains(range: TimeRange, timeUtc: int) { range.startUtc <= timeUtc < range.endUtc }

  ghost predicate IsCovered(ranges: seq<TimeRange>, timeUtc: int) {
    exists i :: 0 <= i < |ranges| && Contains(ranges[i], timeUtc)
  }

  /** Ordered ranges that have no common time and do not touch. */
  ghost predicate IsCanonical(ranges: seq<TimeRange>) {
    && (forall i :: 0 <= i < |ranges| ==> ranges[i].startUtc < ranges[i].endUtc)
    && (forall i, j :: 0 <= i < j < |ranges| ==> ranges[i].endUtc < ranges[j].startUtc)
  }

  /** The periods follow each other before the end, and no period has a member 2 times. */
  ghost predicate IsTimeline(periods: seq<Period>, endUtc: int) {
    && (forall i, j :: 0 <= i < j < |periods| ==> periods[i].startUtc < periods[j].startUtc)
    && (forall i :: 0 <= i < |periods| ==> periods[i].startUtc < endUtc)
    && (forall i :: 0 <= i < |periods| ==> HasDistinctMembers(periods[i]))
  }

  ghost predicate HasDistinctMembers(period: Period) {
    forall i, j :: 0 <= i < j < |period.members| ==> period.members[i] != period.members[j]
  }

  ghost predicate IsMemberAt(periods: seq<Period>, endUtc: int, count: nat, instrument: Instrument, timeUtc: int)
    requires count <= |periods|
  {
    exists k :: 0 <= k < count && instrument in periods[k].members && Contains(PeriodRange(periods, endUtc, k), timeUtc)
  }

  lemma {:induction false} AddDistinctMember(ranges: seq<TimeRange>, range: TimeRange, members: seq<Instrument>,
                                             instrument: Instrument)
    requires forall i, j :: 0 <= i < j < |members| ==> members[i] != members[j]
    ensures AddMember(ranges, range, members, instrument) == if instrument in members then AddRange(ranges, range)
                                                             else ranges
  {
    if members != [] {
      var init, last := members[..|members| - 1], members[|members| - 1];
      AddDistinctMember(ranges, range, init, instrument);
      assert members == init + [last];
    }
  }

  lemma AddRangeKeepsCanonical(ranges: seq<TimeRange>, range: TimeRange)
    requires IsCanonical(ranges) && range.startUtc < range.endUtc
    requires ranges != [] ==> ranges[|ranges| - 1].endUtc <= range.startUtc
    ensures IsCanonical(AddRange(ranges, range))
    ensures AddRange(ranges, range)[|AddRange(ranges, range)| - 1].endUtc == range.endUtc
    ensures forall time ::
              IsCovered(AddRange(ranges, range), time) <==> IsCovered(ranges, time) || Contains(range, time)
  {
    var next := AddRange(ranges, range);
    var n := |ranges|;
    forall time ensures IsCovered(next, time) <==> IsCovered(ranges, time) || Contains(range, time) {
      if IsCovered(ranges, time) {
        var i :| 0 <= i < n && Contains(ranges[i], time);
        assert Contains(next[i], time);
      }
      if Contains(range, time) {
        assert Contains(next[|next| - 1], time);
      }
      if IsCovered(next, time) {
        var i :| 0 <= i < |next| && Contains(next[i], time);
        if i < n && !Contains(range, time) {
          assert Contains(ranges[i], time);
        }
      }
    }
  }

  lemma {:induction false} RangesUpToAreCanonical(periods: seq<Period>, endUtc: int, count: nat, instrument: Instrument)
    requires IsTimeline(periods, endUtc) && count <= |periods|
    ensures var ranges := RangesUpTo(periods, endUtc, count, instrument);
      && IsCanonical(ranges)
      && (ranges != [] ==> count > 0 && ranges[|ranges| - 1].endUtc <= PeriodEnd(periods, endUtc, count - 1))
      && (forall time :: IsCovered(ranges, time) <==> IsMemberAt(periods, endUtc, count, instrument, time))
  {
    if count > 0 {
      var before := RangesUpTo(periods, endUtc, count - 1, instrument);
      var range := PeriodRange(periods, endUtc, count - 1);
      RangesUpToAreCanonical(periods, endUtc, count - 1, instrument);
      assert HasDistinctMembers(periods[count - 1]);
      AddDistinctMember(before, range, periods[count - 1].members, instrument);
      if instrument in periods[count - 1].members {
        AddRangeKeepsCanonical(before, range);
      }
      forall time ensures IsMemberAt(periods, endUtc, count, instrument, time) <==>
        IsMemberAt(periods, endUtc, count - 1, instrument, time)
        || (instrument in periods[count - 1].members && Contains(range, time))
      {
        MemberOfOneMore(periods, endUtc, count, instrument, time);
      }
    }
  }

  lemma MemberOfOneMore(periods: seq<Period>, endUtc: int, count: nat, instrument: Instrument, timeUtc: int)
    requires 0 < count <= |periods|
    ensures IsMemberAt(periods, endUtc, count, instrument, timeUtc) <==>
            IsMemberAt(periods, endUtc, count - 1, instrument, timeUtc)
            || (instrument in periods[count - 1].members && Contains(PeriodRange(periods, endUtc, count - 1), timeUtc))
  {
    if IsMemberAt(periods, endUtc, count, instrument, timeUtc) {
      var k :| 0 <= k < count && instrument in periods[k].members && Contains(PeriodRange(periods, endUtc, k), timeUtc);
    }
  }

  /** The ranges of an instrument are ordered, do not touch, and hold exactly the times of its periods. */
  lemma RangesAreCanonical(periods: seq<Period>, endUtc: int, instrument: Instrument)
    requires IsTimeline(periods, endUtc)
    ensures IsCanonical(RangesOf(periods, endUtc, instrument))
    ensures forall time :: IsCovered(RangesOf(periods, endUtc, instrument), time)
                      <==> IsMemberAt(periods, endUtc, |periods|, instrument, time)
  {
    RangesUpToAreCanonical(periods, endUtc, |periods|, instrument);
  }

  lemma FirstStartsLatest(a: seq<TimeRange>, b: seq<TimeRange>)
    requires IsCanonical(a) && IsCanonical(b) && a != [] && (forall time :: IsCovered(a, time) ==> IsCovered(b, time))
    ensures b != [] && b[0].startUtc <= a[0].startUtc
  {
    assert Contains(a[0], a[0].startUtc);
    assert IsCovered(b, a[0].startUtc);
    var i :| 0 <= i < |b| && Contains(b[i], a[0].startUtc);
    if i > 0 {
      assert b[0].endUtc < b[i].startUtc;
    }
  }

  lemma GapAfterFirst(a: seq<TimeRange>)
    requires IsCanonical(a) && a != []
    ensures !IsCovered(a, a[0].endUtc)
  {
  }

  lemma FirstEndsEarliest(a: seq<TimeRange>, b: seq<TimeRange>)
    requires IsCanonical(a) && IsCanonical(b) && a != [] && b != [] && a[0].startUtc == b[0].startUtc
    requires forall time :: IsCovered(b, time) ==> IsCovered(a, time)
    ensures b[0].endUtc <= a[0].endUtc
  {
    assert b[0].endUtc > a[0].endUtc ==> Contains(b[0], a[0].endUtc);
    GapAfterFirst(a);
  }

  lemma CoveredByRest(a: seq<TimeRange>, timeUtc: int)
    requires IsCanonical(a) && a != []
    ensures IsCovered(a[1..], timeUtc) <==> IsCovered(a, timeUtc) && !Contains(a[0], timeUtc)
  {
    if IsCovered(a[1..], timeUtc) {
      var i :| 0 <= i < |a| - 1 && Contains(a[1..][i], timeUtc);
      assert Contains(a[i + 1], timeUtc);
    }
    if IsCovered(a, timeUtc) && !Contains(a[0], timeUtc) {
      var i :| 0 <= i < |a| && Contains(a[i], timeUtc);
      assert Contains(a[1..][i - 1], timeUtc);
    }
  }

  lemma RestsAgree(a: seq<TimeRange>, b: seq<TimeRange>)
    requires IsCanonical(a) && IsCanonical(b) && a != [] && b != [] && a[0] == b[0]
    requires forall time :: IsCovered(a, time) <==> IsCovered(b, time)
    ensures IsCanonical(a[1..]) && IsCanonical(b[1..])
    ensures forall time :: IsCovered(a[1..], time) <==> IsCovered(b[1..], time)
  {
    forall time ensures IsCovered(a[1..], time) <==> IsCovered(b[1..], time) {
      CoveredByRest(a, time);
      CoveredByRest(b, time);
    }
  }

  lemma FirstRangesAgree(a: seq<TimeRange>, b: seq<TimeRange>)
    requires IsCanonical(a) && IsCanonical(b) && a != []
    requires forall time :: IsCovered(a, time) <==> IsCovered(b, time)
    ensures b != [] && a[0] == b[0]
  {
    FirstStartsLatest(a, b);
    FirstStartsLatest(b, a);
    FirstEndsEarliest(a, b);
    FirstEndsEarliest(b, a);
  }

  /** There is 1 canonical form: canonical ranges of the same times are the same ranges. */
  lemma {:induction false} CanonicalIsUnique(a: seq<TimeRange>, b: seq<TimeRange>)
    requires IsCanonical(a) && IsCanonical(b) && forall time :: IsCovered(a, time) <==> IsCovered(b, time)
    ensures a == b
  {
    if a == [] {
      if b != [] {
        FirstRangesAgree(b, a);
      }
    } else {
      FirstRangesAgree(a, b);
      RestsAgree(a, b);
      CanonicalIsUnique(a[1..], b[1..]);
      assert a == [a[0]] + a[1..] && b == [b[0]] + b[1..];
    }
  }
}
