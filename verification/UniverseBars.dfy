/** The reads of the universe bars: one flat list of requests, and one loop that takes the answers in the same order. */
module UniverseBars {
  import opened Sequences
  import opened Bars
  import opened UniverseRanges

  datatype BarRequest = BarRequest(instrument: Instrument, range: TimeRange)

  type Source = string

  /** The answer to a request: the bars, and how many of them each source gave. */
  datatype SavedBars = SavedBars(bars: seq<Bar>, counts: map<Source, nat>)

  datatype MemberBars = MemberBars(instrument: Instrument, bars: seq<Bar>, lookBackBars: seq<Bar>, openBars: seq<Bar>)

  // ---------------------------------------------------------------- merged bars

  /** A dictionary by the bar start: a later bar of the same start takes the place of an earlier one. */
  function ByStart(bars: seq<Bar>): (byStart: map<int, Bar>)
    ensures forall start <- byStart :: byStart[start].startUtc == start
  {
    if bars == [] then map[] else ByStart(bars[..|bars| - 1])[bars[|bars| - 1].startUtc := bars[|bars| - 1]]
  }

  function InStartOrder(byStart: map<int, Bar>): (bars: seq<Bar>)
    ensures |bars| == |SortedSet(byStart.Keys)|
    ensures forall i :: 0 <= i < |bars| ==>
              SortedSet(byStart.Keys)[i] in byStart && bars[i] == byStart[SortedSet(byStart.Keys)[i]]
  {
    var starts := SortedSet(byStart.Keys);
    assert forall i :: 0 <= i < |starts| ==> starts[i] in starts;
    seq(|starts|, i requires 0 <= i < |starts| => byStart[starts[i]])
  }

  function MergeBars(bars: seq<Bar>): seq<Bar> { InStartOrder(ByStart(bars)) }

  function StartOf(bar: Bar): int { bar.startUtc }

  ghost predicate IsLastOfStart(bars: seq<Bar>, i: nat) {
    i < |bars| && forall j :: i < j < |bars| ==> bars[j].startUtc != bars[i].startUtc
  }

  ghost predicate HasStart(bars: seq<Bar>, start: int) {
    exists i :: 0 <= i < |bars| && bars[i].startUtc == start
  }

  lemma {:induction false} ByStartHoldsStarts(bars: seq<Bar>, start: int)
    ensures start in ByStart(bars) <==> HasStart(bars, start)
  {
    if bars != [] {
      var init, last := bars[..|bars| - 1], bars[|bars| - 1];
      ByStartHoldsStarts(init, start);
      if HasStart(init, start) {
        var i :| 0 <= i < |init| && init[i].startUtc == start;
        assert bars[i].startUtc == start;
      }
      if HasStart(bars, start) && last.startUtc != start {
        var i :| 0 <= i < |bars| && bars[i].startUtc == start;
        assert init[i].startUtc == start;
      }
    }
  }

  lemma {:induction false} ByStartHoldsLast(bars: seq<Bar>, i: nat)
    requires IsLastOfStart(bars, i)
    ensures bars[i].startUtc in ByStart(bars) && ByStart(bars)[bars[i].startUtc] == bars[i]
  {
    if i < |bars| - 1 {
      assert bars[|bars| - 1].startUtc != bars[i].startUtc;
      ByStartHoldsLast(bars[..|bars| - 1], i);
    }
  }

  /** The bar is the last one of its start. */
  ghost predicate IsKept(bars: seq<Bar>, bar: Bar) {
    exists i :: 0 <= i < |bars| && IsLastOfStart(bars, i) && bars[i] == bar
  }

  /** The merged bars have each start once, in order, with the last bar of that start. */
  lemma MergeKeepsLastOfEachStart(bars: seq<Bar>)
    ensures StrictlySortedBy(MergeBars(bars), StartOf)
    ensures forall bar :: bar in MergeBars(bars) <==> IsKept(bars, bar)
  {
    var byStart := ByStart(bars);
    var starts, merged := SortedSet(byStart.Keys), MergeBars(bars);
    assert forall i :: 0 <= i < |starts| ==> starts[i] in byStart && merged[i].startUtc == starts[i];
    forall bar ensures bar in merged <==> IsKept(bars, bar) {
      if bar in merged {
        var k :| 0 <= k < |merged| && merged[k] == bar;
        ByStartHoldsStarts(bars, starts[k]);
        var i := LastOfStart(bars, starts[k]);
        ByStartHoldsLast(bars, i);
        assert bars[i] == bar;
      }
      if IsKept(bars, bar) {
        var i :| 0 <= i < |bars| && IsLastOfStart(bars, i) && bars[i] == bar;
        ByStartHoldsLast(bars, i);
        assert bar.startUtc in starts;
        var k :| 0 <= k < |starts| && starts[k] == bar.startUtc;
        assert merged[k] == bar;
      }
    }
  }

  lemma {:induction false} LastOfStart(bars: seq<Bar>, start: int) returns (last: nat)
    requires HasStart(bars, start)
    ensures IsLastOfStart(bars, last) && bars[last].startUtc == start
  {
    last := |bars| - 1;
    while bars[last].startUtc != start
      invariant 0 <= last < |bars| && forall j :: last < j < |bars| ==> bars[j].startUtc != start
      decreases last
    {
      var i :| 0 <= i < |bars| && bars[i].startUtc == start;
      assert i < last;
      last := last - 1;
    }
  }

  // ---------------------------------------------------------------- the requests

  function LookBackRange(range: TimeRange, length: int): TimeRange {
    TimeRange(range.startUtc - length, range.startUtc)
  }

  /** For each range, its request and the request of its look-back. */
  function RangeRequests(member: Instrument, ranges: seq<TimeRange>, length: int): (requests: seq<BarRequest>)
    ensures |requests| == 2 * |ranges|
  {
    if ranges == [] then []
    else
      var last := ranges[|ranges| - 1];
      RangeRequests(member, ranges[..|ranges| - 1], length)
      + [BarRequest(member, last), BarRequest(member, LookBackRange(last, length))]
  }

  function MemberRequests(member: Instrument, ranges: seq<TimeRange>, whole: TimeRange, length: int): seq<BarRequest> {
    RangeRequests(member, ranges, length) + if ranges == [whole] then [] else [BarRequest(member, whole)]
  }

  function AllRequests(order: seq<Instrument>, ranges: Instrument -> seq<TimeRange>, whole: TimeRange,
                       length: int): seq<BarRequest> {
    if order == [] then []
    else
      var last := order[|order| - 1];
      AllRequests(order[..|order| - 1], ranges, whole, length) + MemberRequests(last, ranges(last), whole, length)
  }

  method BuildRequests(order: seq<Instrument>, ranges: map<Instrument, seq<TimeRange>>, whole: TimeRange, length: int,
                       ghost find: Instrument -> seq<TimeRange>)
    returns (requests: seq<BarRequest>)
    requires forall member <- order :: member in ranges && find(member) == ranges[member]
    ensures requests == AllRequests(order, find, whole, length)
  {
    requests := [];
    for k := 0 to |order|
      invariant requests == AllRequests(order[..k], find, whole, length)
    {
      assert order[k] in order;
      var memberRequests := BuildMemberRequests(order[k], ranges[order[k]], whole, length);
      assert order[..k + 1][..k] == order[..k];
      requests := requests + memberRequests;
    }
    assert order[..|order|] == order;
  }

  method BuildMemberRequests(member: Instrument, ranges: seq<TimeRange>, whole: TimeRange, length: int)
    returns (requests: seq<BarRequest>)
    ensures requests == MemberRequests(member, ranges, whole, length)
  {
    requests := [];
    for k := 0 to |ranges|
      invariant requests == RangeRequests(member, ranges[..k], length)
    {
      assert ranges[..k + 1][..k] == ranges[..k];
      requests := requests + [BarRequest(member, ranges[k])];
      requests := requests + [BarRequest(member, TimeRange(ranges[k].startUtc - length, ranges[k].startUtc))];
    }
    assert ranges[..|ranges|] == ranges;
    if ranges != [whole] {
      requests := requests + [BarRequest(member, whole)];
    }
  }

  // ---------------------------------------------------------------- the answers

  ghost predicate AreAnswers(requests: seq<BarRequest>, answers: seq<SavedBars>, saved: BarRequest -> SavedBars) {
    |answers| == |requests| && forall i :: 0 <= i < |requests| ==> answers[i] == saved(requests[i])
  }

  function RangeBars(member: Instrument, ranges: seq<TimeRange>, saved: BarRequest -> SavedBars): seq<Bar> {
    if ranges == [] then []
    else RangeBars(member, ranges[..|ranges| - 1], saved) + saved(BarRequest(member, ranges[|ranges| - 1])).bars
  }

  function LookBackBars(member: Instrument, ranges: seq<TimeRange>, length: int,
                        saved: BarRequest -> SavedBars): seq<Bar> {
    if ranges == [] then []
    else LookBackBars(member, ranges[..|ranges| - 1], length, saved)
         + saved(BarRequest(member, LookBackRange(ranges[|ranges| - 1], length))).bars
  }

  function OpenBars(member: Instrument, ranges: seq<TimeRange>, whole: TimeRange,
                    saved: BarRequest -> SavedBars): seq<Bar> {
    if ranges == [whole] then RangeBars(member, ranges, saved) else saved(BarRequest(member, whole)).bars
  }

  function MemberBarsOf(member: Instrument, ranges: seq<TimeRange>, whole: TimeRange, length: int,
                        saved: BarRequest -> SavedBars): MemberBars {
    MemberBars(member, RangeBars(member, ranges, saved), MergeBars(LookBackBars(member, ranges, length, saved)),
               OpenBars(member, ranges, whole, saved))
  }

  function UpdateByStart(byStart: map<int, Bar>, bars: seq<Bar>): map<int, Bar> {
    if bars == [] then byStart
    else UpdateByStart(byStart, bars[..|bars| - 1])[bars[|bars| - 1].startUtc := bars[|bars| - 1]]
  }

  lemma {:induction false} UpdateContinues(before: seq<Bar>, bars: seq<Bar>)
    ensures UpdateByStart(ByStart(before), bars) == ByStart(before + bars)
  {
    if bars == [] {
      assert before + bars == before;
    } else {
      UpdateContinues(before, bars[..|bars| - 1]);
      assert (before + bars)[..|before + bars| - 1] == before + bars[..|bars| - 1];
    }
  }

  /** One answer in its place: `next` of the iterator. */
  lemma NextAnswer(requests: seq<BarRequest>, answers: seq<SavedBars>, saved: BarRequest -> SavedBars,
                   before: seq<BarRequest>, request: BarRequest, after: seq<BarRequest>)
    requires AreAnswers(requests, answers, saved) && requests == before + [request] + after
    ensures |before| < |answers| && answers[|before|] == saved(request)
  {
    assert requests[|before|] == request;
  }

  function CountOf(counts: map<Source, nat>, source: Source): nat { if source in counts then counts[source] else 0 }

  /** The counts of one answer on top of the ones before. */
  function AddCounts(counts: map<Source, nat>, more: map<Source, nat>): (sum: map<Source, nat>)
    ensures forall source :: CountOf(sum, source) == CountOf(counts, source) + CountOf(more, source)
  {
    map source | source in counts.Keys + more.Keys :: CountOf(counts, source) + CountOf(more, source)
  }

  /** The bars of a source over the ranges of a member. Look-back bars and open bars do not count. */
  function RangeCount(member: Instrument, ranges: seq<TimeRange>, saved: BarRequest -> SavedBars, source: Source): nat {
    if ranges == [] then 0
    else RangeCount(member, ranges[..|ranges| - 1], saved, source)
         + CountOf(saved(BarRequest(member, ranges[|ranges| - 1])).counts, source)
  }

  function CountsOf(counts: map<Source, nat>): Source -> nat { source => CountOf(counts, source) }

  /** The counts are those before and the ones of the ranges of a member. */
  ghost predicate AreCounts(counts: map<Source, nat>, before: Source -> nat, member: Instrument, ranges: seq<TimeRange>,
                            saved: BarRequest -> SavedBars) {
    forall source :: CountOf(counts, source) == before(source) + RangeCount(member, ranges, saved, source)
  }

  lemma CountRange(counts: map<Source, nat>, before: Source -> nat, member: Instrument, ranges: seq<TimeRange>, k: nat,
                   saved: BarRequest -> SavedBars)
    requires k < |ranges| && AreCounts(counts, before, member, ranges[..k], saved)
    ensures AreCounts(AddCounts(counts, saved(BarRequest(member, ranges[k])).counts), before, member,
                      ranges[..k + 1], saved)
  {
    assert ranges[..k + 1][..k] == ranges[..k];
  }

  /** The look-back answers and the bars that the loop over the ranges of a member took. */
  ghost predicate AreTaken(taken: seq<Bar>, lookBack: map<int, Bar>, member: Instrument,
                           ranges: seq<TimeRange>, length: int,
                           saved: BarRequest -> SavedBars) {
    taken == RangeBars(member, ranges, saved) && lookBack == ByStart(LookBackBars(member, ranges, length, saved))
  }

  lemma TakeRange(taken: seq<Bar>, lookBack: map<int, Bar>, member: Instrument,
                  ranges: seq<TimeRange>, k: nat, length: int,
                  saved: BarRequest -> SavedBars)
    requires k < |ranges| && AreTaken(taken, lookBack, member, ranges[..k], length, saved)
    ensures AreTaken(taken + saved(BarRequest(member, ranges[k])).bars,
                     UpdateByStart(lookBack, saved(BarRequest(member, LookBackRange(ranges[k], length))).bars),
                     member, ranges[..k + 1], length, saved)
  {
    assert ranges[..k + 1][..k] == ranges[..k];
    UpdateContinues(LookBackBars(member, ranges[..k], length, saved),
                    saved(BarRequest(member, LookBackRange(ranges[k], length))).bars);
  }

  /** The answers of one member, from the cursor on. */
  method TakeMember(member: Instrument, ranges: seq<TimeRange>, whole: TimeRange, length: int,
                    answers: seq<SavedBars>, cursor0: nat,
                    counts0: map<Source, nat>, ghost requests: seq<BarRequest>, ghost before: seq<BarRequest>,
                    ghost after: seq<BarRequest>, ghost saved: BarRequest -> SavedBars)
    returns (bars: MemberBars, cursor: nat, counts: map<Source, nat>)
    requires AreAnswers(requests, answers, saved)
    requires requests == before + MemberRequests(member, ranges, whole, length) + after && cursor0 == |before|
    ensures bars == MemberBarsOf(member, ranges, whole, length, saved)
    ensures cursor == |before + MemberRequests(member, ranges, whole, length)|
    ensures AreCounts(counts, CountsOf(counts0), member, ranges, saved)
  {
    cursor, counts := cursor0, counts0;
    var taken: seq<Bar> := [];
    var lookBackByStart: map<int, Bar> := map[];
    for k := 0 to |ranges|
      invariant cursor == |before| + 2 * k
      invariant AreTaken(taken, lookBackByStart, member, ranges[..k], length, saved)
      invariant AreCounts(counts, CountsOf(counts0), member, ranges[..k], saved)
    {
      TakeRangeAnswers(requests, answers, saved, before, member, ranges, k, length, whole, after);
      TakeRange(taken, lookBackByStart, member, ranges, k, length, saved);
      CountRange(counts, CountsOf(counts0), member, ranges, k, saved);
      taken := taken + answers[cursor].bars;
      counts := AddCounts(counts, answers[cursor].counts);
      lookBackByStart := UpdateByStart(lookBackByStart, answers[cursor + 1].bars);
      cursor := cursor + 2;
    }
    assert ranges[..|ranges|] == ranges;
    var openBars := taken;
    if ranges != [whole] {
      NextAnswer(requests, answers, saved, before + RangeRequests(member, ranges, length),
                 BarRequest(member, whole), after);
      openBars := answers[cursor].bars;
      cursor := cursor + 1;
    }
    bars := MemberBars(member, taken, InStartOrder(lookBackByStart), openBars);
  }

  lemma TakeRangeAnswers(requests: seq<BarRequest>, answers: seq<SavedBars>, saved: BarRequest -> SavedBars,
                         before: seq<BarRequest>, member: Instrument, ranges: seq<TimeRange>, k: nat, length: int,
                         whole: TimeRange, after: seq<BarRequest>)
    requires AreAnswers(requests, answers, saved) && k < |ranges|
    requires requests == before + MemberRequests(member, ranges, whole, length) + after
    ensures |before| + 2 * k + 1 < |answers|
    ensures answers[|before| + 2 * k] == saved(BarRequest(member, ranges[k]))
    ensures answers[|before| + 2 * k + 1] == saved(BarRequest(member, LookBackRange(ranges[k], length)))
  {
    RangeRequestsAt(member, ranges, length, k);
    assert requests[|before| + 2 * k] == RangeRequests(member, ranges, length)[2 * k];
    assert requests[|before| + 2 * k + 1] == RangeRequests(member, ranges, length)[2 * k + 1];
  }

  lemma {:induction false} RangeRequestsAt(member: Instrument, ranges: seq<TimeRange>, length: int, k: nat)
    requires k < |ranges|
    ensures RangeRequests(member, ranges, length)[2 * k] == BarRequest(member, ranges[k])
    ensures RangeRequests(member, ranges, length)[2 * k + 1] == BarRequest(member, LookBackRange(ranges[k], length))
  {
    if k < |ranges| - 1 {
      RangeRequestsAt(member, ranges[..|ranges| - 1], length, k);
    }
  }

  function AllMemberBars(order: seq<Instrument>, ranges: Instrument -> seq<TimeRange>, whole: TimeRange, length: int,
                         saved: BarRequest -> SavedBars): (members: seq<MemberBars>)
    ensures |members| == |order|
  {
    if order == [] then []
    else
      var last := order[|order| - 1];
      AllMemberBars(order[..|order| - 1], ranges, whole, length, saved)
      + [MemberBarsOf(last, ranges(last), whole, length, saved)]
  }

  lemma {:induction false} AllMemberBarsAt(order: seq<Instrument>, ranges: Instrument -> seq<TimeRange>,
                                           whole: TimeRange, length: int,
                                           saved: BarRequest -> SavedBars, i: nat)
    requires i < |order|
    ensures AllMemberBars(order, ranges, whole, length, saved)[i]
         == MemberBarsOf(order[i], ranges(order[i]), whole, length, saved)
  {
    if i < |order| - 1 {
      AllMemberBarsAt(order[..|order| - 1], ranges, whole, length, saved, i);
    }
  }

  /** The bars of a source over the ranges of all members. */
  function AllCount(order: seq<Instrument>, ranges: Instrument -> seq<TimeRange>, saved: BarRequest -> SavedBars,
                    source: Source): nat {
    if order == [] then 0
    else AllCount(order[..|order| - 1], ranges, saved, source)
         + RangeCount(order[|order| - 1], ranges(order[|order| - 1]), saved, source)
  }

  ghost predicate AreAllCounts(counts: map<Source, nat>, order: seq<Instrument>, ranges: Instrument -> seq<TimeRange>,
                               saved: BarRequest -> SavedBars) {
    forall source ::
      (if source in counts then counts[source] else 0) == AllCount(order, ranges, saved, source)
  }

  lemma CountMember(counts0: map<Source, nat>, counts: map<Source, nat>, order: seq<Instrument>, k: nat,
                    ranges: Instrument -> seq<TimeRange>, saved: BarRequest -> SavedBars)
    requires k < |order| && AreAllCounts(counts0, order[..k], ranges, saved)
    requires AreCounts(counts, CountsOf(counts0), order[k], ranges(order[k]), saved)
    ensures AreAllCounts(counts, order[..k + 1], ranges, saved)
  {
    assert order[..k + 1][..k] == order[..k];
    forall source ensures CountOf(counts, source) == AllCount(order[..k + 1], ranges, saved, source) {
      assert CountOf(counts, source)
           == CountsOf(counts0)(source) + RangeCount(order[k], ranges(order[k]), saved, source);
    }
  }

  method TakeNextMember(order: seq<Instrument>, member: Instrument, memberRanges: seq<TimeRange>,
                        whole: TimeRange, length: int,
                        answers: seq<SavedBars>, cursor0: nat, counts0: map<Source, nat>,
                        ghost k: nat, ghost requests: seq<BarRequest>,
                        ghost ranges: Instrument -> seq<TimeRange>, ghost saved: BarRequest -> SavedBars)
    returns (bars: MemberBars, cursor: nat, counts: map<Source, nat>)
    requires k < |order| && member == order[k] && memberRanges == ranges(member)
    requires requests == AllRequests(order, ranges, whole, length) && AreAnswers(requests, answers, saved)
    requires cursor0 == |AllRequests(order[..k], ranges, whole, length)|
    requires AreAllCounts(counts0, order[..k], ranges, saved)
    ensures bars == MemberBarsOf(member, memberRanges, whole, length, saved)
    ensures cursor == |AllRequests(order[..k + 1], ranges, whole, length)|
    ensures AreAllCounts(counts, order[..k + 1], ranges, saved)
  {
    ghost var after := SplitRequests(order, ranges, whole, length, k);
    bars, cursor, counts := TakeMember(member, memberRanges, whole, length, answers, cursor0, counts0,
                                       requests, AllRequests(order[..k], ranges, whole, length), after, saved);
    CountMember(counts0, counts, order, k, ranges, saved);
    assert order[..k + 1][..k] == order[..k];
  }

  method TakeAnswers(order: seq<Instrument>, ranges: map<Instrument, seq<TimeRange>>, whole: TimeRange, length: int,
                     sources: seq<Source>, answers: seq<SavedBars>, ghost requests: seq<BarRequest>,
                     ghost find: Instrument -> seq<TimeRange>, ghost saved: BarRequest -> SavedBars)
    returns (members: seq<MemberBars>, used: nat, counts: map<Source, nat>)
    requires forall member <- order :: member in ranges && find(member) == ranges[member]
    requires requests == AllRequests(order, find, whole, length) && AreAnswers(requests, answers, saved)
    ensures members == AllMemberBars(order, find, whole, length, saved)
    ensures used == |requests|
    ensures AreAllCounts(counts, order, find, saved)
  {
    members, used := [], 0;
    counts := map source | source in sources :: 0;
    for k := 0 to |order|
      invariant members == AllMemberBars(order[..k], find, whole, length, saved)
      invariant used == |AllRequests(order[..k], find, whole, length)| && AreAllCounts(counts, order[..k], find, saved)
    {
      assert order[k] in order;
      var bars;
      bars, used, counts := TakeNextMember(order, order[k], ranges[order[k]], whole, length, answers, used, counts, k,
                                           requests, find, saved);
      assert order[..k + 1][..k] == order[..k];
      members := members + [bars];
    }
    assert order[..|order|] == order;
  }

  function FindRanges(periods: seq<Period>, whole: TimeRange): Instrument -> seq<TimeRange> {
    member => RangesOf(periods, whole.endUtc, member)
  }

  /**
   * Each answer goes to the request that it was built for, and all answers are used. `order`: the members, each with a
   * period in the universe. The counts are those of the ranges.
   */
  method ReadMembers(periods: seq<Period>, whole: TimeRange, length: int, sources: seq<Source>,
                     saved: BarRequest -> SavedBars)
    returns (members: seq<MemberBars>, order: seq<Instrument>, used: nat, asked: nat, counts: map<Source, nat>)
    ensures forall member :: member in order <==> RangesOf(periods, whole.endUtc, member) != []
    ensures forall i, j :: 0 <= i < j < |order| ==> order[i] != order[j]
    ensures members == AllMemberBars(order, FindRanges(periods, whole), whole, length, saved)
    ensures used == asked
    ensures AreAllCounts(counts, order, FindRanges(periods, whole), saved)
  {
    var ranges;
    order, ranges := FindMemberRanges(periods, whole.endUtc);
    ghost var find := FindRanges(periods, whole);
    forall member ensures member in order <==> find(member) != [] {
      assert Find(ranges, member) == find(member);
    }
    var requests := BuildRequests(order, ranges, whole, length, find);
    var answers := seq(|requests|, i requires 0 <= i < |requests| => saved(requests[i]));
    asked := |answers|;
    members, used, counts := TakeAnswers(order, ranges, whole, length, sources, answers, requests, find, saved);
  }

  lemma {:induction false} SplitRequests(order: seq<Instrument>, ranges: Instrument -> seq<TimeRange>, whole: TimeRange,
                                         length: int, k: nat)
    returns (after: seq<BarRequest>)
    requires k < |order|
    ensures AllRequests(order, ranges, whole, length)
         == AllRequests(order[..k], ranges, whole, length)
            + MemberRequests(order[k], ranges(order[k]), whole, length) + after
  {
    if k == |order| - 1 {
      after := [];
    } else {
      var init := order[..|order| - 1];
      var last := order[|order| - 1];
      after := SplitRequests(init, ranges, whole, length, k);
      assert init[..k] == order[..k];
      after := after + MemberRequests(last, ranges(last), whole, length);
    }
  }
}
