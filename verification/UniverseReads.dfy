/** Which bars a universe read gives: the bars of the membership, of the look-back before it, and of the whole range. */
module UniverseReads {
  import opened Sequences
  import opened Bars
  import opened UniverseRanges
  import opened UniverseBars
  import opened UniverseListings

  /** Whether the bar store has a bar of an instrument at a start. */
  type Store = (Instrument, int) -> bool

  /** Each bar of an answer starts inside its request. */
  ghost predicate AreInside(saved: BarRequest -> SavedBars) {
    forall request: BarRequest, start ::
      HasStart(saved(request).bars, start) ==> Contains(request.range, start)
  }

  /** Each answer has exactly the bars of the store inside its request. */
  ghost predicate AreOfStore(saved: BarRequest -> SavedBars, store: Store) {
    forall request: BarRequest, start ::
      HasStart(saved(request).bars, start) <==> store(request.instrument, start) && Contains(request.range, start)
  }

  // ---------------------------------------------------------------- one listing

  ghost predicate HasRangeBar(member: Instrument, ranges: seq<TimeRange>, saved: BarRequest -> SavedBars, start: int) {
    exists i :: 0 <= i < |ranges| && HasStart(saved(BarRequest(member, ranges[i])).bars, start)
  }

  lemma {:induction false} RangeBarsHave(member: Instrument, ranges: seq<TimeRange>, saved: BarRequest -> SavedBars,
                                         start: int)
    ensures HasStart(RangeBars(member, ranges, saved), start) <==> HasRangeBar(member, ranges, saved, start)
  {
    if ranges != [] {
      var init, last := ranges[..|ranges| - 1], ranges[|ranges| - 1];
      RangeBarsHave(member, init, saved, start);
      AppendedStart(RangeBars(member, init, saved), saved(BarRequest(member, last)).bars, start);
      if i :| 0 <= i < |init| && HasStart(saved(BarRequest(member, init[i])).bars, start) {
        assert ranges[i] == init[i];
      }
      if i :| 0 <= i < |ranges| && HasStart(saved(BarRequest(member, ranges[i])).bars, start) {
        assert i < |init| ==> init[i] == ranges[i];
      }
    }
  }

  /** The time before the start of a range. */
  predicate IsBefore(range: TimeRange, length: int, start: int) {
    range.startUtc - length <= start < range.startUtc
  }

  ghost predicate HasLookBackBar(member: Instrument, ranges: seq<TimeRange>, length: int,
                                 saved: BarRequest -> SavedBars, start: int) {
    exists i :: 0 <= i < |ranges| && HasStart(saved(BarRequest(member, LookBackRange(ranges[i], length))).bars, start)
  }

  lemma {:induction false} LookBackBarsHave(member: Instrument, ranges: seq<TimeRange>, length: int,
                                            saved: BarRequest -> SavedBars, start: int)
    ensures HasStart(LookBackBars(member, ranges, length, saved), start)
       <==> HasLookBackBar(member, ranges, length, saved, start)
  {
    if ranges != [] {
      var init, last := ranges[..|ranges| - 1], ranges[|ranges| - 1];
      LookBackBarsHave(member, init, length, saved, start);
      AppendedStart(LookBackBars(member, init, length, saved),
                    saved(BarRequest(member, LookBackRange(last, length))).bars, start);
      if i :| 0 <= i < |init| && HasStart(saved(BarRequest(member, LookBackRange(init[i], length))).bars, start) {
        assert ranges[i] == init[i];
      }
      if i :| 0 <= i < |ranges| && HasStart(saved(BarRequest(member, LookBackRange(ranges[i], length))).bars, start) {
        assert i < |init| ==> init[i] == ranges[i];
      }
    }
  }

  lemma OpenBarsHave(member: Instrument, ranges: seq<TimeRange>, whole: TimeRange, saved: BarRequest -> SavedBars,
                     start: int)
    ensures HasStart(OpenBars(member, ranges, whole, saved), start)
       <==> HasStart(saved(BarRequest(member, whole)).bars, start)
  {
    if ranges == [whole] {
      assert ranges[..0] == [];
      AppendedStart(RangeBars(member, [], saved), saved(BarRequest(member, whole)).bars, start);
    }
  }

  ghost predicate IsBeforeOne(ranges: seq<TimeRange>, length: int, start: int) {
    exists i :: 0 <= i < |ranges| && IsBefore(ranges[i], length, start)
  }

  /** No listing has a bar outside its ranges, a look-back bar outside the length before one, or an open bar outside. */
  lemma ListingIsInside(member: Instrument, ranges: seq<TimeRange>, whole: TimeRange, length: int,
                        saved: BarRequest -> SavedBars, start: int)
    requires AreInside(saved)
    ensures var bars := MemberBarsOf(member, ranges, whole, length, saved);
      && (HasStart(bars.bars, start) ==> IsCovered(ranges, start))
      && (HasStart(bars.lookBackBars, start) ==> IsBeforeOne(ranges, length, start))
      && (HasStart(bars.openBars, start) ==> Contains(whole, start))
  {
    RangeBarsHave(member, ranges, saved, start);
    LookBackBarsHave(member, ranges, length, saved, start);
    MergedStart(LookBackBars(member, ranges, length, saved), start);
    OpenBarsHave(member, ranges, whole, saved, start);
    if HasLookBackBar(member, ranges, length, saved, start) {
      var i :| 0 <= i < |ranges| && HasStart(saved(BarRequest(member, LookBackRange(ranges[i], length))).bars, start);
      assert IsBefore(ranges[i], length, start);
    }
  }

  /** A listing has exactly the stored bars of its ranges, of the length before each one, and of the whole range. */
  lemma ListingIsOfStore(member: Instrument, ranges: seq<TimeRange>, whole: TimeRange, length: int,
                         saved: BarRequest -> SavedBars, store: Store, start: int)
    requires AreOfStore(saved, store)
    ensures var bars := MemberBarsOf(member, ranges, whole, length, saved);
      && (HasStart(bars.bars, start) <==> store(member, start) && IsCovered(ranges, start))
      && (HasStart(bars.lookBackBars, start) <==> store(member, start) && IsBeforeOne(ranges, length, start))
      && (HasStart(bars.openBars, start) <==> store(member, start) && Contains(whole, start))
  {
    ListingIsInside(member, ranges, whole, length, saved, start);
    RangeBarsHave(member, ranges, saved, start);
    LookBackBarsHave(member, ranges, length, saved, start);
    MergedStart(LookBackBars(member, ranges, length, saved), start);
    OpenBarsHave(member, ranges, whole, saved, start);
    if store(member, start) && IsCovered(ranges, start) {
      var i :| 0 <= i < |ranges| && Contains(ranges[i], start);
      assert HasStart(saved(BarRequest(member, ranges[i])).bars, start);
    }
    if store(member, start) && IsBeforeOne(ranges, length, start) {
      var i :| 0 <= i < |ranges| && IsBefore(ranges[i], length, start);
      assert HasStart(saved(BarRequest(member, LookBackRange(ranges[i], length))).bars, start);
    }
  }

  // ---------------------------------------------------------------- joins of the universe

  /** The instrument is a member at the time, and was none right before it. */
  ghost predicate Joins(periods: seq<Period>, endUtc: int, instrument: Instrument, timeUtc: int) {
    && IsMemberAt(periods, endUtc, |periods|, instrument, timeUtc)
    && !IsMemberAt(periods, endUtc, |periods|, instrument, timeUtc - 1)
  }

  lemma StartsAreJoins(ranges: seq<TimeRange>, timeUtc: int)
    requires IsCanonical(ranges)
    ensures (exists i :: 0 <= i < |ranges| && ranges[i].startUtc == timeUtc)
       <==> IsCovered(ranges, timeUtc) && !IsCovered(ranges, timeUtc - 1)
  {
    if i :| 0 <= i < |ranges| && ranges[i].startUtc == timeUtc {
      assert Contains(ranges[i], timeUtc);
      forall j | 0 <= j < |ranges| ensures !Contains(ranges[j], timeUtc - 1) {
        assert j < i ==> ranges[j].endUtc < ranges[i].startUtc;
        assert j > i ==> ranges[i].endUtc < ranges[j].startUtc;
      }
    }
    if IsCovered(ranges, timeUtc) && !IsCovered(ranges, timeUtc - 1) {
      var i :| 0 <= i < |ranges| && Contains(ranges[i], timeUtc);
      assert !Contains(ranges[i], timeUtc - 1);
    }
  }

  ghost predicate IsBeforeJoin(periods: seq<Period>, endUtc: int, instrument: Instrument, length: int, start: int) {
    exists joinUtc :: Joins(periods, endUtc, instrument, joinUtc) && joinUtc - length <= start < joinUtc
  }

  lemma BeforeRangeIsBeforeJoin(periods: seq<Period>, endUtc: int, instrument: Instrument, length: int, start: int)
    requires IsTimeline(periods, endUtc)
    ensures IsBeforeOne(RangesOf(periods, endUtc, instrument), length, start)
       <==> IsBeforeJoin(periods, endUtc, instrument, length, start)
  {
    var ranges := RangesOf(periods, endUtc, instrument);
    RangesAreCanonical(periods, endUtc, instrument);
    if IsBeforeOne(ranges, length, start) {
      var i :| 0 <= i < |ranges| && IsBefore(ranges[i], length, start);
      StartsAreJoins(ranges, ranges[i].startUtc);
      assert Joins(periods, endUtc, instrument, ranges[i].startUtc);
    }
    if IsBeforeJoin(periods, endUtc, instrument, length, start) {
      var joinUtc :| Joins(periods, endUtc, instrument, joinUtc) && joinUtc - length <= start < joinUtc;
      StartsAreJoins(ranges, joinUtc);
      var i :| 0 <= i < |ranges| && ranges[i].startUtc == joinUtc;
      assert IsBefore(ranges[i], length, start);
    }
  }

  // ---------------------------------------------------------------- the listings of one member

  /** The listings that were read, by their index in `order`. */
  ghost predicate IsListing(listing: MemberBars, order: seq<Instrument>, periods: seq<Period>, whole: TimeRange,
                            length: int, saved: BarRequest -> SavedBars, instrument: Instrument) {
    && instrument in order
    && listing == MemberBarsOf(instrument, RangesOf(periods, whole.endUtc, instrument), whole, length, saved)
  }

  lemma ListingsAreRead(order: seq<Instrument>, periods: seq<Period>, whole: TimeRange, length: int,
                        saved: BarRequest -> SavedBars, symbol: Symbol, listing: MemberBars)
    ensures var listings := AllMemberBars(order, FindRanges(periods, whole), whole, length, saved);
      listing in ListingsOf(listings, symbol)
      <==> exists instrument <- order ::
             instrument.symbol == symbol && IsListing(listing, order, periods, whole, length, saved, instrument)
  {
    var listings := AllMemberBars(order, FindRanges(periods, whole), whole, length, saved);
    FilterKeeps(listings, HasSymbol(symbol), listing);
    if listing in listings {
      var i :| 0 <= i < |listings| && listings[i] == listing;
      AllMemberBarsAt(order, FindRanges(periods, whole), whole, length, saved, i);
      assert order[i] in order && IsListing(listing, order, periods, whole, length, saved, order[i]);
    }
    if instrument :| instrument in order && instrument.symbol == symbol
                     && IsListing(listing, order, periods, whole, length, saved, instrument) {
      var i :| 0 <= i < |order| && order[i] == instrument;
      AllMemberBarsAt(order, FindRanges(periods, whole), whole, length, saved, i);
      assert listings[i] == listing;
    }
  }

  /** One listing of the symbol has a bar at the start. */
  ghost predicate ListingHas(order: seq<Instrument>, periods: seq<Period>, whole: TimeRange, length: int,
                             saved: BarRequest -> SavedBars, symbol: Symbol, barsOf: MemberBars -> seq<Bar>,
                             start: int) {
    exists instrument <- order :: instrument.symbol == symbol
      && HasStart(barsOf(MemberBarsOf(instrument, RangesOf(periods, whole.endUtc, instrument), whole, length, saved)),
                  start)
  }

  lemma MergedHas(order: seq<Instrument>, periods: seq<Period>, whole: TimeRange, length: int,
                  saved: BarRequest -> SavedBars, symbol: Symbol, barsOf: MemberBars -> seq<Bar>, start: int)
    ensures var listings := AllMemberBars(order, FindRanges(periods, whole), whole, length, saved);
      HasStart(MergedBars(ListingsOf(listings, symbol), barsOf), start)
      <==> ListingHas(order, periods, whole, length, saved, symbol, barsOf, start)
  {
    var own := ListingsOf(AllMemberBars(order, FindRanges(periods, whole), whole, length, saved), symbol);
    MergeKeepsStarts(own, barsOf, start);
    if i :| 0 <= i < |own| && HasStart(barsOf(own[i]), start) {
      ListingsAreRead(order, periods, whole, length, saved, symbol, own[i]);
    }
    if ListingHas(order, periods, whole, length, saved, symbol, barsOf, start) {
      var instrument :| instrument in order && instrument.symbol == symbol
        && HasStart(barsOf(MemberBarsOf(instrument, RangesOf(periods, whole.endUtc, instrument), whole, length, saved)),
                    start);
      var listing := MemberBarsOf(instrument, RangesOf(periods, whole.endUtc, instrument), whole, length, saved);
      ListingsAreRead(order, periods, whole, length, saved, symbol, listing);
      var i :| 0 <= i < |own| && own[i] == listing;
      assert HasStart(barsOf(own[i]), start);
    }
  }

  /** A merged member has the symbol of its listings. */
  lemma MergedHasSymbol(listings: seq<MemberBars>, symbol: Symbol)
    requires ListingsOf(listings, symbol) != []
    ensures Merged(ListingsOf(listings, symbol)).instrument.symbol == symbol
  {
    var own := ListingsOf(listings, symbol);
    FilterKeeps(listings, HasSymbol(symbol), own[LastIn(own, |own|)]);
  }

  lemma MemberIsMerge(members: seq<MemberBars>, order: seq<Instrument>, periods: seq<Period>, whole: TimeRange,
                      length: int, saved: BarRequest -> SavedBars, i: nat)
    requires IsRead(members, order, periods, whole, length, saved) && i < |members|
    ensures var listings := AllMemberBars(order, FindRanges(periods, whole), whole, length, saved);
      var own := ListingsOf(listings, members[i].instrument.symbol);
      own != [] && members[i] == Merged(own)
  {
    var listings := AllMemberBars(order, FindRanges(periods, whole), whole, length, saved);
    assert IsMergeOf(members[i], listings, SymbolsOf(listings)[i]);
    MergedHasSymbol(listings, SymbolsOf(listings)[i]);
  }

  // ---------------------------------------------------------------- the whole read

  ghost predicate IsMember(periods: seq<Period>, whole: TimeRange, instrument: Instrument, timeUtc: int) {
    IsMemberAt(periods, whole.endUtc, |periods|, instrument, timeUtc)
  }

  lemma MembersHave(members: seq<MemberBars>, order: seq<Instrument>, periods: seq<Period>, whole: TimeRange,
                    length: int, saved: BarRequest -> SavedBars, i: nat, start: int)
    requires IsRead(members, order, periods, whole, length, saved) && i < |members|
    ensures var symbol := members[i].instrument.symbol;
      && (HasStart(members[i].bars, start)
          <==> ListingHas(order, periods, whole, length, saved, symbol, RangeBarsOf, start))
      && (HasStart(members[i].lookBackBars, start)
          <==> ListingHas(order, periods, whole, length, saved, symbol, LookBackBarsOf, start))
      && (HasStart(members[i].openBars, start)
          <==> ListingHas(order, periods, whole, length, saved, symbol, OpenBarsOf, start))
  {
    MemberIsMerge(members, order, periods, whole, length, saved, i);
    var symbol := members[i].instrument.symbol;
    MergedHas(order, periods, whole, length, saved, symbol, RangeBarsOf, start);
    MergedHas(order, periods, whole, length, saved, symbol, LookBackBarsOf, start);
    MergedHas(order, periods, whole, length, saved, symbol, OpenBarsOf, start);
  }

  /** The instrument is a listing of the symbol that is a member at some time. */
  ghost predicate IsListed(periods: seq<Period>, whole: TimeRange, symbol: Symbol, instrument: Instrument) {
    instrument.symbol == symbol && exists timeUtc :: IsMember(periods, whole, instrument, timeUtc)
  }

  lemma OrderIsListed(order: seq<Instrument>, periods: seq<Period>, whole: TimeRange, instrument: Instrument)
    requires IsTimeline(periods, whole.endUtc)
    requires forall member :: member in order <==> RangesOf(periods, whole.endUtc, member) != []
    ensures instrument in order <==> exists timeUtc :: IsMember(periods, whole, instrument, timeUtc)
  {
    var ranges := RangesOf(periods, whole.endUtc, instrument);
    RangesAreCanonical(periods, whole.endUtc, instrument);
    if instrument in order {
      assert Contains(ranges[0], ranges[0].startUtc);
      assert IsMember(periods, whole, instrument, ranges[0].startUtc);
    }
  }

  /**
   * When each answer has only bars inside its request: each bar of a member starts while one of its listings is in the
   * universe, each look-back bar at most the length before a listing joins, and each open bar in the whole range.
   */
  lemma ReadIsInside(members: seq<MemberBars>, order: seq<Instrument>, periods: seq<Period>, whole: TimeRange,
                     length: int, saved: BarRequest -> SavedBars, i: nat, start: int)
    requires IsRead(members, order, periods, whole, length, saved) && i < |members|
    requires IsTimeline(periods, whole.endUtc) && AreInside(saved)
    ensures var symbol := members[i].instrument.symbol;
      && (HasStart(members[i].bars, start) ==>
            exists listing: Instrument :: listing.symbol == symbol && IsMember(periods, whole, listing, start))
      && (HasStart(members[i].lookBackBars, start) ==>
            exists listing: Instrument ::
              listing.symbol == symbol && IsBeforeJoin(periods, whole.endUtc, listing, length, start))
      && (HasStart(members[i].openBars, start) ==> Contains(whole, start))
  {
    MembersHave(members, order, periods, whole, length, saved, i, start);
    forall listing <- order
      ensures var bars := MemberBarsOf(listing, RangesOf(periods, whole.endUtc, listing), whole, length, saved);
        && (HasStart(bars.bars, start) ==> IsMember(periods, whole, listing, start))
        && (HasStart(bars.lookBackBars, start) ==> IsBeforeJoin(periods, whole.endUtc, listing, length, start))
        && (HasStart(bars.openBars, start) ==> Contains(whole, start))
    {
      ListingIsInside(listing, RangesOf(periods, whole.endUtc, listing), whole, length, saved, start);
      RangesAreCanonical(periods, whole.endUtc, listing);
      BeforeRangeIsBeforeJoin(periods, whole.endUtc, listing, length, start);
    }
  }

  /** What the answers of the store give for one listing, by its membership. */
  ghost predicate IsOfStore(bars: MemberBars, periods: seq<Period>, whole: TimeRange, length: int, store: Store,
                            listing: Instrument, start: int) {
    && (HasStart(bars.bars, start) <==> store(listing, start) && IsMember(periods, whole, listing, start))
    && (HasStart(bars.lookBackBars, start)
        <==> store(listing, start) && IsBeforeJoin(periods, whole.endUtc, listing, length, start))
    && (HasStart(bars.openBars, start) <==> store(listing, start) && Contains(whole, start))
  }

  lemma ListingFollowsMembership(periods: seq<Period>, whole: TimeRange, length: int, saved: BarRequest -> SavedBars,
                                 store: Store, listing: Instrument, start: int)
    requires IsTimeline(periods, whole.endUtc) && AreOfStore(saved, store)
    ensures IsOfStore(MemberBarsOf(listing, RangesOf(periods, whole.endUtc, listing), whole, length, saved),
                      periods, whole, length, store, listing, start)
  {
    ListingIsOfStore(listing, RangesOf(periods, whole.endUtc, listing), whole, length, saved, store, start);
    RangesAreCanonical(periods, whole.endUtc, listing);
    BeforeRangeIsBeforeJoin(periods, whole.endUtc, listing, length, start);
  }

  /**
   * When the answers are those of a bar store: a member has exactly the stored bars of its listings while they are in
   * the universe, the look-back bars before each join, and the open bars of the whole range.
   */
  lemma ReadIsOfStore(members: seq<MemberBars>, order: seq<Instrument>, periods: seq<Period>, whole: TimeRange,
                      length: int, saved: BarRequest -> SavedBars, store: Store, i: nat, start: int)
    requires IsRead(members, order, periods, whole, length, saved) && i < |members|
    requires IsTimeline(periods, whole.endUtc) && AreOfStore(saved, store)
    ensures var symbol := members[i].instrument.symbol;
      && (HasStart(members[i].bars, start)
          <==> exists listing :: IsListed(periods, whole, symbol, listing) && store(listing, start)
                                 && IsMember(periods, whole, listing, start))
      && (HasStart(members[i].lookBackBars, start)
          <==> exists listing :: IsListed(periods, whole, symbol, listing) && store(listing, start)
                                 && IsBeforeJoin(periods, whole.endUtc, listing, length, start))
      && (HasStart(members[i].openBars, start)
          <==> exists listing :: IsListed(periods, whole, symbol, listing) && store(listing, start)
                                 && Contains(whole, start))
  {
    MembersHave(members, order, periods, whole, length, saved, i, start);
    forall listing ensures listing in order <==> exists timeUtc :: IsMember(periods, whole, listing, timeUtc) {
      OrderIsListed(order, periods, whole, listing);
    }
    forall listing
      ensures IsOfStore(MemberBarsOf(listing, RangesOf(periods, whole.endUtc, listing), whole, length, saved),
                        periods, whole, length, store, listing, start)
    {
      ListingFollowsMembership(periods, whole, length, saved, store, listing, start);
    }
  }

  // ---------------------------------------------------------------- the counts

  /** The count of one range is that of its answer, and the counts of ranges add. */
  lemma {:induction false} RangeCountsAdd(member: Instrument, a: seq<TimeRange>, b: seq<TimeRange>,
                                          saved: BarRequest -> SavedBars, source: Source)
    ensures RangeCount(member, a + b, saved, source)
         == RangeCount(member, a, saved, source) + RangeCount(member, b, saved, source)
    ensures |b| == 1 ==>
              var counts := saved(BarRequest(member, b[0])).counts;
              RangeCount(member, b, saved, source) == if source in counts then counts[source] else 0
  {
    if b == [] {
      assert a + b == a;
    } else {
      RangeCountsAdd(member, a, b[..|b| - 1], saved, source);
      assert (a + b)[..|a + b| - 1] == a + b[..|b| - 1];
    }
  }

  /** The counts of the members add, and that of one member is the one of its ranges. */
  lemma {:induction false} AllCountsAdd(a: seq<Instrument>, b: seq<Instrument>, ranges: Instrument -> seq<TimeRange>,
                                        saved: BarRequest -> SavedBars, source: Source)
    ensures AllCount(a + b, ranges, saved, source)
         == AllCount(a, ranges, saved, source) + AllCount(b, ranges, saved, source)
    ensures |b| == 1 ==> AllCount(b, ranges, saved, source) == RangeCount(b[0], ranges(b[0]), saved, source)
  {
    if b == [] {
      assert a + b == a;
    } else {
      AllCountsAdd(a, b[..|b| - 1], ranges, saved, source);
      assert (a + b)[..|a + b| - 1] == a + b[..|b| - 1];
    }
  }
}
