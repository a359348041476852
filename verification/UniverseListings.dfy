/** The listings of one symbol become one member, and the read of the universe bars ends with these members. */
module UniverseListings {
  import opened Sequences
  import opened Bars
  import opened UniverseRanges
  import opened UniverseBars

  // ---------------------------------------------------------------- the listings of a symbol

  function HasSymbol(symbol: Symbol): MemberBars -> bool { (member: MemberBars) => member.instrument.symbol == symbol }

  function ListingsOf(members: seq<MemberBars>, symbol: Symbol): seq<MemberBars> { Filter(members, HasSymbol(symbol)) }

  /** The keys of the dictionary of the listings by symbol, in insertion order. */
  function SymbolsOf(members: seq<MemberBars>): (symbols: seq<Symbol>)
    ensures forall i, j :: 0 <= i < j < |symbols| ==> symbols[i] != symbols[j]
    ensures forall member <- members :: member.instrument.symbol in symbols
    ensures forall symbol <- symbols :: exists member <- members :: member.instrument.symbol == symbol
  {
    if members == [] then []
    else
      var before, symbol := SymbolsOf(members[..|members| - 1]), members[|members| - 1].instrument.symbol;
      assert members == members[..|members| - 1] + [members[|members| - 1]];
      if symbol in before then before else before + [symbol]
  }

  ghost predicate AreGroups(symbols: seq<Symbol>, groups: map<Symbol, seq<MemberBars>>, members: seq<MemberBars>) {
    && symbols == SymbolsOf(members)
    && (forall symbol :: symbol in symbols <==> symbol in groups)
    && (forall symbol <- symbols :: groups[symbol] == ListingsOf(members, symbol))
  }

  function GroupOf(groups: map<Symbol, seq<MemberBars>>, symbol: Symbol): seq<MemberBars> {
    if symbol in groups then groups[symbol] else []
  }

  lemma ListingsOfOneMore(members: seq<MemberBars>, member: MemberBars, symbol: Symbol)
    ensures ListingsOf(members + [member], symbol)
         == ListingsOf(members, symbol) + if member.instrument.symbol == symbol then [member] else []
  {
    FilterAppend(members, [member], HasSymbol(symbol));
    FilterOne(member, HasSymbol(symbol));
  }

  lemma SymbolsOfOneMore(members: seq<MemberBars>, member: MemberBars)
    ensures var symbols, symbol := SymbolsOf(members), member.instrument.symbol;
      SymbolsOf(members + [member]) == if symbol in symbols then symbols else symbols + [symbol]
  {
    assert (members + [member])[..|members|] == members;
  }

  lemma NoListingsOfOther(members: seq<MemberBars>, symbol: Symbol)
    requires symbol !in SymbolsOf(members)
    ensures ListingsOf(members, symbol) == []
  {
    FilterNone(members, HasSymbol(symbol));
  }

  lemma GroupOfOneMore(symbols: seq<Symbol>, groups: map<Symbol, seq<MemberBars>>,
                       members: seq<MemberBars>, member: MemberBars,
                       symbol: Symbol)
    requires AreGroups(symbols, groups, members) && (symbol in symbols || symbol == member.instrument.symbol)
    ensures GroupOf(groups, symbol) + (if member.instrument.symbol == symbol then [member] else [])
         == ListingsOf(members + [member], symbol)
  {
    ListingsOfOneMore(members, member, symbol);
    if symbol !in groups {
      NoListingsOfOther(members, symbol);
    }
  }

  lemma AddToGroup(symbols: seq<Symbol>, groups: map<Symbol, seq<MemberBars>>,
                   members: seq<MemberBars>, member: MemberBars)
    requires AreGroups(symbols, groups, members)
    ensures var symbol := member.instrument.symbol;
      AreGroups(if symbol in groups then symbols else symbols + [symbol],
                groups[symbol := GroupOf(groups, symbol) + [member]], members + [member])
  {
    SymbolsOfOneMore(members, member);
    var own := member.instrument.symbol;
    var after := groups[own := GroupOf(groups, own) + [member]];
    forall symbol <- after ensures after[symbol] == ListingsOf(members + [member], symbol) {
      GroupOfOneMore(symbols, groups, members, member, symbol);
    }
  }

  method GroupBySymbol(members: seq<MemberBars>) returns (symbols: seq<Symbol>, groups: map<Symbol, seq<MemberBars>>)
    ensures AreGroups(symbols, groups, members)
  {
    symbols, groups := [], map[];
    for i := 0 to |members|
      invariant AreGroups(symbols, groups, members[..i])
    {
      var symbol := members[i].instrument.symbol;
      AddToGroup(symbols, groups, members[..i], members[i]);
      TakeNext(members, i);
      symbols := if symbol in groups then symbols else symbols + [symbol];
      groups := groups[symbol := GroupOf(groups, symbol) + [members[i]]];
    }
    assert members[..|members|] == members;
  }

  // ---------------------------------------------------------------- one member from its listings

  function LastOpen(listing: MemberBars): int
    requires listing.openBars != []
  {
    listing.openBars[|listing.openBars| - 1].startUtc
  }

  /** No listing before `i` is as late, and none is later. */
  ghost predicate IsLatest(listings: seq<MemberBars>, i: int) {
    && 0 <= i < |listings| && listings[i].openBars != []
    && (forall j :: 0 <= j < i && listings[j].openBars != [] ==> LastOpen(listings[j]) < LastOpen(listings[i]))
    && (forall j :: i < j < |listings| && listings[j].openBars != [] ==> LastOpen(listings[j]) <= LastOpen(listings[i]))
  }

  /** The listing of the last open bar, or the first listing when none has a bar. */
  ghost predicate IsLastListing(listings: seq<MemberBars>, i: int) {
    IsLatest(listings, i) || (i == 0 < |listings| && forall listing <- listings :: listing.openBars == [])
  }

  /** The loop over the first `count` listings. */
  function LastIn(listings: seq<MemberBars>, count: nat): (last: nat)
    requires listings != [] && count <= |listings|
    ensures last < |listings|
  {
    if count == 0 then 0
    else
      var before, listing := LastIn(listings, count - 1), listings[count - 1];
      if listing.openBars != [] && (listings[before].openBars == [] || LastOpen(listing) > LastOpen(listings[before]))
      then count - 1 else before
  }

  ghost predicate IsLastUpTo(listings: seq<MemberBars>, count: nat, i: nat)
    requires count <= |listings|
  {
    IsLatest(listings[..count], i) || (i == 0 && forall j :: 0 <= j < count ==> listings[j].openBars == [])
  }

  lemma {:induction false} LastInIsLast(listings: seq<MemberBars>, count: nat)
    requires listings != [] && count <= |listings|
    ensures IsLastUpTo(listings, count, LastIn(listings, count))
  {
    if count > 0 {
      LastInIsLast(listings, count - 1);
    }
  }

  /** The found listing has the last open bar, and it is the only such one. */
  lemma LastListingIsLast(listings: seq<MemberBars>)
    requires listings != []
    ensures forall i :: IsLastListing(listings, i) <==> i == LastIn(listings, |listings|)
  {
    LastInIsLast(listings, |listings|);
    assert listings[..|listings|] == listings;
    var last := LastIn(listings, |listings|);
    assert IsLastListing(listings, last);
    forall i | IsLastListing(listings, i) ensures i == last {
      LastListingIsUnique(listings, i, last);
    }
  }

  lemma LastListingIsUnique(listings: seq<MemberBars>, i: int, j: int)
    requires IsLastListing(listings, i) && IsLastListing(listings, j)
    ensures i == j
  {
    if IsLatest(listings, i) {
      assert listings[i] in listings;
    }
    if IsLatest(listings, j) {
      assert listings[j] in listings;
    }
  }

  function JoinedBars(lists: seq<seq<Bar>>): seq<Bar> {
    if lists == [] then [] else JoinedBars(lists[..|lists| - 1]) + lists[|lists| - 1]
  }

  function BarLists(listings: seq<MemberBars>, barsOf: MemberBars -> seq<Bar>): (lists: seq<seq<Bar>>)
    ensures |lists| == |listings| && forall i :: 0 <= i < |listings| ==> lists[i] == barsOf(listings[i])
  {
    seq(|listings|, i requires 0 <= i < |listings| => barsOf(listings[i]))
  }

  function MergedBars(listings: seq<MemberBars>, barsOf: MemberBars -> seq<Bar>): seq<Bar> {
    MergeBars(JoinedBars(BarLists(listings, barsOf)))
  }

  const RangeBarsOf: MemberBars -> seq<Bar> := (member: MemberBars) => member.bars
  const LookBackBarsOf: MemberBars -> seq<Bar> := (member: MemberBars) => member.lookBackBars
  const OpenBarsOf: MemberBars -> seq<Bar> := (member: MemberBars) => member.openBars

  /** The bars of all listings, on the exchange of the last open bar. */
  function Merged(listings: seq<MemberBars>): MemberBars
    requires listings != []
  {
    MemberBars(listings[LastIn(listings, |listings|)].instrument, MergedBars(listings, RangeBarsOf),
               MergedBars(listings, LookBackBarsOf), MergedBars(listings, OpenBarsOf))
  }

  lemma SymbolHasListing(members: seq<MemberBars>, symbol: Symbol)
    requires symbol in SymbolsOf(members)
    ensures ListingsOf(members, symbol) != []
  {
    var member :| member in members && member.instrument.symbol == symbol;
    FilterKeeps(members, HasSymbol(symbol), member);
  }

  ghost predicate AreMerged(merged: seq<MemberBars>, members: seq<MemberBars>) {
    && |merged| == |SymbolsOf(members)|
    && forall i :: 0 <= i < |merged| ==> IsMergeOf(merged[i], members, SymbolsOf(members)[i])
  }

  ghost predicate IsMergeOf(merged: MemberBars, members: seq<MemberBars>, symbol: Symbol) {
    ListingsOf(members, symbol) != [] && merged == Merged(ListingsOf(members, symbol))
  }

  lemma GroupsAreListings(symbols: seq<Symbol>, groups: map<Symbol, seq<MemberBars>>, members: seq<MemberBars>, i: nat)
    requires AreGroups(symbols, groups, members) && i < |symbols|
    ensures symbols[i] in groups && groups[symbols[i]] == ListingsOf(members, symbols[i]) != []
  {
    assert symbols[i] in symbols;
    SymbolHasListing(members, symbols[i]);
  }

  /** One member for each symbol, in the order of the first listings. */
  method MergeSymbolMembers(members: seq<MemberBars>) returns (merged: seq<MemberBars>)
    ensures AreMerged(merged, members)
  {
    var symbols, groups := GroupBySymbol(members);
    forall i | 0 <= i < |symbols|
      ensures symbols[i] in groups && groups[symbols[i]] == ListingsOf(members, symbols[i]) != []
    {
      GroupsAreListings(symbols, groups, members, i);
    }
    merged := seq(|symbols|, i requires 0 <= i < |symbols| => Merged(groups[symbols[i]]));
  }

  // ---------------------------------------------------------------- what the merge keeps

  lemma {:induction false} JoinedHasStart(lists: seq<seq<Bar>>, start: int)
    ensures HasStart(JoinedBars(lists), start) <==> exists i :: 0 <= i < |lists| && HasStart(lists[i], start)
  {
    if lists != [] {
      var init, last := lists[..|lists| - 1], lists[|lists| - 1];
      JoinedHasStart(init, start);
      AppendedStart(JoinedBars(init), last, start);
      if i :| 0 <= i < |init| && HasStart(init[i], start) {
        assert HasStart(lists[i], start);
      }
      if i :| 0 <= i < |lists| && HasStart(lists[i], start) {
        assert i < |init| ==> HasStart(init[i], start);
      }
    }
  }

  lemma AppendedStart(a: seq<Bar>, b: seq<Bar>, start: int)
    ensures HasStart(a + b, start) <==> HasStart(a, start) || HasStart(b, start)
  {
    if i :| 0 <= i < |a + b| && (a + b)[i].startUtc == start {
      assert if i < |a| then a[i].startUtc == start else b[i - |a|].startUtc == start;
    }
    if i :| 0 <= i < |a| && a[i].startUtc == start {
      assert (a + b)[i].startUtc == start;
    }
    if i :| 0 <= i < |b| && b[i].startUtc == start {
      assert (a + b)[|a| + i].startUtc == start;
    }
  }

  lemma MergedStart(bars: seq<Bar>, start: int)
    ensures HasStart(MergeBars(bars), start) <==> HasStart(bars, start)
  {
    var byStart := ByStart(bars);
    var starts, merged := SortedSet(byStart.Keys), MergeBars(bars);
    ByStartHoldsStarts(bars, start);
    assert start in starts <==> start in byStart;
    if HasStart(bars, start) {
      var k :| 0 <= k < |starts| && starts[k] == start;
      assert merged[k].startUtc == start;
    }
    if k :| 0 <= k < |merged| && merged[k].startUtc == start {
      assert starts[k] in byStart && starts[k] in starts;
    }
  }

  /** No bar start of a listing is lost, none is doubled, and none is new. */
  lemma MergeKeepsStarts(listings: seq<MemberBars>, barsOf: MemberBars -> seq<Bar>, start: int)
    ensures StrictlySortedBy(MergedBars(listings, barsOf), StartOf)
    ensures HasStart(MergedBars(listings, barsOf), start)
       <==> exists i :: 0 <= i < |listings| && HasStart(barsOf(listings[i]), start)
  {
    var lists := BarLists(listings, barsOf);
    MergeKeepsLastOfEachStart(JoinedBars(lists));
    MergedStart(JoinedBars(lists), start);
    JoinedHasStart(lists, start);
    if i :| 0 <= i < |lists| && HasStart(lists[i], start) {
      assert HasStart(barsOf(listings[i]), start);
    }
    if i :| 0 <= i < |listings| && HasStart(barsOf(listings[i]), start) {
      assert HasStart(lists[i], start);
    }
  }

  /** The bar of a start in the last list that has the start. */
  ghost predicate IsOfLastList(lists: seq<seq<Bar>>, i: int, bar: Bar) {
    && 0 <= i < |lists| && IsKept(lists[i], bar)
    && forall j :: i < j < |lists| ==> !HasStart(lists[j], bar.startUtc)
  }

  lemma AppendedKept(a: seq<Bar>, b: seq<Bar>, bar: Bar)
    ensures IsKept(a + b, bar) <==> IsKept(b, bar) || (IsKept(a, bar) && !HasStart(b, bar.startUtc))
  {
    var all := a + b;
    if i :| 0 <= i < |all| && IsLastOfStart(all, i) && all[i] == bar {
      if i < |a| {
        forall j | i < j < |a| ensures a[j].startUtc != a[i].startUtc {
          assert all[j].startUtc != all[i].startUtc;
        }
        assert IsLastOfStart(a, i);
        forall j | 0 <= j < |b| ensures b[j].startUtc != bar.startUtc {
          assert all[|a| + j].startUtc != all[i].startUtc;
        }
      } else {
        forall j | i - |a| < j < |b| ensures b[j].startUtc != b[i - |a|].startUtc {
          assert all[|a| + j].startUtc != all[i].startUtc;
        }
        assert IsLastOfStart(b, i - |a|);
      }
    }
    if i :| 0 <= i < |b| && IsLastOfStart(b, i) && b[i] == bar {
      assert IsLastOfStart(all, |a| + i);
    }
    if IsKept(a, bar) && !HasStart(b, bar.startUtc) {
      var i :| 0 <= i < |a| && IsLastOfStart(a, i) && a[i] == bar;
      forall j | i < j < |all| ensures all[j].startUtc != all[i].startUtc {
        assert j >= |a| ==> b[j - |a|].startUtc != bar.startUtc;
      }
      assert IsLastOfStart(all, i);
    }
  }

  lemma {:induction false} JoinedKept(lists: seq<seq<Bar>>, bar: Bar)
    ensures IsKept(JoinedBars(lists), bar) <==> exists i :: IsOfLastList(lists, i, bar)
  {
    if lists != [] {
      var init, last := lists[..|lists| - 1], lists[|lists| - 1];
      JoinedKept(init, bar);
      AppendedKept(JoinedBars(init), last, bar);
      if IsKept(last, bar) {
        assert IsOfLastList(lists, |lists| - 1, bar);
      } else if i :| IsOfLastList(init, i, bar) {
        assert !HasStart(last, bar.startUtc) ==> IsOfLastList(lists, i, bar);
      }
      if i :| IsOfLastList(lists, i, bar) {
        assert i < |init| ==> IsOfLastList(init, i, bar);
      }
    }
  }

  /** Of two listings with a bar of one start, the later listing gives the bar. */
  lemma MergeKeepsLastListing(listings: seq<MemberBars>, barsOf: MemberBars -> seq<Bar>, bar: Bar)
    ensures bar in MergedBars(listings, barsOf)
       <==> exists i :: IsOfLastList(BarLists(listings, barsOf), i, bar)
  {
    MergeKeepsLastOfEachStart(JoinedBars(BarLists(listings, barsOf)));
    JoinedKept(BarLists(listings, barsOf), bar);
  }

  lemma MergeOfSorted(bars: seq<Bar>)
    requires StrictlySortedBy(bars, StartOf)
    ensures MergeBars(bars) == bars
  {
    MergeKeepsLastOfEachStart(bars);
    forall bar ensures bar in MergeBars(bars) <==> bar in bars {
      if bar in bars {
        var i :| 0 <= i < |bars| && bars[i] == bar;
        forall j | i < j < |bars| ensures bars[j].startUtc != bars[i].startUtc {
          assert StartOf(bars[i]) < StartOf(bars[j]);
        }
        assert IsLastOfStart(bars, i);
      }
    }
    StrictlySortedIsUnique(MergeBars(bars), bars, StartOf);
  }

  lemma MergeOfOneList(listing: MemberBars, barsOf: MemberBars -> seq<Bar>)
    requires StrictlySortedBy(barsOf(listing), StartOf)
    ensures MergedBars([listing], barsOf) == barsOf(listing)
  {
    var lists := BarLists([listing], barsOf);
    assert lists[..0] == [] && lists[0] == barsOf(listing);
    assert JoinedBars(lists) == [] + barsOf(listing) == barsOf(listing);
    MergeOfSorted(barsOf(listing));
  }

  /** A symbol with one listing whose bars are in order keeps this listing as it is. */
  lemma OneListingStays(listing: MemberBars)
    requires StrictlySortedBy(listing.bars, StartOf) && StrictlySortedBy(listing.lookBackBars, StartOf)
    requires StrictlySortedBy(listing.openBars, StartOf)
    ensures Merged([listing]) == listing
  {
    MergeOfOneList(listing, RangeBarsOf);
    MergeOfOneList(listing, LookBackBarsOf);
    MergeOfOneList(listing, OpenBarsOf);
  }

  // ---------------------------------------------------------------- the whole read

  /** The members are the merged listings of the universe. `order`: the listings that were read, each one once. */
  ghost predicate IsRead(members: seq<MemberBars>, order: seq<Instrument>, periods: seq<Period>, whole: TimeRange,
                         length: int, saved: BarRequest -> SavedBars) {
    && (forall member :: member in order <==> RangesOf(periods, whole.endUtc, member) != [])
    && AreMerged(members, AllMemberBars(order, FindRanges(periods, whole), whole, length, saved))
  }

  /**
   * Each member is the merge of the listings of its symbol. Each listing has the answers
   * to its own requests, and all answers are used. The count of a source is the number of
   * its bars in the ranges of all listings. `order`: the listings that were read.
   */
  method ReadUniverseBars(periods: seq<Period>, whole: TimeRange, length: int, sources: seq<Source>,
                          saved: BarRequest -> SavedBars)
    returns (members: seq<MemberBars>, counts: map<Source, nat>, order: seq<Instrument>)
    ensures IsRead(members, order, periods, whole, length, saved)
    ensures forall i, j :: 0 <= i < j < |order| ==> order[i] != order[j]
    ensures AreAllCounts(counts, order, FindRanges(periods, whole), saved)
  {
    var listings, used, asked;
    listings, order, used, asked, counts := ReadMembers(periods, whole, length, sources, saved);
    members := MergeSymbolMembers(listings);
  }
}
