/** Options, sums over sequences, and the stable sort that `sorted(..., key=...)` gives. */
module Sequences {

  datatype Option<+T> = None | Some(value: T) {
    function GetOr(default: T): T {
      match this
      case Some(v) => v
      case None => default
    }
  }

  function Max(a: int, b: int): int { if a >= b then a else b }

  function MaxReal(a: real, b: real): real { if a >= b then a else b }

  // ---------------------------------------------------------------- sums

  /** The sum of `f` over `s`. */
  function SumBy<T>(s: seq<T>, f: T -> real): real {
    if s == [] then 0.0 else SumBy(s[..|s| - 1], f) + f(s[|s| - 1])
  }

  lemma {:induction false} SumAppend<T>(s: seq<T>, t: seq<T>, f: T -> real)
    ensures SumBy(s + t, f) == SumBy(s, f) + SumBy(t, f)
  {
    if t == [] {
      assert s + t == s;
    } else {
      SumAppend(s, t[..|t| - 1], f);
      assert (s + t)[..|s + t| - 1] == s + t[..|t| - 1];
    }
  }

  lemma SumOne<T>(x: T, f: T -> real)
    ensures SumBy([x], f) == f(x)
  {
    assert [x][..0] == [];
  }

  lemma TakeNext<T>(s: seq<T>, n: nat)
    requires n < |s|
    ensures s[..n + 1] == s[..n] + [s[n]]
  {
  }

  lemma SumFirst<T>(s: seq<T>, f: T -> real)
    requires s != []
    ensures SumBy(s, f) == f(s[0]) + SumBy(s[1..], f)
  {
    assert s == [s[0]] + s[1..];
    SumAppend([s[0]], s[1..], f);
  }

  lemma {:induction false} SumCongruence<T>(s: seq<T>, f: T -> real, g: T -> real)
    requires forall i :: 0 <= i < |s| ==> f(s[i]) == g(s[i])
    ensures SumBy(s, f) == SumBy(s, g)
  {
    if s != [] {
      SumCongruence(s[..|s| - 1], f, g);
    }
  }

  lemma {:induction false} SumZero<T>(s: seq<T>, f: T -> real)
    requires forall i :: 0 <= i < |s| ==> f(s[i]) == 0.0
    ensures SumBy(s, f) == 0.0
  {
    if s != [] {
      SumZero(s[..|s| - 1], f);
    }
  }

  // ---------------------------------------------------------------- filters

  function Filter<T>(s: seq<T>, p: T -> bool): seq<T>
  {
    if s == [] then []
    else Filter(s[..|s| - 1], p) + (if p(s[|s| - 1]) then [s[|s| - 1]] else [])
  }

  lemma {:induction false} FilterAppend<T>(s: seq<T>, t: seq<T>, p: T -> bool)
    ensures Filter(s + t, p) == Filter(s, p) + Filter(t, p)
  {
    if t == [] {
      assert s + t == s;
    } else {
      FilterAppend(s, t[..|t| - 1], p);
      assert (s + t)[..|s + t| - 1] == s + t[..|t| - 1];
    }
  }

  lemma {:induction false} FilterAll<T>(s: seq<T>, p: T -> bool)
    requires forall i :: 0 <= i < |s| ==> p(s[i])
    ensures Filter(s, p) == s
  {
    if s != [] {
      var init := s[..|s| - 1];
      FilterAll(init, p);
      assert Filter(s, p) == init + [s[|s| - 1]] == s;
    }
  }

  lemma {:induction false} FilterNone<T>(s: seq<T>, p: T -> bool)
    requires forall i :: 0 <= i < |s| ==> !p(s[i])
    ensures Filter(s, p) == []
  {
    if s != [] {
      FilterNone(s[..|s| - 1], p);
    }
  }

  lemma {:induction false} FilterKeeps<T>(s: seq<T>, p: T -> bool, x: T)
    ensures x in Filter(s, p) <==> x in s && p(x)
  {
    if s != [] {
      FilterKeeps(s[..|s| - 1], p, x);
      assert s == s[..|s| - 1] + [s[|s| - 1]];
    }
  }

  lemma {:induction false} FilterIsShorter<T>(s: seq<T>, p: T -> bool)
    ensures |Filter(s, p)| <= |s|
  {
    if s != [] {
      FilterIsShorter(s[..|s| - 1], p);
    }
  }

  /** The sum over the kept elements is the sum over all elements with 0 for the others. */
  lemma {:induction false} SumFilter<T>(s: seq<T>, p: T -> bool, f: T -> real, g: T -> real)
    requires forall i :: 0 <= i < |s| ==> g(s[i]) == if p(s[i]) then f(s[i]) else 0.0
    ensures SumBy(Filter(s, p), f) == SumBy(s, g)
  {
    if s != [] {
      var init, last := s[..|s| - 1], s[|s| - 1];
      SumFilter(init, p, f, g);
      SumAppend(Filter(init, p), if p(last) then [last] else [], f);
      assert SumBy([last], f) == SumBy([], f) + f(last) by { assert [last][..0] == []; }
    }
  }

  // ---------------------------------------------------------------- stable sort

  ghost predicate SortedBy<T>(s: seq<T>, key: T -> int) {
    forall i, j :: 0 <= i < j < |s| ==> key(s[i]) <= key(s[j])
  }

  ghost predicate StrictlySortedBy<T>(s: seq<T>, key: T -> int) {
    forall i, j :: 0 <= i < j < |s| ==> key(s[i]) < key(s[j])
  }

  /** Puts `x` before the first element whose key is not smaller. */
  function Insert<T>(x: T, s: seq<T>, key: T -> int): seq<T> {
    if s == [] || key(x) <= key(s[0]) then [x] + s else [s[0]] + Insert(x, s[1..], key)
  }

  /** A stable sort: the result of `sorted(s, key=key)`. */
  function SortBy<T>(s: seq<T>, key: T -> int): seq<T> {
    if s == [] then [] else Insert(s[0], SortBy(s[1..], key), key)
  }

  lemma PrependSorted<T>(x: T, s: seq<T>, key: T -> int)
    requires SortedBy(s, key) && forall i :: 0 <= i < |s| ==> key(x) <= key(s[i])
    ensures SortedBy([x] + s, key)
  {
  }

  lemma {:induction false} InsertBound<T>(x: T, s: seq<T>, key: T -> int, bound: int)
    requires bound <= key(x) && forall i :: 0 <= i < |s| ==> bound <= key(s[i])
    ensures forall i :: 0 <= i < |Insert(x, s, key)| ==> bound <= key(Insert(x, s, key)[i])
  {
    if s != [] && key(x) > key(s[0]) {
      InsertBound(x, s[1..], key, bound);
    }
  }

  lemma {:induction false} InsertKeeps<T>(x: T, s: seq<T>, key: T -> int)
    ensures multiset(Insert(x, s, key)) == multiset{x} + multiset(s)
  {
    if s == [] || key(x) <= key(s[0]) {
      assert multiset([x] + s) == multiset{x} + multiset(s);
    } else {
      InsertKeeps(x, s[1..], key);
      assert s == [s[0]] + s[1..];
    }
  }

  lemma {:induction false} InsertSorts<T>(x: T, s: seq<T>, key: T -> int)
    requires SortedBy(s, key)
    ensures SortedBy(Insert(x, s, key), key)
  {
    if s == [] || key(x) <= key(s[0]) {
      PrependSorted(x, s, key);
    } else {
      InsertSorts(x, s[1..], key);
      InsertBound(x, s[1..], key, key(s[0]));
      PrependSorted(s[0], Insert(x, s[1..], key), key);
    }
  }

  /** Sorting orders the elements by key and keeps each of them. */
  lemma {:induction false} SortSorts<T>(s: seq<T>, key: T -> int)
    ensures SortedBy(SortBy(s, key), key)
    ensures multiset(SortBy(s, key)) == multiset(s)
    ensures |SortBy(s, key)| == |s|
  {
    if s != [] {
      SortSorts(s[1..], key);
      InsertSorts(s[0], SortBy(s[1..], key), key);
      InsertKeeps(s[0], SortBy(s[1..], key), key);
      assert s == [s[0]] + s[1..];
    }
    assert |multiset(SortBy(s, key))| == |multiset(s)|;
  }

  lemma {:induction false} SortKeeps<T>(s: seq<T>, key: T -> int, x: T)
    ensures x in SortBy(s, key) <==> x in s
  {
    SortSorts(s, key);
    assert x in multiset(s) <==> x in multiset(SortBy(s, key));
  }

  lemma FilterOne<T>(x: T, p: T -> bool)
    ensures Filter([x], p) == if p(x) then [x] else []
  {
    assert [x][..0] == [];
  }

  lemma {:induction false} InsertFilter<T>(x: T, s: seq<T>, key: T -> int, p: T -> bool)
    requires SortedBy(s, key)
    requires p(x) ==> forall i :: 0 <= i < |s| && p(s[i]) ==> key(s[i]) == key(x)
    ensures Filter(Insert(x, s, key), p) == Filter([x], p) + Filter(s, p)
  {
    if s == [] || key(x) <= key(s[0]) {
      FilterAppend([x], s, p);
    } else {
      var first, rest := [s[0]], s[1..];
      InsertFilter(x, rest, key, p);
      FilterOne(s[0], p);
      FilterOne(x, p);
      calc {
        Filter(Insert(x, s, key), p);
        Filter(first + Insert(x, rest, key), p);
        { FilterAppend(first, Insert(x, rest, key), p); }
        Filter(first, p) + (Filter([x], p) + Filter(rest, p));
        { assert Filter(first, p) == [] || Filter([x], p) == []; }
        Filter([x], p) + (Filter(first, p) + Filter(rest, p));
        { FilterAppend(first, rest, p); assert s == first + rest; }
        Filter([x], p) + Filter(s, p);
      }
    }
  }

  /** Elements with one key keep their order. */
  lemma {:induction false} SortIsStable<T>(s: seq<T>, key: T -> int, k: int)
    ensures Filter(SortBy(s, key), (x: T) => key(x) == k) == Filter(s, (x: T) => key(x) == k)
  {
    var p := (x: T) => key(x) == k;
    if s != [] {
      SortIsStable(s[1..], key, k);
      SortSorts(s[1..], key);
      InsertFilter(s[0], SortBy(s[1..], key), key, p);
      FilterAppend([s[0]], s[1..], p);
      assert s == [s[0]] + s[1..];
      assert Filter(SortBy(s[1..], key), p) == Filter(s[1..], p);
    }
  }

  lemma {:induction false} InsertSum<T>(x: T, s: seq<T>, key: T -> int, f: T -> real)
    ensures SumBy(Insert(x, s, key), f) == f(x) + SumBy(s, f)
  {
    if s == [] || key(x) <= key(s[0]) {
      SumFirst([x] + s, f);
    } else {
      InsertSum(x, s[1..], key, f);
      SumFirst(s, f);
      SumFirst([s[0]] + Insert(x, s[1..], key), f);
    }
  }

  lemma {:induction false} SortSum<T>(s: seq<T>, key: T -> int, f: T -> real)
    ensures SumBy(SortBy(s, key), f) == SumBy(s, f)
  {
    if s != [] {
      SortSum(s[1..], key, f);
      InsertSum(s[0], SortBy(s[1..], key), key, f);
      SumFirst(s, f);
    }
  }

  /** A sorted sequence is its own sort. */
  lemma {:induction false} SortOfSorted<T>(s: seq<T>, key: T -> int)
    requires SortedBy(s, key)
    ensures SortBy(s, key) == s
  {
    if s != [] {
      SortOfSorted(s[1..], key);
      assert s == [s[0]] + s[1..];
    }
  }

  // ---------------------------------------------------------------- sorted sets

  lemma Pick<T>(s: set<T>) returns (x: T)
    requires s != {}
    ensures x in s
  {
    x :| x in s;
  }

  lemma {:induction false} HasMinimum(s: set<int>)
    requires s != {}
    ensures exists m :: m in s && forall x <- s :: m <= x
  {
    var y := Pick(s);
    var rest := s - {y};
    assert s == rest + {y};
    var least := y;
    if rest != {} {
      HasMinimum(rest);
      var m :| m in rest && forall x <- rest :: m <= x;
      least := if m <= y then m else y;
    }
    assert least in s && forall x <- s :: least <= x;
  }

  function MinOf(s: set<int>): (m: int)
    requires s != {}
    ensures m in s && forall x <- s :: m <= x
  {
    HasMinimum(s);
    var m :| m in s && forall x <- s :: m <= x;
    m
  }

  ghost predicate Ascending(s: seq<int>) {
    forall i, j :: 0 <= i < j < |s| ==> s[i] < s[j]
  }

  lemma AscendingAppend(s: seq<int>, x: int)
    requires Ascending(s) && forall y <- s :: y < x
    ensures Ascending(s + [x])
  {
    forall i, j | 0 <= i < j < |s + [x]| ensures (s + [x])[i] < (s + [x])[j] {
      assert (s + [x])[i] in s;
    }
  }

  /** `sorted(s)` of a set, or of the keys of a dictionary. */
  function SortedSet(s: set<int>): (r: seq<int>)
    ensures Ascending(r)
    ensures forall x :: x in r <==> x in s
  {
    if s == {} then [] else var m := MinOf(s); [m] + SortedSet(s - {m})
  }

  lemma FirstIsLeast<T>(a: seq<T>, b: seq<T>, key: T -> int)
    requires StrictlySortedBy(a, key) && StrictlySortedBy(b, key)
    requires forall x :: x in a <==> x in b
    requires a != [] && b != []
    ensures key(a[0]) <= key(b[0])
  {
    assert b[0] in b;
    assert b[0] in a;
    var i :| 0 <= i < |a| && a[i] == b[0];
    if i > 0 {
      assert key(a[0]) < key(a[i]);
    }
  }

  lemma SameElementsEmpty<T>(a: seq<T>, b: seq<T>)
    requires forall x :: x in a <==> x in b
    ensures a == [] <==> b == []
  {
    if a != [] {
      var x := a[0];
      assert x in a;
      assert x in b;
    }
    if b != [] {
      var x := b[0];
      assert x in b;
      assert x in a;
    }
  }

  /** Two strictly sorted sequences with the same elements are the same sequence. */
  lemma {:induction false} StrictlySortedIsUnique<T>(a: seq<T>, b: seq<T>, key: T -> int)
    requires StrictlySortedBy(a, key) && StrictlySortedBy(b, key)
    requires forall x :: x in a <==> x in b
    ensures a == b
  {
    SameElementsEmpty(a, b);
    if a != [] {
      FirstIsLeast(a, b, key);
      FirstIsLeast(b, a, key);
      var first := a[0];
      assert first in a;
      assert first in b;
      var i :| 0 <= i < |b| && b[i] == first;
      assert key(b[0]) == key(b[i]);
      assert i == 0;
      forall x ensures x in a[1..] <==> x in b[1..] {
        assert x in a[1..] <==> x in a && x != first by { InTail(a, key, x); }
        assert x in b[1..] <==> x in b && x != first by { InTail(b, key, x); }
      }
      StrictlySortedIsUnique(a[1..], b[1..], key);
      assert a == [first] + a[1..] && b == [first] + b[1..];
    }
  }

  lemma InTail<T>(s: seq<T>, key: T -> int, x: T)
    requires StrictlySortedBy(s, key) && s != []
    ensures x in s[1..] <==> x in s && x != s[0]
  {
    assert s == [s[0]] + s[1..];
    if x in s[1..] {
      var i :| 0 <= i < |s| - 1 && s[1..][i] == x;
      assert key(s[0]) < key(s[i + 1]);
    }
  }
}
