/** Python's `sorted`: a stable sort by a total preorder, and the sorted tuple of a set. */
module Sorting {
  ghost predicate TotalPreorder<T(!new)>(le: (T, T) -> bool) {
    && (forall x, y :: le(x, y) || le(y, x))
    && (forall x, y, z :: le(x, y) && le(y, z) ==> le(x, z))
  }

  ghost predicate TotalOrder<T(!new)>(le: (T, T) -> bool) {
    && TotalPreorder(le)
    && (forall x, y :: le(x, y) && le(y, x) ==> x == y)
  }

  ghost predicate Sorted<T>(xs: seq<T>, le: (T, T) -> bool) {
    forall i, j :: 0 <= i < j < |xs| ==> le(xs[i], xs[j])
  }

  /** Puts `x` after every element that does not exceed it. */
  function Insert<T>(xs: seq<T>, x: T, le: (T, T) -> bool): seq<T> {
    if xs == [] then [x]
    else if le(xs[|xs| - 1], x) then xs + [x]
    else Insert(xs[..|xs| - 1], x, le) + [xs[|xs| - 1]]
  }

  function Sort<T>(xs: seq<T>, le: (T, T) -> bool): seq<T> {
    if xs == [] then [] else Insert(Sort(xs[..|xs| - 1], le), xs[|xs| - 1], le)
  }

  function Filter<T(!new)>(xs: seq<T>, p: T -> bool): (r: seq<T>)
    ensures forall x :: x in r <==> x in xs && p(x)
  {
    if xs == [] then []
    else
      var last := xs[|xs| - 1];
      assert xs == xs[..|xs| - 1] + [last];
      if p(last) then Filter(xs[..|xs| - 1], p) + [last] else Filter(xs[..|xs| - 1], p)
  }

  function Map<T, U>(xs: seq<T>, f: T -> U): (r: seq<U>)
    ensures |r| == |xs| && forall i :: 0 <= i < |xs| ==> r[i] == f(xs[i])
  {
    seq(|xs|, i requires 0 <= i < |xs| => f(xs[i]))
  }

  lemma SplitLast<T>(xs: seq<T>)
    requires xs != []
    ensures xs == xs[..|xs| - 1] + [xs[|xs| - 1]]
  {}

  lemma {:induction false} InsertPermutes<T(!new)>(xs: seq<T>, x: T, le: (T, T) -> bool)
    ensures multiset(Insert(xs, x, le)) == multiset(xs) + multiset{x}
    ensures |Insert(xs, x, le)| == |xs| + 1
    ensures forall y :: y in Insert(xs, x, le) <==> y in xs || y == x
  {
    if xs != [] {
      SplitLast(xs);
      if !le(xs[|xs| - 1], x) {
        InsertPermutes(xs[..|xs| - 1], x, le);
      }
    }
  }

  lemma {:induction false} InsertSorted<T(!new)>(xs: seq<T>, x: T, le: (T, T) -> bool)
    requires TotalPreorder(le) && Sorted(xs, le)
    ensures Sorted(Insert(xs, x, le), le)
  {
    if xs != [] && !le(xs[|xs| - 1], x) {
      var init, last := xs[..|xs| - 1], xs[|xs| - 1];
      InsertSorted(init, x, le);
      InsertPermutes(init, x, le);
      forall y | y in Insert(init, x, le) ensures le(y, last) {}
    } else if xs != [] {
      forall i | 0 <= i < |xs| ensures le(xs[i], x) {
        assert i < |xs| - 1 ==> le(xs[i], xs[|xs| - 1]);
      }
    }
  }

  lemma {:induction false} SortPermutes<T(!new)>(xs: seq<T>, le: (T, T) -> bool)
    ensures multiset(Sort(xs, le)) == multiset(xs)
    ensures |Sort(xs, le)| == |xs|
    ensures forall y :: y in Sort(xs, le) <==> y in xs
  {
    if xs != [] {
      SplitLast(xs);
      SortPermutes(xs[..|xs| - 1], le);
      InsertPermutes(Sort(xs[..|xs| - 1], le), xs[|xs| - 1], le);
    }
  }

  lemma {:induction false} SortSorts<T(!new)>(xs: seq<T>, le: (T, T) -> bool)
    requires TotalPreorder(le)
    ensures Sorted(Sort(xs, le), le)
  {
    if xs != [] {
      SortSorts(xs[..|xs| - 1], le);
      InsertSorted(Sort(xs[..|xs| - 1], le), xs[|xs| - 1], le);
    }
  }

  lemma {:induction false} SortOfSorted<T(!new)>(xs: seq<T>, le: (T, T) -> bool)
    requires TotalPreorder(le) && Sorted(xs, le)
    ensures Sort(xs, le) == xs
  {
    if xs != [] {
      SortOfSorted(xs[..|xs| - 1], le);
      SplitLast(xs);
    }
  }

  /** Sorting is insensitive to an earlier sort of all but the last element. */
  lemma SortAppend<T(!new)>(xs: seq<T>, x: T, le: (T, T) -> bool)
    requires TotalPreorder(le)
    ensures Sort(xs + [x], le) == Insert(Sort(xs, le), x, le)
    ensures Sort(Sort(xs, le) + [x], le) == Sort(xs + [x], le)
  {
    SortSorts(xs, le);
    SortOfSorted(Sort(xs, le), le);
    assert (xs + [x])[..|xs|] == xs;
    var ys := Sort(xs, le);
    assert (ys + [x])[..|ys|] == ys;
  }

  lemma LastInOther<T(!new)>(xs: seq<T>, ys: seq<T>)
    requires multiset(xs) == multiset(ys) && xs != []
    ensures ys != [] && xs[|xs| - 1] in ys
  {
    assert xs[|xs| - 1] in multiset(xs);
  }

  lemma LastIsGreatest<T(!new)>(xs: seq<T>, x: T, le: (T, T) -> bool)
    requires TotalPreorder(le) && Sorted(xs, le) && x in xs
    ensures le(x, xs[|xs| - 1])
  {
    var i :| 0 <= i < |xs| && xs[i] == x;
    assert le(x, x);
  }

  lemma DropLast<T>(xs: seq<T>)
    requires xs != []
    ensures multiset(xs[..|xs| - 1]) == multiset(xs) - multiset{xs[|xs| - 1]}
  {
    SplitLast(xs);
  }

  /** When ties are impossible, the order of the input does not matter. */
  lemma {:induction false} SortedUnique<T(!new)>(xs: seq<T>, ys: seq<T>, le: (T, T) -> bool)
    requires TotalPreorder(le) && Sorted(xs, le) && Sorted(ys, le)
    requires multiset(xs) == multiset(ys)
    requires forall x, y :: x in xs && y in xs && le(x, y) && le(y, x) ==> x == y
    ensures xs == ys
  {
    if xs == [] {
      assert |multiset(ys)| == 0;
    } else {
      LastInOther(xs, ys);
      LastInOther(ys, xs);
      var x, y := xs[|xs| - 1], ys[|ys| - 1];
      LastIsGreatest(xs, y, le);
      LastIsGreatest(ys, x, le);
      assert x == y;
      DropLast(xs);
      DropLast(ys);
      SortedUnique(xs[..|xs| - 1], ys[..|ys| - 1], le);
      SplitLast(xs);
      SplitLast(ys);
    }
  }

  lemma SortInsensitive<T(!new)>(xs: seq<T>, ys: seq<T>, le: (T, T) -> bool)
    requires TotalPreorder(le)
    requires multiset(xs) == multiset(ys)
    requires forall x, y :: x in xs && y in xs && le(x, y) && le(y, x) ==> x == y
    ensures Sort(xs, le) == Sort(ys, le)
  {
    SortPermutes(xs, le);
    SortPermutes(ys, le);
    SortSorts(xs, le);
    SortSorts(ys, le);
    SortedUnique(Sort(xs, le), Sort(ys, le), le);
  }

  lemma FilterAppend<T(!new)>(xs: seq<T>, x: T, p: T -> bool)
    ensures Filter(xs + [x], p) == if p(x) then Filter(xs, p) + [x] else Filter(xs, p)
  {
    assert (xs + [x])[..|xs|] == xs;
  }

  lemma {:induction false} FilterSorted<T(!new)>(xs: seq<T>, p: T -> bool, le: (T, T) -> bool)
    requires Sorted(xs, le)
    ensures Sorted(Filter(xs, p), le)
  {
    if xs != [] {
      var init, last := xs[..|xs| - 1], xs[|xs| - 1];
      FilterSorted(init, p, le);
      forall y | y in Filter(init, p) ensures le(y, last) {
        var i :| 0 <= i < |init| && init[i] == y;
        assert le(xs[i], xs[|xs| - 1]);
      }
    }
  }

  lemma InsertAtEnd<T>(xs: seq<T>, x: T, le: (T, T) -> bool)
    requires xs == [] || le(xs[|xs| - 1], x)
    ensures Insert(xs, x, le) == xs + [x]
  {}

  lemma InsertBefore<T>(xs: seq<T>, last: T, x: T, le: (T, T) -> bool)
    requires !le(last, x)
    ensures Insert(xs + [last], x, le) == Insert(xs, x, le) + [last]
  {
    assert (xs + [last])[..|xs|] == xs;
  }

  /** What exceeds nothing in a sorted sequence exceeds nothing in what is kept of it. */
  lemma AboveFiltered<T(!new)>(xs: seq<T>, x: T, p: T -> bool, le: (T, T) -> bool)
    requires TotalPreorder(le) && Sorted(xs, le) && (xs == [] || le(xs[|xs| - 1], x))
    ensures Filter(xs, p) == [] || le(Filter(xs, p)[|Filter(xs, p)| - 1], x)
  {
    var f := Filter(xs, p);
    if f != [] {
      var y := f[|f| - 1];
      assert y in f;
      LastIsGreatest(xs, y, le);
    }
  }

  lemma {:induction false} FilterInsert<T(!new)>(xs: seq<T>, x: T, p: T -> bool, le: (T, T) -> bool)
    requires TotalPreorder(le) && Sorted(xs, le)
    ensures Filter(Insert(xs, x, le), p)
         == if p(x) then Insert(Filter(xs, p), x, le) else Filter(xs, p)
  {
    hide Filter, Insert, TotalPreorder;
    if xs == [] || le(xs[|xs| - 1], x) {
      InsertAtEnd(xs, x, le);
      FilterAppend(xs, x, p);
      AboveFiltered(xs, x, p, le);
      InsertAtEnd(Filter(xs, p), x, le);
    } else {
      var init, last := xs[..|xs| - 1], xs[|xs| - 1];
      SplitLast(xs);
      InsertBefore(init, last, x, le);
      FilterInsert(init, x, p, le);
      FilterAppend(Insert(init, x, le), last, p);
      FilterAppend(init, last, p);
      InsertBefore(Filter(init, p), last, x, le);
    }
  }

  /** When exactly the first n elements pass, filtering takes that prefix. */
  lemma {:induction false} FilterPrefix<T(!new)>(xs: seq<T>, p: T -> bool, n: nat)
    requires n <= |xs|
    requires forall i :: 0 <= i < n ==> p(xs[i])
    requires forall i :: n <= i < |xs| ==> !p(xs[i])
    ensures Filter(xs, p) == xs[..n]
  {
    if xs != [] {
      var m := |xs| - 1;
      FilterPrefix(xs[..m], p, if n <= m then n else m);
      assert n <= m ==> xs[..m][..n] == xs[..n];
    }
  }

  lemma {:induction false} FilterAtLeast<T(!new)>(xs: seq<T>, p: T -> bool, m: nat)
    requires m <= |xs| && forall i :: 0 <= i < m ==> p(xs[i])
    ensures |Filter(xs, p)| >= m
  {
    if xs != [] && m > 0 {
      FilterAtLeast(xs[..|xs| - 1], p, if m < |xs| then m else m - 1);
    }
  }

  lemma {:induction false} FilterAtMost<T(!new)>(xs: seq<T>, p: T -> bool, m: nat)
    requires m <= |xs| && forall i :: m <= i < |xs| ==> !p(xs[i])
    ensures |Filter(xs, p)| <= m
  {
    if xs != [] {
      FilterAtMost(xs[..|xs| - 1], p, if m < |xs| then m else m - 1);
    }
  }

  /** Filtering commutes with a stable sort. */
  lemma {:induction false} FilterSort<T(!new)>(xs: seq<T>, p: T -> bool, le: (T, T) -> bool)
    requires TotalPreorder(le)
    ensures Filter(Sort(xs, le), p) == Sort(Filter(xs, p), le)
  {
    if xs != [] {
      var init, last := xs[..|xs| - 1], xs[|xs| - 1];
      FilterSort(init, p, le);
      SortSorts(init, le);
      FilterInsert(Sort(init, le), last, p, le);
      if p(last) {
        SortAppend(Filter(init, p), last, le);
      }
    }
  }

  lemma {:induction false} FilterFilter<T(!new)>(xs: seq<T>, p: T -> bool, q: T -> bool)
    requires forall x :: x in xs && q(x) ==> p(x)
    ensures Filter(Filter(xs, p), q) == Filter(xs, q)
  {
    if xs != [] {
      var init, last := xs[..|xs| - 1], xs[|xs| - 1];
      FilterFilter(init, p, q);
      if p(last) {
        FilterAppend(Filter(init, p), last, q);
      }
    }
  }

  /** A key-preserving relabelling commutes with sorting. */
  lemma {:induction false} SortMap<T(!new), U(!new)>(xs: seq<T>, f: T -> U, le: (T, T) -> bool, le': (U, U) -> bool)
    requires forall x, y :: le'(f(x), f(y)) == le(x, y)
    ensures Sort(Map(xs, f), le') == Map(Sort(xs, le), f)
  {
    if xs != [] {
      var init, last := xs[..|xs| - 1], xs[|xs| - 1];
      SortMap(init, f, le, le');
      assert Map(xs, f)[..|xs| - 1] == Map(init, f);
      InsertMap(Sort(init, le), last, f, le, le');
    }
  }

  lemma {:induction false} InsertMap<T(!new), U(!new)>(xs: seq<T>, x: T, f: T -> U, le: (T, T) -> bool, le': (U, U) -> bool)
    requires forall x, y :: le'(f(x), f(y)) == le(x, y)
    ensures Insert(Map(xs, f), f(x), le') == Map(Insert(xs, x, le), f)
  {
    if xs != [] {
      var init := xs[..|xs| - 1];
      assert Map(xs, f)[..|xs| - 1] == Map(init, f);
      InsertMap(init, x, f, le, le');
    }
  }

  lemma {:induction false} FilterMap<T(!new), U(!new)>(xs: seq<T>, f: T -> U, p: T -> bool, p': U -> bool)
    requires forall x :: x in xs ==> p'(f(x)) == p(x)
    ensures Filter(Map(xs, f), p') == Map(Filter(xs, p), f)
  {
    if xs != [] {
      var init := xs[..|xs| - 1];
      assert Map(xs, f)[..|xs| - 1] == Map(init, f);
      FilterMap(init, f, p, p');
    }
  }

  lemma {:induction false} MinimumExists<T(!new)>(s: set<T>, le: (T, T) -> bool)
    requires TotalOrder(le) && s != {}
    ensures exists x :: x in s && forall y :: y in s ==> le(x, y)
    decreases |s|
  {
    var a :| a in s;
    if s == {a} {
      assert forall y :: y in s ==> le(a, y);
    } else {
      var rest := s - {a};
      assert s == rest + {a};
      MinimumExists(rest, le);
      var b :| b in rest && forall y :: y in rest ==> le(b, y);
      assert forall y :: y in s ==> y == a || y in rest;
      if le(a, b) {
        assert forall y :: y in s ==> le(a, y);
      } else {
        assert forall y :: y in s ==> le(b, y);
      }
    }
  }

  /** The elements of a finite set in ascending order. */
  function SortedSet<T(==, !new)>(s: set<T>, le: (T, T) -> bool): (r: seq<T>)
    requires TotalOrder(le)
    ensures forall x :: x in r <==> x in s
    ensures Sorted(r, le)
    ensures forall i, j :: 0 <= i < j < |r| ==> r[i] != r[j]
    ensures |r| == |s|
    decreases |s|
  {
    if s == {} then []
    else
      MinimumExists(s, le);
      var x :| x in s && forall y :: y in s ==> le(x, y);
      var rest := SortedSet(s - {x}, le);
      [x] + rest
  }

  ghost predicate Ascending<T(!new)>(xs: seq<T>, le: (T, T) -> bool) {
    Sorted(xs, le) && forall i, j :: 0 <= i < j < |xs| ==> xs[i] != xs[j]
  }

  lemma {:induction false} AscendingUnique<T(!new)>(xs: seq<T>, ys: seq<T>, le: (T, T) -> bool)
    requires TotalOrder(le) && Ascending(xs, le) && Ascending(ys, le)
    requires forall x :: x in xs <==> x in ys
    ensures xs == ys
  {
    assert xs != [] ==> xs[0] in ys;
    assert ys != [] ==> ys[0] in xs;
    if xs != [] {
      var x, y := xs[0], ys[0];
      assert x in ys && y in xs;
      assert le(x, y) && le(y, x);
      forall z ensures z in xs[1..] <==> z in ys[1..] {
        assert z in xs[1..] <==> z in xs && z != x;
        assert z in ys[1..] <==> z in ys && z != y;
      }
      AscendingUnique(xs[1..], ys[1..], le);
      assert xs == [x] + xs[1..] && ys == [y] + ys[1..];
    }
  }

  /** Splitting a set at a downward-closed part splits its sorted sequence. */
  lemma SortedSetSplit<T(!new)>(s: set<T>, lo: set<T>, le: (T, T) -> bool)
    requires TotalOrder(le) && lo <= s
    requires forall x, y :: x in s && y in lo && le(x, y) ==> x in lo
    ensures SortedSet(s, le) == SortedSet(lo, le) + SortedSet(s - lo, le)
  {
    var a, b, c := SortedSet(lo, le), SortedSet(s - lo, le), SortedSet(s, le);
    JoinAscending(a, b, le);
    AscendingUnique(c, a + b, le);
  }

  lemma JoinAscending<T(!new)>(a: seq<T>, b: seq<T>, le: (T, T) -> bool)
    requires Ascending(a, le) && Ascending(b, le)
    requires forall x, y :: x in a && y in b ==> le(x, y) && x != y
    ensures Ascending(a + b, le)
  {}
}
