/** Nearest-rank percentiles of a list and of a histogram, before rounding for display. */
module Percentile {
  import opened Wrappers
  import opened Sorting

  predicate RealLe(a: real, b: real) {
    a <= b
  }

  function SortedReals(s: set<real>): (r: seq<real>)
    ensures forall x :: x in r <==> x in s
    ensures forall i, j :: 0 <= i < j < |r| ==> r[i] < r[j]
  {
    SortedSet(s, RealLe)
  }

  datatype PercentileError = OutOfRange | EmptyHistogram | Unresolved

  function ListPercentile(values: seq<real>, p: int): Result<Option<real>, PercentileError> {
    if !(0 < p <= 100) then Err(OutOfRange)
    else
      SortPermutes(values, RealLe);
      var ordered := Sort(values, RealLe);
      if ordered == [] then Ok(None)
      else
        RankInRange(|ordered|, p);
        var index := (|ordered| * p + 99) / 100 - 1;
        Ok(Some(ordered[if index < 0 then 0 else index]))
  }

  /** The nearest rank is a position of the list; so the source's `max(0, ...)` never cuts in. */
  lemma RankInRange(n: int, p: int)
    requires n > 0 && 0 < p <= 100
    ensures 1 <= (n * p + 99) / 100 <= n
  {
    ProductMonotone(n, 1, p);
    ProductMonotone(n, p, 100);
  }

  /** How many of the values are at most x. */
  function AtMost(values: seq<real>, x: real): nat {
    |Filter(values, (v: real) => v <= x)|
  }

  /** How many are below x. */
  function Below(values: seq<real>, x: real): nat {
    |Filter(values, (v: real) => v < x)|
  }

  lemma CountsOfSorted(values: seq<real>, x: real)
    ensures AtMost(Sort(values, RealLe), x) == AtMost(values, x) && Below(Sort(values, RealLe), x) == Below(values, x)
  {
    FilterSort(values, (v: real) => v <= x, RealLe);
    FilterSort(values, (v: real) => v < x, RealLe);
    SortPermutes(Filter(values, (v: real) => v <= x), RealLe);
    SortPermutes(Filter(values, (v: real) => v < x), RealLe);
  }

  lemma RankIsNearest(n: int, p: int)
    ensures 100 * ((n * p + 99) / 100 - 1) < n * p <= 100 * ((n * p + 99) / 100)
  {
    var m := n * p;
  }

  /**
   * The percentile is one of the values: at least p percent of them are no greater, and fewer than
   * p percent are smaller. It is refused for p outside 1..100 and missing for no values.
   */
  lemma PercentileIsNearestRank(values: seq<real>, p: int)
    ensures ListPercentile(values, p) == Err(OutOfRange) <==> !(0 < p <= 100)
    ensures 0 < p <= 100 && values == [] ==> ListPercentile(values, p) == Ok(None)
    ensures 0 < p <= 100 && values != [] ==>
      && ListPercentile(values, p).Ok? && ListPercentile(values, p).value.Some?
      && var x := ListPercentile(values, p).value.value;
      x in values && 100 * AtMost(values, x) >= |values| * p && 100 * Below(values, x) < |values| * p
  {
    hide AtMost, Below, Sort;
    SortPermutes(values, RealLe);
    if 0 < p <= 100 && values != [] {
      var ordered := Sort(values, RealLe);
      SortSorts(values, RealLe);
      RankInRange(|values|, p);
      PercentileAtRank(values, p);
      var k := (|values| * p + 99) / 100 - 1;
      CountsOfSorted(values, ordered[k]);
      RankCounts(ordered, k);
      EnoughCounted(|values|, p, AtMost(values, ordered[k]), Below(values, ordered[k]));
    }
  }

  lemma PercentileAtRank(values: seq<real>, p: int)
    requires values != [] && 0 < p <= 100
    ensures var ordered, k := Sort(values, RealLe), (|values| * p + 99) / 100 - 1;
            0 <= k < |ordered| == |values| && ListPercentile(values, p) == Ok(Some(ordered[k]))
  {
    hide Sort;
    SortPermutes(values, RealLe);
    RankInRange(|values|, p);
  }

  lemma EnoughCounted(n: int, p: int, atMost: int, below: int)
    requires atMost >= (n * p + 99) / 100 && below <= (n * p + 99) / 100 - 1
    ensures 100 * atMost >= n * p && 100 * below < n * p
  {
    RankIsNearest(n, p);
  }

  lemma RankCounts(ordered: seq<real>, k: nat)
    requires Sorted(ordered, RealLe) && k < |ordered|
    ensures ordered[k] in ordered && AtMost(ordered, ordered[k]) >= k + 1 && Below(ordered, ordered[k]) <= k
  {
    var x := ordered[k];
    forall i | 0 <= i < |ordered| ensures i <= k ==> ordered[i] <= x ensures i >= k ==> ordered[i] >= x {
      assert i < k ==> RealLe(ordered[i], ordered[k]);
      assert i > k ==> RealLe(ordered[k], ordered[i]);
    }
    FilterAtLeast(ordered, (v: real) => v <= x, k + 1);
    FilterAtMost(ordered, (v: real) => v < x, k);
  }

  type Histogram = map<real, int>

  function Count(h: Histogram, x: real): int {
    if x in h then h[x] else 0
  }

  /** The sum of the counts of the first n keys. */
  function Cumulative(h: Histogram, keys: seq<real>, n: nat): int
    requires n <= |keys|
  {
    if n == 0 then 0 else Cumulative(h, keys, n - 1) + Count(h, keys[n - 1])
  }

  function Total(h: Histogram): int {
    Cumulative(h, SortedReals(h.Keys), |SortedReals(h.Keys)|)
  }

  function Target(total: int, p: int): int {
    (total * p + 99) / 100
  }

  /** Key i is the first whose cumulative count reaches the target. */
  ghost predicate Resolves(h: Histogram, keys: seq<real>, target: int, i: nat) {
    && i < |keys| && Cumulative(h, keys, i + 1) >= target
    && forall j :: 1 <= j <= i ==> Cumulative(h, keys, j) < target
  }

  ghost predicate NeverResolves(h: Histogram, keys: seq<real>, target: int) {
    forall j :: 1 <= j <= |keys| ==> Cumulative(h, keys, j) < target
  }

  method HistogramPercentile(h: Histogram, p: int) returns (r: Result<real, PercentileError>)
    ensures Total(h) <= 0 ==> r == Err(EmptyHistogram)
    ensures Total(h) > 0 && r.Ok? ==>
      exists i: nat :: Resolves(h, SortedReals(h.Keys), Target(Total(h), p), i) && r.value == SortedReals(h.Keys)[i]
    ensures Total(h) > 0 && r.Err? ==> r.error == Unresolved && NeverResolves(h, SortedReals(h.Keys), Target(Total(h), p))
  {
    hide SortedReals, Target;
    var total := Total(h);
    if total <= 0 {
      return Err(EmptyHistogram);
    }
    var target := Target(total, p);
    var keys := SortedReals(h.Keys);
    var cumulative := 0;
    for i := 0 to |keys|
      invariant cumulative == Cumulative(h, keys, i)
      invariant forall j :: 1 <= j <= i ==> Cumulative(h, keys, j) < target
    {
      assert keys[i] in keys;
      cumulative := cumulative + h[keys[i]];
      assert cumulative == Cumulative(h, keys, i + 1);
      if cumulative >= target {
        assert Resolves(h, keys, target, i);
        return Ok(keys[i]);
      }
    }
    return Err(Unresolved);
  }

  ghost predicate NonNegative(h: Histogram) {
    forall k :: k in h ==> h[k] >= 0
  }

  function Repeat(x: real, n: nat): (r: seq<real>)
    ensures |r| == n && forall i :: 0 <= i < n ==> r[i] == x
  {
    seq(n, _ => x)
  }

  /** The list that the first n keys abbreviate. */
  ghost function Expanded(h: Histogram, keys: seq<real>, n: nat): seq<real>
    requires NonNegative(h) && n <= |keys|
  {
    if n == 0 then [] else Expanded(h, keys, n - 1) + Repeat(keys[n - 1], Count(h, keys[n - 1]))
  }

  /** `values` is a list with the histogram's counts. */
  ghost predicate Counts(h: Histogram, values: seq<real>) {
    forall x :: multiset(values)[x] == Count(h, x)
  }

  ghost predicate AscendingKeys(keys: seq<real>) {
    forall i, j :: 0 <= i < j < |keys| ==> keys[i] < keys[j]
  }

  lemma {:induction false} RepeatCounts(x: real, n: nat, y: real)
    ensures multiset(Repeat(x, n))[y] == if y == x then n else 0
  {
    if n > 0 {
      RepeatCounts(x, n - 1, y);
      assert Repeat(x, n) == Repeat(x, n - 1) + [x];
    } else {
      assert Repeat(x, n) == [];
    }
  }

  lemma {:induction false} ExpandedLength(h: Histogram, keys: seq<real>, n: nat)
    requires NonNegative(h) && n <= |keys|
    ensures |Expanded(h, keys, n)| == Cumulative(h, keys, n)
  {
    if n > 0 {
      ExpandedLength(h, keys, n - 1);
    }
  }

  lemma {:induction false} ExpandedMembers(h: Histogram, keys: seq<real>, n: nat)
    requires NonNegative(h) && n <= |keys|
    ensures forall x :: x in Expanded(h, keys, n) ==> x in keys[..n]
  {
    if n > 0 {
      ExpandedMembers(h, keys, n - 1);
      assert keys[..n] == keys[..n - 1] + [keys[n - 1]];
    }
  }

  lemma {:induction false} ExpandedSorted(h: Histogram, keys: seq<real>, n: nat)
    requires NonNegative(h) && n <= |keys| && AscendingKeys(keys)
    ensures Sorted(Expanded(h, keys, n), RealLe)
  {
    if n > 0 {
      ExpandedSorted(h, keys, n - 1);
      ExpandedMembers(h, keys, n - 1);
      var a, k := Expanded(h, keys, n - 1), keys[n - 1];
      forall x | x in a ensures RealLe(x, k) {
        assert x in keys[..n - 1];
      }
      AppendRepeat(a, k, Count(h, k));
    }
  }

  lemma AppendRepeat(a: seq<real>, k: real, n: nat)
    requires Sorted(a, RealLe) && forall x :: x in a ==> RealLe(x, k)
    ensures Sorted(a + Repeat(k, n), RealLe)
  {}

  lemma CountNatural(h: Histogram, k: real)
    requires NonNegative(h)
    ensures Count(h, k) >= 0
  {}

  lemma MultisetOfJoin(a: seq<real>, b: seq<real>, x: real)
    ensures multiset(a + b)[x] == multiset(a)[x] + multiset(b)[x]
  {}

  lemma {:induction false} ExpandedCounts(h: Histogram, keys: seq<real>, n: nat, x: real)
    requires NonNegative(h) && n <= |keys| && AscendingKeys(keys)
    ensures multiset(Expanded(h, keys, n))[x] == if x in keys[..n] then Count(h, x) else 0
  {
    hide Repeat, Count;
    if n > 0 {
      var k := keys[n - 1];
      ExpandedCounts(h, keys, n - 1, x);
      CountNatural(h, k);
      RepeatCounts(k, Count(h, k), x);
      assert keys[..n] == keys[..n - 1] + [k];
      assert k !in keys[..n - 1];
      MultisetOfJoin(Expanded(h, keys, n - 1), Repeat(k, Count(h, k)), x);
    }
  }

  lemma {:induction false} ExpandedPrefix(h: Histogram, keys: seq<real>, n: nat, m: nat)
    requires NonNegative(h) && n <= m <= |keys|
    ensures Expanded(h, keys, n) <= Expanded(h, keys, m)
  {
    if n < m {
      ExpandedPrefix(h, keys, n, m - 1);
    }
  }

  /** The element at position target - 1 is the key at which the scan stops. */
  lemma ExpandedAt(h: Histogram, keys: seq<real>, target: int, i: nat)
    requires NonNegative(h) && Resolves(h, keys, target, i) && target >= 1
    ensures 1 <= target <= |Expanded(h, keys, |keys|)| && Expanded(h, keys, |keys|)[target - 1] == keys[i]
  {
    ExpandedLength(h, keys, i);
    ExpandedLength(h, keys, i + 1);
    ExpandedPrefix(h, keys, i + 1, |keys|);
    assert Cumulative(h, keys, i) < target;
    assert Expanded(h, keys, i + 1)[target - 1] == keys[i];
  }

  lemma SomeKeyResolves(h: Histogram, keys: seq<real>, target: int) returns (i: nat)
    requires keys != [] && Cumulative(h, keys, |keys|) >= target
    ensures Resolves(h, keys, target, i)
  {
    i := 0;
    while Cumulative(h, keys, i + 1) < target
      invariant i < |keys|
      invariant forall j :: 1 <= j <= i ==> Cumulative(h, keys, j) < target
      decreases |keys| - i
    {
      i := i + 1;
    }
  }

  lemma ResolvesUnique(h: Histogram, keys: seq<real>, target: int, i: nat, j: nat)
    requires Resolves(h, keys, target, i) && Resolves(h, keys, target, j)
    ensures i == j
  {}

  /** Sorting any list with the histogram's counts gives the expanded list. */
  lemma SortedIsExpanded(h: Histogram, values: seq<real>)
    requires NonNegative(h) && Counts(h, values)
    ensures Sort(values, RealLe) == Expanded(h, SortedReals(h.Keys), |SortedReals(h.Keys)|)
  {
    hide Sort, Count, Expanded;
    var keys := SortedReals(h.Keys);
    var all := Expanded(h, keys, |keys|);
    assert keys[..|keys|] == keys;
    forall x ensures multiset(all)[x] == multiset(values)[x] {
      ExpandedCounts(h, keys, |keys|, x);
      AbsentCount(h, x);
    }
    assert multiset(values) == multiset(all);
    ExpandedSorted(h, keys, |keys|);
    SortInsensitive(values, all, RealLe);
    SortOfSorted(all, RealLe);
  }

  lemma AbsentCount(h: Histogram, x: real)
    ensures x !in h.Keys ==> Count(h, x) == 0
  {}

  /**
   * For non-negative counts, a positive total and p in 1..100, the cumulative scan resolves, and
   * to the element that nearest-rank indexing picks from any list with those counts.
   */
  lemma HistogramMatchesList(h: Histogram, values: seq<real>, p: int) returns (i: nat)
    requires NonNegative(h) && Total(h) > 0 && 0 < p <= 100 && Counts(h, values)
    ensures Resolves(h, SortedReals(h.Keys), Target(Total(h), p), i)
    ensures forall j: nat :: Resolves(h, SortedReals(h.Keys), Target(Total(h), p), j) ==> j == i
    ensures ListPercentile(values, p) == Ok(Some(SortedReals(h.Keys)[i]))
  {
    hide Sort, Expanded, Resolves, Counts, SortedReals;
    var keys, total := SortedReals(h.Keys), Total(h);
    RankInRange(total, p);
    i := SomeKeyResolves(h, keys, Target(total, p));
    forall j: nat | Resolves(h, keys, Target(total, p), j) ensures j == i {
      ResolvesUnique(h, keys, Target(total, p), i, j);
    }
    ExpandedAt(h, keys, Target(total, p), i);
    ExpandedLength(h, keys, |keys|);
    SortedIsExpanded(h, values);
    KeyInRange(h, keys, Target(total, p), i);
  }

  lemma KeyInRange(h: Histogram, keys: seq<real>, target: int, i: nat)
    requires Resolves(h, keys, target, i)
    ensures i < |keys|
  {}

  lemma {:induction false} CumulativeMonotone(h: Histogram, keys: seq<real>, n: nat, m: nat)
    requires NonNegative(h) && n <= m <= |keys|
    ensures Cumulative(h, keys, n) <= Cumulative(h, keys, m)
  {
    if n < m {
      CumulativeMonotone(h, keys, n, m - 1);
    }
  }

  /** With non-negative counts the final assertion is reached exactly when p exceeds 100, which this function does not check. */
  lemma UnresolvedIff(h: Histogram, p: int)
    requires NonNegative(h) && Total(h) > 0
    ensures NeverResolves(h, SortedReals(h.Keys), Target(Total(h), p)) <==> p > 100
  {
    hide SortedReals, Target;
    var keys := SortedReals(h.Keys);
    TargetBound(Total(h), p);
    forall j | 1 <= j <= |keys| ensures Cumulative(h, keys, j) <= Total(h) {
      CumulativeMonotone(h, keys, j, |keys|);
    }
  }

  lemma TargetBound(n: int, p: int)
    requires n > 0
    ensures Target(n, p) <= n <==> p <= 100
  {
    if p <= 100 {
      ProductMonotone(n, p, 100);
    } else {
      ProductMonotone(n, 101, p);
    }
  }

  lemma ProductMonotone(n: int, a: int, b: int)
    requires n > 0 && a <= b
    ensures n * a <= n * b
  {}
}
