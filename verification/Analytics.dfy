/** Return metrics over exact reals: compounding, drawdown from prices and drawdown from returns. */
module Analytics {
  import opened Arithmetic
  import opened Wrappers
  import opened Sorting
  import opened Transactions
  import opened Valuation

  datatype SeriesError = DuplicateDate(date: Date) | CloseNotPositive(date: Date)

  predicate BarLe(a: PriceBar, b: PriceBar) {
    a.date <= b.date
  }

  predicate PositiveClose(bar: PriceBar) {
    bar.adjustedClose.Finite? && bar.adjustedClose.value > 0.0
  }

  function FirstBadBar(ordered: seq<PriceBar>): Option<SeriesError> {
    if ordered == [] then None
    else
      var earlier, bar := ordered[..|ordered| - 1], ordered[|ordered| - 1];
      if FirstBadBar(earlier).Some? then FirstBadBar(earlier)
      else if exists b :: b in earlier && b.date == bar.date then Some(DuplicateDate(bar.date))
      else if !PositiveClose(bar) then Some(CloseNotPositive(bar.date))
      else None
  }

  function ValidateAndOrder(bars: seq<PriceBar>): Result<seq<PriceBar>, SeriesError> {
    var ordered := Sort(bars, BarLe);
    var bad := FirstBadBar(ordered);
    if bad.Some? then Err(bad.value) else Ok(ordered)
  }

  lemma {:induction false} FirstBadBarPrefix(ordered: seq<PriceBar>, n: nat)
    requires n <= |ordered| && FirstBadBar(ordered[..n]).Some?
    ensures FirstBadBar(ordered) == FirstBadBar(ordered[..n])
  {
    if n < |ordered| {
      assert ordered[..|ordered| - 1][..n] == ordered[..n];
      FirstBadBarPrefix(ordered[..|ordered| - 1], n);
    } else {
      assert ordered[..n] == ordered;
    }
  }

  lemma FirstBadBarAppend(earlier: seq<PriceBar>, bar: PriceBar)
    requires FirstBadBar(earlier).None?
    ensures FirstBadBar(earlier + [bar])
         == if exists b :: b in earlier && b.date == bar.date then Some(DuplicateDate(bar.date))
            else if !PositiveClose(bar) then Some(CloseNotPositive(bar.date)) else None
  {
    hide PositiveClose;
    assert (earlier + [bar])[..|earlier|] == earlier;
  }

  lemma FirstBadBarStep(ordered: seq<PriceBar>, i: nat)
    requires i < |ordered| && FirstBadBar(ordered[..i]).None?
    ensures FirstBadBar(ordered[..i + 1])
         == if exists b :: b in ordered[..i] && b.date == ordered[i].date then Some(DuplicateDate(ordered[i].date))
            else if !PositiveClose(ordered[i]) then Some(CloseNotPositive(ordered[i].date)) else None
    ensures FirstBadBar(ordered[..i + 1]).Some? ==> FirstBadBar(ordered) == FirstBadBar(ordered[..i + 1])
  {
    hide FirstBadBar, PositiveClose;
    assert ordered[..i + 1] == ordered[..i] + [ordered[i]];
    FirstBadBarAppend(ordered[..i], ordered[i]);
    if FirstBadBar(ordered[..i + 1]).Some? {
      FirstBadBarPrefix(ordered, i + 1);
    }
  }

  method ValidateAndOrderLoop(bars: seq<PriceBar>) returns (r: Result<seq<PriceBar>, SeriesError>)
    ensures r == ValidateAndOrder(bars)
  {
    hide Sort, PositiveClose;
    var ordered := Sort(bars, BarLe);
    var seen: set<Date> := {};
    for i := 0 to |ordered|
      invariant FirstBadBar(ordered[..i]).None?
      invariant forall d :: d in seen <==> exists b :: b in ordered[..i] && b.date == d
    {
      var bar := ordered[i];
      FirstBadBarStep(ordered, i);
      assert ordered[..i + 1] == ordered[..i] + [bar];
      if bar.date in seen {
        return Err(DuplicateDate(bar.date));
      }
      seen := seen + {bar.date};
      if !PositiveClose(bar) {
        return Err(CloseNotPositive(bar.date));
      }
    }
    assert ordered[..|ordered|] == ordered;
    return Ok(ordered);
  }

  lemma {:induction false} GoodBars(ordered: seq<PriceBar>)
    requires FirstBadBar(ordered).None?
    ensures forall b :: b in ordered ==> PositiveClose(b)
    ensures forall i, j :: 0 <= i < j < |ordered| ==> ordered[i].date != ordered[j].date
  {
    if ordered != [] {
      SplitLast(ordered);
      GoodBars(ordered[..|ordered| - 1]);
    }
  }

  /** A series is accepted exactly when its closes are positive and no two bars share a date; the answer is in date order. */
  lemma OrderedSeries(bars: seq<PriceBar>)
    ensures ValidateAndOrder(bars).Ok? <==>
      (forall b :: b in bars ==> PositiveClose(b)) &&
      (forall i, j :: 0 <= i < j < |Sort(bars, BarLe)| ==> Sort(bars, BarLe)[i].date < Sort(bars, BarLe)[j].date)
    ensures ValidateAndOrder(bars).Ok? ==>
      var ordered := ValidateAndOrder(bars).value;
      multiset(ordered) == multiset(bars) && forall i, j :: 0 <= i < j < |ordered| ==> ordered[i].date < ordered[j].date
  {
    SortPermutes(bars, BarLe);
    SortSorts(bars, BarLe);
    var ordered := Sort(bars, BarLe);
    if ValidateAndOrder(bars).Ok? {
      GoodBars(ordered);
    } else if forall i, j :: 0 <= i < j < |ordered| ==> ordered[i].date < ordered[j].date {
      NotBad(ordered);
    }
  }

  /** A series is refused for its first bad bar in date order: a date seen before, or else a close that is not positive. */
  lemma RefusedForFirstBar(bars: seq<PriceBar>) returns (i: nat)
    requires ValidateAndOrder(bars).Err?
    ensures var ordered := Sort(bars, BarLe);
            && i < |ordered|
            && (forall j :: 0 <= j < i ==> PositiveClose(ordered[j]))
            && (forall j, k :: 0 <= j < k < i ==> ordered[j].date != ordered[k].date)
            && if exists b :: b in ordered[..i] && b.date == ordered[i].date
               then ValidateAndOrder(bars) == Err(DuplicateDate(ordered[i].date))
               else !PositiveClose(ordered[i]) && ValidateAndOrder(bars) == Err(CloseNotPositive(ordered[i].date))
  {
    hide PositiveClose, Sort;
    var ordered := Sort(bars, BarLe);
    i := FirstBadIndex(ordered);
    GoodBars(ordered[..i]);
    assert forall j :: 0 <= j < i ==> ordered[j] == ordered[..i][j] && ordered[j] in ordered[..i];
  }

  lemma {:induction false} FirstBadIndex(ordered: seq<PriceBar>) returns (i: nat)
    requires FirstBadBar(ordered).Some?
    ensures i < |ordered| && FirstBadBar(ordered[..i]).None?
    ensures FirstBadBar(ordered)
         == if exists b :: b in ordered[..i] && b.date == ordered[i].date then Some(DuplicateDate(ordered[i].date))
            else Some(CloseNotPositive(ordered[i].date))
    ensures (exists b :: b in ordered[..i] && b.date == ordered[i].date) || !PositiveClose(ordered[i])
  {
    hide PositiveClose;
    var n := |ordered| - 1;
    if FirstBadBar(ordered[..n]).Some? {
      i := FirstBadIndex(ordered[..n]);
      assert ordered[..n][..i] == ordered[..i];
    } else {
      i := n;
    }
  }

  lemma {:induction false} NotBad(ordered: seq<PriceBar>)
    requires forall i, j :: 0 <= i < j < |ordered| ==> ordered[i].date < ordered[j].date
    requires FirstBadBar(ordered).Some?
    ensures exists b :: b in ordered && !PositiveClose(b)
  {
    var earlier, bar := ordered[..|ordered| - 1], ordered[|ordered| - 1];
    if FirstBadBar(earlier).Some? {
      NotBad(earlier);
      var b :| b in earlier && !PositiveClose(b);
      assert b in ordered;
    } else {
      assert forall b :: b in earlier ==> b.date < bar.date;
      assert bar in ordered;
    }
  }

  function Closes(ordered: seq<PriceBar>): (ps: seq<real>)
    ensures |ps| == |ordered|
  {
    seq(|ordered|, i requires 0 <= i < |ordered| => Number(Some(ordered[i].adjustedClose)))
  }

  ghost predicate AllPositive(ps: seq<real>) {
    forall i :: 0 <= i < |ps| ==> ps[i] > 0.0
  }

  function Change(before: real, after: real): real
    requires before > 0.0
  {
    after / before - 1.0
  }

  /** Simple period returns of a price sequence. */
  function ReturnsOf(ps: seq<real>): (rs: seq<real>)
    requires AllPositive(ps)
    ensures |rs| == if ps == [] then 0 else |ps| - 1
    ensures forall i :: 0 <= i < |rs| ==> rs[i] == Change(ps[i], ps[i + 1])
  {
    if ps == [] then [] else seq(|ps| - 1, i requires 0 <= i < |ps| - 1 => Change(ps[i], ps[i + 1]))
  }

  lemma AcceptedCloses(bars: seq<PriceBar>)
    requires ValidateAndOrder(bars).Ok?
    ensures AllPositive(Closes(ValidateAndOrder(bars).value))
    ensures |ValidateAndOrder(bars).value| == |bars|
  {
    var ordered := ValidateAndOrder(bars).value;
    GoodBars(ordered);
    SortPermutes(bars, BarLe);
    forall i | 0 <= i < |ordered| ensures Closes(ordered)[i] > 0.0 {
      assert ordered[i] in ordered;
    }
  }

  function SimpleReturns(bars: seq<PriceBar>): Result<seq<real>, SeriesError> {
    var ordered :- ValidateAndOrder(bars);
    AcceptedCloses(bars);
    Ok(ReturnsOf(Closes(ordered)))
  }

  function Accrue(wealth: real, r: real): real {
    wealth * (1.0 + r)
  }

  /** The cumulative wealth index: the product of 1 + r. */
  function Growth(rs: seq<real>): real {
    if rs == [] then 1.0 else Accrue(Growth(rs[..|rs| - 1]), rs[|rs| - 1])
  }

  function CompoundedReturn(rs: seq<real>): Option<real> {
    if rs == [] then None else Some(Growth(rs) - 1.0)
  }

  method CalculateCompoundedReturn(rs: seq<real>) returns (r: Option<real>)
    ensures r == CompoundedReturn(rs)
  {
    if rs == [] {
      return None;
    }
    var wealth := 1.0;
    for i := 0 to |rs|
      invariant wealth == Growth(rs[..i])
    {
      assert rs[..i + 1][..i] == rs[..i];
      wealth := Accrue(wealth, rs[i]);
    }
    assert rs[..|rs|] == rs;
    return Some(wealth - 1.0);
  }

  function Max(a: real, b: real): real { if a >= b then a else b }
  function Min(a: real, b: real): real { if a <= b then a else b }

  /** The greatest wealth reached so far, the starting 1 included. */
  function PeakGrowth(rs: seq<real>): (p: real)
    ensures p >= 1.0
  {
    if rs == [] then 1.0 else Max(PeakGrowth(rs[..|rs| - 1]), Growth(rs))
  }

  /** The worst decline from a running peak. */
  function Drawdown(rs: seq<real>): real {
    if rs == [] then 0.0 else Min(Drawdown(rs[..|rs| - 1]), Growth(rs) / PeakGrowth(rs) - 1.0)
  }

  method CalculateMaxDrawdownFromReturns(rs: seq<real>) returns (worst: real)
    ensures worst == Drawdown(rs)
  {
    hide Accrue;
    var wealth := 1.0;
    var peak := wealth;
    worst := 0.0;
    for i := 0 to |rs|
      invariant wealth == Growth(rs[..i]) && peak == PeakGrowth(rs[..i]) && worst == Drawdown(rs[..i])
    {
      assert rs[..i + 1][..i] == rs[..i];
      wealth := Accrue(wealth, rs[i]);
      peak := Max(peak, wealth);
      worst := Min(worst, wealth / peak - 1.0);
    }
    assert rs[..|rs|] == rs;
  }

  function PeakPrice(ps: seq<real>): real
    requires ps != []
  {
    if |ps| == 1 then ps[0] else Max(PeakPrice(ps[..|ps| - 1]), ps[|ps| - 1])
  }

  lemma {:induction false} PeakPricePositive(ps: seq<real>)
    requires ps != [] && AllPositive(ps)
    ensures PeakPrice(ps) > 0.0
  {
    if |ps| > 1 {
      PeakPricePositive(ps[..|ps| - 1]);
    }
  }

  function PriceDrawdown(ps: seq<real>): real
    requires ps != [] && AllPositive(ps)
  {
    if |ps| == 1 then 0.0
    else
      PeakPricePositive(ps);
      Min(PriceDrawdown(ps[..|ps| - 1]), ps[|ps| - 1] / PeakPrice(ps) - 1.0)
  }

  function MaxDrawdown(bars: seq<PriceBar>): Result<Option<real>, SeriesError> {
    var ordered :- ValidateAndOrder(bars);
    AcceptedCloses(bars);
    Ok(if ordered == [] then None else Some(PriceDrawdown(Closes(ordered))))
  }

  method CalculateMaxDrawdown(bars: seq<PriceBar>) returns (r: Result<Option<real>, SeriesError>)
    ensures r == MaxDrawdown(bars)
  {
    hide ValidateAndOrder;
    var validated := ValidateAndOrderLoop(bars);
    if validated.Err? {
      return Err(validated.error);
    }
    var ordered := validated.value;
    if ordered == [] {
      return Ok(None);
    }
    AcceptedCloses(bars);
    ghost var ps := Closes(ordered);
    var peak := Number(Some(ordered[0].adjustedClose));
    var worst := 0.0;
    for i := 1 to |ordered|
      invariant peak == PeakPrice(ps[..i]) && worst == PriceDrawdown(ps[..i])
    {
      assert ps[..i + 1][..i] == ps[..i];
      var close := Number(Some(ordered[i].adjustedClose));
      peak := Max(peak, close);
      PeakPricePositive(ps[..i + 1]);
      worst := Min(worst, close / peak - 1.0);
    }
    assert ps[..|ps|] == ps;
    return Ok(Some(worst));
  }

  ghost predicate AboveMinusOne(rs: seq<real>) {
    forall i :: 0 <= i < |rs| ==> rs[i] > -1.0
  }

  lemma AccruePositive(wealth: real, r: real)
    requires wealth > 0.0 && r > -1.0
    ensures Accrue(wealth, r) > 0.0
  {
    ProductPositive(wealth, 1.0 + r);
  }

  lemma {:induction false} GrowthPositive(rs: seq<real>)
    requires AboveMinusOne(rs)
    ensures Growth(rs) > 0.0
  {
    hide Accrue;
    if rs != [] {
      GrowthPositive(rs[..|rs| - 1]);
      AccruePositive(Growth(rs[..|rs| - 1]), rs[|rs| - 1]);
    }
  }

  lemma {:induction false} PeakIsMaximum(rs: seq<real>, i: nat)
    requires i <= |rs|
    ensures Growth(rs[..i]) <= PeakGrowth(rs)
  {
    if i == |rs| {
      assert rs[..i] == rs;
      assert rs == [] ==> Growth(rs) == 1.0;
    } else {
      assert rs[..|rs| - 1][..i] == rs[..i];
      PeakIsMaximum(rs[..|rs| - 1], i);
    }
  }

  lemma {:induction false} PeakIsReached(rs: seq<real>) returns (i: nat)
    ensures i <= |rs| && Growth(rs[..i]) == PeakGrowth(rs)
  {
    if rs == [] || PeakGrowth(rs) == Growth(rs) {
      i := |rs|;
      assert rs[..i] == rs;
    } else {
      i := PeakIsReached(rs[..|rs| - 1]);
      assert rs[..|rs| - 1][..i] == rs[..i];
    }
  }

  lemma QuotientMonotone(a: real, b: real, c: real)
    requires a > 0.0 && 0.0 < b <= c
    ensures a / c <= a / b
  {
    assert (a / b - a / c) * (b * c) == a * c - a * b == a * (c - b);
    ProductPositive(b, c);
    NonNegativeFactor(a / b - a / c, b * c);
  }

  /** The decline from wealth after i periods to wealth after j periods. */
  function Decline(rs: seq<real>, i: nat, j: nat): real
    requires i <= j <= |rs| && AboveMinusOne(rs)
  {
    GrowthPositive(rs[..i]);
    Growth(rs[..j]) / Growth(rs[..i]) - 1.0
  }

  /**
   * When every return exceeds -1, the one-pass drawdown is the least decline over all pairs
   * i <= j of the wealth index: no pair declines further, and some pair declines that far.
   */
  lemma {:induction false} DrawdownIsWorstPair(rs: seq<real>) returns (i: nat, j: nat)
    requires AboveMinusOne(rs)
    ensures i <= j <= |rs| && Drawdown(rs) == Decline(rs, i, j)
    ensures forall a, b :: 0 <= a <= b <= |rs| ==> Drawdown(rs) <= Decline(rs, a, b)
    ensures -1.0 < Drawdown(rs) <= 0.0
  {
    if rs == [] {
      i, j := 0, 0;
      assert rs[..0] == [];
    } else {
      var n := |rs|;
      var init := rs[..n - 1];
      i, j := DrawdownIsWorstPair(init);
      assert init[..i] == rs[..i] && init[..j] == rs[..j];
      GrowthPositive(rs);
      var k := PeakIsReached(rs);
      assert rs[..n] == rs;
      DeclineFromPeak(rs);
      forall a, b | 0 <= a <= b <= n ensures Drawdown(rs) <= Decline(rs, a, b) {
        if b == n {
          GrowthPositive(rs[..a]);
          PeakIsMaximum(rs, a);
          QuotientMonotone(Growth(rs), Growth(rs[..a]), PeakGrowth(rs));
        } else {
          assert init[..a] == rs[..a] && init[..b] == rs[..b];
          assert Drawdown(init) <= Decline(init, a, b);
        }
      }
      if Drawdown(rs) != Drawdown(init) {
        i, j := k, n;
      }
    }
  }

  lemma DeclineFromPeak(rs: seq<real>)
    requires Growth(rs) > 0.0
    ensures Growth(rs) / PeakGrowth(rs) - 1.0 > -1.0
  {
    assert Growth(rs) / PeakGrowth(rs) > 0.0;
  }

  lemma ReturnsAboveMinusOne(ps: seq<real>)
    requires AllPositive(ps)
    ensures AboveMinusOne(ReturnsOf(ps))
  {
    var rs := ReturnsOf(ps);
    forall i | 0 <= i < |rs| ensures rs[i] > -1.0 {
      QuotientPositive(ps[i + 1], ps[i]);
    }
  }

  lemma QuotientChain(a: real, b: real, c: real)
    requires a > 0.0 && b > 0.0
    ensures (b / a) * (c / b) == c / a
  {
    assert (b / a) * (c / b) * a == b * (c / b) == c;
  }

  lemma QuotientCancel(a: real, b: real, c: real)
    requires b > 0.0 && c > 0.0
    ensures b / c > 0.0 && (a / c) / (b / c) == a / b
  {
    QuotientPositive(b, c);
    assert (a / b) * (b / c) == a / c by { QuotientChain(c, b, a); }
  }

  lemma ReturnsPrefix(ps: seq<real>)
    requires AllPositive(ps) && |ps| > 1
    ensures ReturnsOf(ps[..|ps| - 1]) == ReturnsOf(ps)[..|ps| - 2]
  {
    hide Change;
  }

  lemma GrowthStep(ps: seq<real>)
    requires AllPositive(ps) && |ps| > 1
    ensures Growth(ReturnsOf(ps)) == Growth(ReturnsOf(ps[..|ps| - 1])) * (ps[|ps| - 1] / ps[|ps| - 2])
    ensures PeakGrowth(ReturnsOf(ps)) == Max(PeakGrowth(ReturnsOf(ps[..|ps| - 1])), Growth(ReturnsOf(ps)))
  {
    hide Growth, PeakGrowth, Max;
    var rs := ReturnsOf(ps);
    ReturnsPrefix(ps);
    GrowthLast(rs);
    PeakLast(rs);
    assert 1.0 + rs[|rs| - 1] == ps[|ps| - 1] / ps[|ps| - 2];
  }

  lemma GrowthLast(rs: seq<real>)
    requires rs != []
    ensures Growth(rs) == Accrue(Growth(rs[..|rs| - 1]), rs[|rs| - 1])
  {
    hide Accrue;
  }

  lemma PeakLast(rs: seq<real>)
    requires rs != []
    ensures PeakGrowth(rs) == Max(PeakGrowth(rs[..|rs| - 1]), Growth(rs))
  {
    hide Growth;
  }

  lemma RelativeStep(first: real, previous: real, current: real, peak: real, g: real, pg: real, g': real, pg': real)
    requires first > 0.0 && previous > 0.0
    requires g == previous / first && pg == peak / first
    requires g' == g * (current / previous) && pg' == Max(pg, g')
    ensures g' == current / first && pg' == Max(peak, current) / first
  {
    QuotientChain(first, previous, current);
    MaxQuotient(peak, current, first);
  }

  /** Wealth and peak built from the simple returns are prices relative to the first price. */
  ghost predicate Relative(ps: seq<real>)
    requires ps != [] && AllPositive(ps)
  {
    && Growth(ReturnsOf(ps)) == ps[|ps| - 1] / ps[0]
    && PeakGrowth(ReturnsOf(ps)) == PeakPrice(ps) / ps[0]
  }

  lemma RelativeExtends(ps: seq<real>)
    requires |ps| > 1 && AllPositive(ps) && Relative(ps[..|ps| - 1])
    ensures Relative(ps)
  {
    hide Growth, PeakGrowth, ReturnsOf, Max;
    var n := |ps|;
    var init := ps[..n - 1];
    GrowthStep(ps);
    RelativeStep(ps[0], ps[n - 2], ps[n - 1], PeakPrice(init),
                 Growth(ReturnsOf(init)), PeakGrowth(ReturnsOf(init)), Growth(ReturnsOf(ps)), PeakGrowth(ReturnsOf(ps)));
  }

  lemma {:induction false} RelativePrices(ps: seq<real>)
    requires ps != [] && AllPositive(ps)
    ensures Relative(ps)
  {
    if |ps| == 1 {
      assert ps[0] / ps[0] == 1.0;
    } else {
      hide Relative;
      RelativePrices(ps[..|ps| - 1]);
      RelativeExtends(ps);
    }
  }

  lemma MaxQuotient(a: real, b: real, c: real)
    requires c > 0.0
    ensures Max(a / c, b / c) == Max(a, b) / c
  {
    assert (a / c - b / c) * c == a - b;
    if a >= b {
      NonNegativeFactor(a / c - b / c, c);
    } else {
      NonNegativeFactor(b / c - a / c, c);
    }
  }

  lemma {:induction false} DrawdownOfPrices(ps: seq<real>)
    requires ps != [] && AllPositive(ps)
    ensures PriceDrawdown(ps) == Drawdown(ReturnsOf(ps))
  {
    if |ps| > 1 {
      DrawdownOfPrices(ps[..|ps| - 1]);
      ReturnsPrefix(ps);
      RelativePrices(ps);
      PeakPricePositive(ps);
      QuotientCancel(ps[|ps| - 1], PeakPrice(ps), ps[0]);
    }
  }

  /** The two drawdown implementations agree on every non-empty accepted price series, in any input order. */
  lemma DrawdownsAgree(bars: seq<PriceBar>)
    requires ValidateAndOrder(bars).Ok? && bars != []
    ensures MaxDrawdown(bars) == Ok(Some(Drawdown(SimpleReturns(bars).value)))
  {
    hide ValidateAndOrder;
    AcceptedCloses(bars);
    DrawdownOfPrices(Closes(ValidateAndOrder(bars).value));
  }

  /** Wealth after k simple returns is the price after k bars, relative to the first. */
  lemma WealthIsRelativePrice(ps: seq<real>, k: nat)
    requires AllPositive(ps) && k < |ps|
    ensures Growth(ReturnsOf(ps)[..k]) == ps[k] / ps[0]
  {
    hide Growth, Change;
    var known := ps[..k + 1];
    assert ReturnsOf(known) == ReturnsOf(ps)[..k];
    RelativePrices(known);
  }

  /** The decline from one close to a later one. */
  function PriceDecline(ps: seq<real>, i: nat, j: nat): real
    requires AllPositive(ps) && i <= j < |ps|
  {
    ps[j] / ps[i] - 1.0
  }

  lemma DeclineOfPrices(ps: seq<real>, i: nat, j: nat)
    requires AllPositive(ps) && AboveMinusOne(ReturnsOf(ps)) && i <= j < |ps|
    ensures Decline(ReturnsOf(ps), i, j) == PriceDecline(ps, i, j)
  {
    hide Growth;
    WealthIsRelativePrice(ps, i);
    WealthIsRelativePrice(ps, j);
    QuotientCancel(ps[j], ps[i], ps[0]);
  }

  /**
   * The price drawdown of an accepted non-empty series, in any input order, is the least decline
   * p_j / p_i - 1 over all i <= j of its closes in date order: no pair declines further, some pair
   * declines that far, and it lies in (-1, 0].
   */
  lemma PriceDrawdownIsWorstPair(bars: seq<PriceBar>) returns (i: nat, j: nat)
    requires ValidateAndOrder(bars).Ok? && bars != []
    ensures AllPositive(Closes(ValidateAndOrder(bars).value))
    ensures var ps := Closes(ValidateAndOrder(bars).value);
            && i <= j < |ps| && MaxDrawdown(bars) == Ok(Some(PriceDecline(ps, i, j)))
            && (forall a, b :: 0 <= a <= b < |ps| ==> PriceDecline(ps, i, j) <= PriceDecline(ps, a, b))
            && -1.0 < PriceDecline(ps, i, j) <= 0.0
  {
    hide ValidateAndOrder, Closes, PriceDecline, Decline, Drawdown, PriceDrawdown;
    AcceptedCloses(bars);
    var ps := Closes(ValidateAndOrder(bars).value);
    ReturnsAboveMinusOne(ps);
    DrawdownOfPrices(ps);
    i, j := DrawdownIsWorstPair(ReturnsOf(ps));
    DeclineOfPrices(ps, i, j);
    forall a, b | 0 <= a <= b < |ps| ensures PriceDecline(ps, i, j) <= PriceDecline(ps, a, b) {
      DeclineOfPrices(ps, a, b);
    }
  }
}
