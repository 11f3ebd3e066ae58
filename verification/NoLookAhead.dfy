/** No look-ahead: what a valuation reports up to a date depends only on rows and prices up to that date. */
module NoLookAhead {
  import opened Wrappers
  import opened Sorting
  import opened Text
  import opened Transactions
  import opened Holdings
  import opened Replay
  import opened Valuation
  import opened EndState
  import Engine = ValuationEngine

  predicate BarOnOrBefore(bar: PriceBar, d: Date) {
    bar.date <= d
  }

  /** The bars dated on or before `d`, in the order given. */
  function Known(bars: seq<PriceBar>, d: Date): seq<PriceBar> {
    Filter(bars, (bar: PriceBar) => BarOnOrBefore(bar, d))
  }

  /** Both ledgers, in ledger order, hold the same rows up to `d`. */
  ghost predicate LedgersAgree(ts: seq<Transaction>, us: seq<Transaction>, d: Date) {
    LedgerSort(Through(ts, d)) == LedgerSort(Through(us, d))
  }

  /** Every symbol has the same bars up to `d`. */
  ghost predicate PricesAgree(a: PriceInput, b: PriceInput, d: Date) {
    forall s :: Known(BarsFor(a, s), d) == Known(BarsFor(b, s), d)
  }

  function Clip(series: Series, d: Date): Series {
    map x | x in series && x <= d :: series[x]
  }

  lemma AddBarClip(series: Series, s: string, bar: PriceBar, start: Date, end: Date, d: Date)
    requires d <= end && AddBar(series, s, bar, start, end).Ok?
    ensures bar.date <= d ==> AddBar(Clip(series, d), s, bar, start, d) == Ok(Clip(AddBar(series, s, bar, start, end).value, d))
    ensures bar.date > d ==> Clip(series, d) == Clip(AddBar(series, s, bar, start, end).value, d)
  {
    var price := bar.adjustedClose.value;
    if bar.date <= d {
      assert Clip(series[bar.date := price], d) == Clip(series, d)[bar.date := price];
    } else {
      assert Clip(series[bar.date := price], d) == Clip(series, d);
    }
  }

  lemma {:induction false} SeriesClip(s: string, bars: seq<PriceBar>, start: Date, end: Date, d: Date)
    requires d <= end && SeriesOf(s, bars, start, end).Ok?
    ensures SeriesOf(s, Known(bars, d), start, d) == Ok(Clip(SeriesOf(s, bars, start, end).value, d))
  {
    if bars != [] {
      hide AddBar, Clip;
      var init, bar := bars[..|bars| - 1], bars[|bars| - 1];
      SeriesClip(s, init, start, end, d);
      AddBarClip(SeriesOf(s, init, start, end).value, s, bar, start, end, d);
      if bar.date <= d {
        var known := Known(init, d);
        assert (known + [bar])[..|known|] == known;
      }
    }
  }

  lemma TableSeries(symbols: seq<string>, input: PriceInput, start: Date, end: Date, s: string)
    requires ValidatedPrices(symbols, input, start, end).Ok? && s in ValidatedPrices(symbols, input, start, end).value
    ensures SeriesOf(s, BarsFor(input, s), start, end) == Ok(ValidatedPrices(symbols, input, start, end).value[s])
  {
    if symbols != [] && symbols[|symbols| - 1] != s {
      TableSeries(symbols[..|symbols| - 1], input, start, end, s);
    }
  }

  /** A symbol priced in both runs has the same observations up to `d`. */
  lemma SharedSeries(ts: seq<Transaction>, us: seq<Transaction>, a: PriceInput, b: PriceInput,
                     start: Date, end: Date, end': Date, d: Date, s: string)
    requires Prepare(ts, a, start, end).Ok? && Prepare(us, b, start, end').Ok?
    requires d <= end && d <= end' && PricesAgree(a, b, d)
    requires s in Prepare(ts, a, start, end).value.prices && s in Prepare(us, b, start, end').value.prices
    ensures Clip(Prepare(ts, a, start, end).value.prices[s], d) == Clip(Prepare(us, b, start, end').value.prices[s], d)
  {
    hide RequiredSymbols, MarketDates, OrderedTransactions, SeriesOf, Clip, Known, ValidatedPrices;
    TableSeries(Prepare(ts, a, start, end).value.symbols, a, start, end, s);
    TableSeries(Prepare(us, b, start, end').value.symbols, b, start, end', s);
    SeriesClip(s, BarsFor(a, s), start, end, d);
    SeriesClip(s, BarsFor(b, s), start, end', d);
  }

  lemma LatestFromClip(a: Series, b: Series, d: Date, x: Date)
    requires x <= d && Clip(a, d) == Clip(b, d)
    ensures LatestPrice(a, x) == LatestPrice(b, x)
  {
    forall y ensures (y in a && y <= x) <==> (y in b && y <= x) {
      assert (y in a && y <= d) <==> y in Clip(a, d);
      assert (y in b && y <= d) <==> y in Clip(b, d);
    }
    forall y | y in a && y <= x ensures a[y] == b[y] {
      assert Clip(a, d)[y] == a[y] && Clip(b, d)[y] == b[y];
    }
    Engine.SameLatest(a, x, b, x);
  }

  /** Rows up to x are the same in both ordered ledgers. */
  lemma SameRows(ts: seq<Transaction>, us: seq<Transaction>, end: Date, end': Date, d: Date, x: Date)
    requires x <= d <= end && d <= end' && LedgersAgree(ts, us, d)
    ensures Through(LedgerSort(Through(ts, end)), x) == Through(LedgerSort(Through(us, end')), x)
  {
    hide Through, LedgerSort;
    CutOfSorted(ts, end, d, x);
    CutOfSorted(us, end', d, x);
  }

  lemma CutOfSorted(ts: seq<Transaction>, end: Date, d: Date, x: Date)
    requires x <= d <= end
    ensures Through(LedgerSort(Through(ts, end)), x) == Through(LedgerSort(Through(ts, d)), x)
  {
    hide Through, LedgerSort;
    ThroughSort(Through(ts, end), x);
    ThroughSort(Through(ts, d), x);
    ThroughThrough(ts, x, end);
    ThroughThrough(ts, x, d);
  }

  /** The value depends on the prices of the active symbols only. */
  lemma ValueOfActive(b: Book, latest: map<string, real>, latest': map<string, real>)
    requires forall s :: s in Nonzero(b.positions) ==> (s in latest <==> s in latest') && (s in latest ==> latest[s] == latest'[s])
    ensures ValueOf(b, latest) == ValueOf(b, latest')
  {
    hide Total, Nonzero;
    var active := Nonzero(b.positions);
    if active.Keys <= latest.Keys {
      SameAssets(active, latest, latest');
    } else {
      var s :| s in active.Keys && s !in latest.Keys;
      assert s in active;
      assert s !in latest;
    }
  }

  lemma SameAssets(active: Quantities, latest: map<string, real>, latest': map<string, real>)
    requires active.Keys <= latest.Keys
    requires forall s :: s in active ==> s in latest' && latest[s] == latest'[s]
    ensures active.Keys <= latest'.Keys && AssetValues(active, latest) == AssetValues(active, latest')
  {
    var v, v' := AssetValues(active, latest), AssetValues(active, latest');
    assert v.Keys == active.Keys == v'.Keys;
    forall s | s in v ensures v[s] == v'[s] {}
  }

  lemma SameValue(ts: seq<Transaction>, us: seq<Transaction>, a: PriceInput, b: PriceInput,
                  start: Date, end: Date, end': Date, d: Date, x: Date)
    requires Prepare(ts, a, start, end).Ok? && Prepare(us, b, start, end').Ok?
    requires start <= x <= d && d <= end && d <= end'
    requires LedgersAgree(ts, us, d) && PricesAgree(a, b, d)
    requires Run(Through(Prepare(ts, a, start, end).value.ordered, x)).Ok?
    ensures var p, q := Prepare(ts, a, start, end).value, Prepare(us, b, start, end').value;
            && ValueOn(p.ordered, p.prices, x) == ValueOn(q.ordered, q.prices, x)
            && BookOn(p.ordered, x) == BookOn(q.ordered, x)
  {
    hide Prepare, Through, LedgerSort, Run, PositionsAfter, Nonzero, LedgersAgree, PricesAgree, TradedFrom, ValueOf,
      LatestPrice, Clip, AllValid, InLedgerOrder, GoodTable;
    PrepareFacts(ts, a, start, end);
    PrepareFacts(us, b, start, end');
    var p, q := Prepare(ts, a, start, end).value, Prepare(us, b, start, end').value;
    SameRows(ts, us, end, end', d, x);
    var book := BookOn(p.ordered, x);
    var latest, latest' := LatestPrices(p.prices, x), LatestPrices(q.prices, x);
    forall s | s in Nonzero(book.positions)
      ensures (s in latest <==> s in latest') && (s in latest ==> latest[s] == latest'[s])
    {
      ActiveIsRequired(p.ordered, start, x, s);
      ActiveIsRequired(q.ordered, start, x, s);
      SharedSeries(ts, us, a, b, start, end, end', d, s);
      LatestFromClip(p.prices[s], q.prices[s], d, x);
    }
    ValueOfActive(book, latest, latest');
  }

  ghost predicate Emitted(v: PortfolioValuation, x: Date, total: real, cash: real) {
    exists p :: p in v.points && p.date == x && p.totalValue == total && p.cashBalance == cash
  }

  lemma EmittedIff(ts: seq<Transaction>, input: PriceInput, start: Date, end: Date, x: Date, total: real, cash: real)
    requires Valuate(ts, input, start, end).Ok? && x in Prepare(ts, input, start, end).value.dates
    ensures var inputs := Prepare(ts, input, start, end).value;
            Emitted(Valuate(ts, input, start, end).value, x, total, cash)
            <==> ValueOn(inputs.ordered, inputs.prices, x) == Some(total) && BookOn(inputs.ordered, x).cash == cash
  {
    hide Valuate, Prepare, Returns, PointsOn, ValueOn, RequiredPriced, LatestPrices, MarketDates, WeightsOf, Run, Through, Prepared;
    Completed(ts, input, start, end);
    var inputs, v := Prepare(ts, input, start, end).value, Valuate(ts, input, start, end).value;
    PointsFacts(inputs.ordered, inputs.prices, inputs.dates);
    if ValueOn(inputs.ordered, inputs.prices, x) == Some(total) && BookOn(inputs.ordered, x).cash == cash {
      var i := PointsComplete(inputs.ordered, inputs.prices, inputs.dates, x);
      assert v.points[i] in v.points;
    }
  }

  lemma DatesInRange(inputs: Inputs, start: Date, end: Date, x: Date)
    requires Prepared(inputs, start, end) && x in inputs.dates
    ensures start <= x <= LastDate(inputs) <= end
  {
    assert LastDate(inputs) in inputs.dates;
    assert x in ObservedDates(inputs.prices) && LastDate(inputs) in ObservedDates(inputs.prices);
  }

  /**
   * Two completed runs whose ledgers and prices agree up to `d`, over ranges with the same start
   * and ends not before `d`: a date up to `d` that both runs visit is skipped by both, or
   * emitted by both with the same total value and cash.
   */
  lemma NoLookAheadAcrossLedgers(ts: seq<Transaction>, us: seq<Transaction>, a: PriceInput, b: PriceInput,
                                 start: Date, end: Date, end': Date, d: Date, x: Date, total: real, cash: real)
    requires Valuate(ts, a, start, end).Ok? && Valuate(us, b, start, end').Ok?
    requires LedgersAgree(ts, us, d) && PricesAgree(a, b, d) && d <= end && d <= end'
    requires x <= d && x in Prepare(ts, a, start, end).value.dates && x in Prepare(us, b, start, end').value.dates
    ensures Emitted(Valuate(ts, a, start, end).value, x, total, cash)
            <==> Emitted(Valuate(us, b, start, end').value, x, total, cash)
  {
    hide Valuate, Prepare, Emitted, ValueOn, BookOn, LedgersAgree, PricesAgree, Prepared, RequiredPriced, PointsOf, WeightsOf, Returns, Run, Through;
    EmittedIff(ts, a, start, end, x, total, cash);
    EmittedIff(us, b, start, end', x, total, cash);
    Completed(ts, a, start, end);
    DatesInRange(Prepare(ts, a, start, end).value, start, end, x);
    PreparedOrder(Prepare(ts, a, start, end).value, start, end);
    RunThroughOk(Prepare(ts, a, start, end).value.ordered, x, LastDate(Prepare(ts, a, start, end).value));
    SameValue(ts, us, a, b, start, end, end', d, x);
  }

  lemma PreparedOrder(inputs: Inputs, start: Date, end: Date)
    requires Prepared(inputs, start, end)
    ensures InLedgerOrder(inputs.ordered)
  {}

  lemma SameFlow(ordered: seq<Transaction>, ordered': seq<Transaction>, points: seq<Point>)
    requires forall i :: 0 <= i < |points| ==> BookOn(ordered, points[i].date) == BookOn(ordered', points[i].date)
    ensures FlowReported(ordered, points) == FlowReported(ordered', points)
  {
    hide BookOn;
  }

  /** The points after one more date, from its value and book and the flow reported before. */
  function Extended(earlier: seq<Point>, d: Date, value: Option<real>, b: Book, reported: real): seq<Point> {
    if value.None? then earlier else earlier + [Point(d, value.value, b.cash, b.flow - reported)]
  }

  lemma PointsLast(ordered: seq<Transaction>, prices: PriceTable, dates: seq<Date>)
    requires dates != []
    ensures var earlier, d := PointsOn(ordered, prices, dates[..|dates| - 1]), dates[|dates| - 1];
            PointsOn(ordered, prices, dates)
            == Extended(earlier, d, ValueOn(ordered, prices, d), BookOn(ordered, d), FlowReported(ordered, earlier))
  {
    hide ValueOn, BookOn, FlowReported;
  }

  lemma {:induction false} PointsCongruent(ordered: seq<Transaction>, ordered': seq<Transaction>, prices: PriceTable, prices': PriceTable,
                                           dates: seq<Date>)
    requires forall x :: x in dates ==> ValueOn(ordered, prices, x) == ValueOn(ordered', prices', x)
    requires forall x :: x in dates ==> BookOn(ordered, x) == BookOn(ordered', x)
    ensures PointsOn(ordered, prices, dates) == PointsOn(ordered', prices', dates)
  {
    hide ValueOn, BookOn, FlowReported, Extended;
    if dates != [] {
      var init := dates[..|dates| - 1];
      PointsLast(ordered, prices, dates);
      PointsLast(ordered', prices', dates);
      hide PointsOn;
      assert dates[|dates| - 1] in dates;
      assert forall x :: x in init ==> x in dates;
      PointsCongruent(ordered, ordered', prices, prices', init);
      PointDatesIn(ordered, prices, init);
      SameFlow(ordered, ordered', PointsOn(ordered, prices, init));
    }
  }

  /** Later dates only append points, and those points carry later dates. */
  lemma {:induction false} PointsExtend(ordered: seq<Transaction>, prices: PriceTable, lo: seq<Date>, hi: seq<Date>)
    ensures var earlier, all := PointsOn(ordered, prices, lo), PointsOn(ordered, prices, lo + hi);
            && |earlier| <= |all| && all[..|earlier|] == earlier
            && forall i :: |earlier| <= i < |all| ==> all[i].date in hi
  {
    hide ValueOn, BookOn, FlowReported;
    if hi == [] {
      assert lo + hi == lo;
    } else {
      var init := hi[..|hi| - 1];
      assert (lo + hi)[..|lo + hi| - 1] == lo + init;
      PointsExtend(ordered, prices, lo, init);
      assert hi[|hi| - 1] in hi;
    }
  }

  lemma {:induction false} ReturnsPrefix(points: seq<Point>, k: nat)
    requires k <= |points| && Returns(points).Ok?
    ensures Returns(points[..k]).Ok? && Returns(points[..k]).value <= Returns(points).value
  {
    if k < |points| && |points| > 1 {
      assert points[..|points| - 1][..k] == points[..k];
      ReturnsPrefix(points[..|points| - 1], k);
    } else {
      assert |points| <= 1 || points[..k] == points;
    }
  }

  lemma SameDatesUpTo(p: PriceTable, q: PriceTable, d: Date)
    requires p.Keys == q.Keys && forall s :: s in p ==> Clip(p[s], d) == Clip(q[s], d)
    ensures (set x | x in ObservedDates(p) && x <= d) == (set x | x in ObservedDates(q) && x <= d)
  {
    DatesIncluded(p, q, d);
    DatesIncluded(q, p, d);
  }

  lemma DatesIncluded(p: PriceTable, q: PriceTable, d: Date)
    requires p.Keys == q.Keys && forall s :: s in p ==> Clip(p[s], d) == Clip(q[s], d)
    ensures forall x :: x in ObservedDates(p) && x <= d ==> x in ObservedDates(q)
  {
    forall x | x in ObservedDates(p) && x <= d ensures x in ObservedDates(q) {
      var s :| s in p && x in p[s];
      assert x in Clip(p[s], d);
      assert x in Clip(q[s], d);
    }
  }

  /**
   * One ledger and one range, two price inputs that agree up to `d`: the points dated up to `d`
   * are identical, in value, cash and flow, and so are the returns between them.
   */
  lemma NoLookAheadAcrossPrices(ts: seq<Transaction>, a: PriceInput, b: PriceInput, start: Date, end: Date, d: Date)
    returns (k: nat)
    requires Valuate(ts, a, start, end).Ok? && Valuate(ts, b, start, end).Ok?
    requires PricesAgree(a, b, d) && d <= end
    ensures var v, w := Valuate(ts, a, start, end).value, Valuate(ts, b, start, end).value;
            && k <= |v.points| && k <= |w.points| && v.points[..k] == w.points[..k]
            && (forall i :: 0 <= i < k ==> v.points[i].date <= d)
            && (forall i :: k <= i < |v.points| ==> v.points[i].date > d)
            && (forall i :: k <= i < |w.points| ==> w.points[i].date > d)
            && (k > 0 ==> |v.periodReturns| >= k - 1 && |w.periodReturns| >= k - 1
                          && v.periodReturns[..k - 1] == w.periodReturns[..k - 1])
  {
    hide Valuate, Prepare, PricesAgree, Run, Through, LatestPrices, WeightsOf, ValueOn, BookOn, PointsOn, Returns, RequiredPriced, Prepared, MarketDates;
    Completed(ts, a, start, end);
    Completed(ts, b, start, end);
    var p, q := Prepare(ts, a, start, end).value, Prepare(ts, b, start, end).value;
    var lo, hi, hi' := CommonDates(ts, a, b, start, end, d);
    forall x | x in lo ensures ValueOn(p.ordered, p.prices, x) == ValueOn(p.ordered, q.prices, x) {
      assert x in p.dates;
      DatesInRange(p, start, end, x);
      PreparedOrder(p, start, end);
      RunThroughOk(p.ordered, x, LastDate(p));
      SameValue(ts, ts, a, b, start, end, end, d, x);
    }
    PointsCongruent(p.ordered, p.ordered, p.prices, q.prices, lo);
    PointsExtend(p.ordered, p.prices, lo, hi);
    PointsExtend(p.ordered, q.prices, lo, hi');
    var common := PointsOn(p.ordered, p.prices, lo);
    k := |common|;
    PointDatesIn(p.ordered, p.prices, lo);
    var v, w := Valuate(ts, a, start, end).value, Valuate(ts, b, start, end).value;
    assert v.points == PointsOn(p.ordered, p.prices, lo + hi);
    assert w.points == PointsOn(p.ordered, q.prices, lo + hi');
    ReturnsPrefix(v.points, k);
    ReturnsPrefix(w.points, k);
    if k > 0 {
      ReturnsLength(common);
    }
  }

  lemma {:induction false} PointDatesIn(ordered: seq<Transaction>, prices: PriceTable, dates: seq<Date>)
    ensures forall i :: 0 <= i < |PointsOn(ordered, prices, dates)| ==> PointsOn(ordered, prices, dates)[i].date in dates
  {
    hide ValueOn, BookOn, FlowReported;
    if dates != [] {
      PointDatesIn(ordered, prices, dates[..|dates| - 1]);
      assert dates[|dates| - 1] in dates;
    }
  }

  /** Both runs visit the same dates up to `d`. */
  lemma CommonDates(ts: seq<Transaction>, a: PriceInput, b: PriceInput, start: Date, end: Date, d: Date)
    returns (lo: seq<Date>, hi: seq<Date>, hi': seq<Date>)
    requires Prepare(ts, a, start, end).Ok? && Prepare(ts, b, start, end).Ok? && PricesAgree(a, b, d) && d <= end
    ensures Prepare(ts, a, start, end).value.dates == lo + hi && Prepare(ts, b, start, end).value.dates == lo + hi'
    ensures Prepare(ts, a, start, end).value.ordered == Prepare(ts, b, start, end).value.ordered
    ensures forall x :: x in lo ==> x <= d
    ensures forall x :: x in hi || x in hi' ==> x > d
  {
    hide Prepare, PricesAgree, Through, PositionsAfter, TradedFrom, Nonzero, LedgerSort, Clip, ObservedDates;
    PrepareFacts(ts, a, start, end);
    PrepareFacts(ts, b, start, end);
    var p, q := Prepare(ts, a, start, end).value, Prepare(ts, b, start, end).value;
    forall s | s in p.prices ensures Clip(p.prices[s], d) == Clip(q.prices[s], d) {
      SharedSeries(ts, ts, a, b, start, end, end, d, s);
    }
    SameDatesUpTo(p.prices, q.prices, d);
    SortedIntsSplit(ObservedDates(p.prices), d);
    SortedIntsSplit(ObservedDates(q.prices), d);
    lo := SortedInts(set x | x in ObservedDates(p.prices) && x <= d);
    hi := SortedInts(set x | x in ObservedDates(p.prices) && x > d);
    hi' := SortedInts(set x | x in ObservedDates(q.prices) && x > d);
  }

  predicate DateOnOrBefore(x: Date, d: Date) {
    x <= d
  }

  predicate PointOnOrBefore(p: Point, d: Date) {
    p.date <= d
  }

  predicate HasValue(ordered: seq<Transaction>, prices: PriceTable, x: Date) {
    ValueOn(ordered, prices, x).Some?
  }

  predicate Earlier(a: Date, b: Date) {
    a < b
  }

  function DatesUpTo(dates: seq<Date>, d: Date): seq<Date> {
    Filter(dates, (x: Date) => DateOnOrBefore(x, d))
  }

  function Valued(ordered: seq<Transaction>, prices: PriceTable, dates: seq<Date>): seq<Date> {
    Filter(dates, (x: Date) => HasValue(ordered, prices, x))
  }

  /** The points reported for dates up to `d`. */
  function PointsUpTo(points: seq<Point>, d: Date): seq<Point> {
    Filter(points, (p: Point) => PointOnOrBefore(p, d))
  }

  /** The returns between those points. */
  function ReturnsUpTo(v: PortfolioValuation, d: Date): seq<real> {
    var k := |PointsUpTo(v.points, d)|;
    if 0 < k <= |v.periodReturns| + 1 then v.periodReturns[..k - 1] else []
  }

  /** Two reports agree up to `d` in every point, flows included, and in every return. */
  ghost predicate SameUpTo(v: PortfolioValuation, w: PortfolioValuation, d: Date) {
    PointsUpTo(v.points, d) == PointsUpTo(w.points, d) && ReturnsUpTo(v, d) == ReturnsUpTo(w, d)
  }

  /** A date up to `d` that the first run visits and the second does not has no value. */
  ghost predicate NothingExtra(p: Inputs, q: Inputs, d: Date) {
    forall x :: x in p.dates && x <= d && x !in q.dates ==> ValueOn(p.ordered, p.prices, x).None?
  }

  /** Dates without a value leave no trace in the points. */
  lemma {:induction false} PointsOfValued(ordered: seq<Transaction>, prices: PriceTable, dates: seq<Date>)
    ensures PointsOn(ordered, prices, Valued(ordered, prices, dates)) == PointsOn(ordered, prices, dates)
  {
    hide ValueOn, BookOn, FlowReported;
    if dates != [] {
      var init, last := dates[..|dates| - 1], dates[|dates| - 1];
      PointsOfValued(ordered, prices, init);
      if HasValue(ordered, prices, last) {
        var valued := Valued(ordered, prices, init);
        assert (valued + [last])[..|valued|] == valued;
      }
    }
  }

  lemma CutAt(dates: seq<Date>, d: Date) returns (n: nat)
    requires AscendingDates(dates)
    ensures n <= |dates| && (forall i :: 0 <= i < n ==> dates[i] <= d) && (forall i :: n <= i < |dates| ==> dates[i] > d)
    ensures DatesUpTo(dates, d) == dates[..n]
  {
    n := 0;
    while n < |dates| && dates[n] <= d
      invariant n <= |dates| && forall i :: 0 <= i < n ==> dates[i] <= d
    {
      n := n + 1;
    }
    FilterPrefix(dates, (x: Date) => DateOnOrBefore(x, d), n);
  }

  /** The points up to `d` are the points on the dates up to `d`, and come first. */
  lemma PointsUpToAre(inputs: Inputs, d: Date)
    requires AscendingDates(inputs.dates)
    ensures PointsUpTo(PointsOf(inputs), d) == PointsOn(inputs.ordered, inputs.prices, DatesUpTo(inputs.dates, d))
    ensures PointsUpTo(PointsOf(inputs), d) <= PointsOf(inputs)
  {
    hide PointsOn;
    var n := CutAt(inputs.dates, d);
    var lo, hi := inputs.dates[..n], inputs.dates[n..];
    assert lo + hi == inputs.dates;
    PointsExtend(inputs.ordered, inputs.prices, lo, hi);
    PointDatesIn(inputs.ordered, inputs.prices, lo);
    var earlier := PointsOn(inputs.ordered, inputs.prices, lo);
    FilterPrefix(PointsOf(inputs), (p: Point) => PointOnOrBefore(p, d), |earlier|);
  }

  lemma EarlierIsAscending(xs: seq<Date>)
    requires Sorted(xs, Earlier)
    ensures TotalOrder(IntLe) && Ascending(xs, IntLe)
  {}

  lemma AscendingDatesUnique(xs: seq<Date>, ys: seq<Date>)
    requires Sorted(xs, Earlier) && Sorted(ys, Earlier) && forall x :: x in xs <==> x in ys
    ensures xs == ys
  {
    EarlierIsAscending(xs);
    EarlierIsAscending(ys);
    forall x ensures x in xs <==> x in ys {}
    AscendingUnique(xs, ys, IntLe);
  }

  /** Dates up to `d` that have a value, in order. */
  lemma ValuedUpTo(inputs: Inputs, d: Date)
    requires AscendingDates(inputs.dates)
    ensures var valued := Valued(inputs.ordered, inputs.prices, DatesUpTo(inputs.dates, d));
            && Sorted(valued, Earlier)
            && forall x :: x in valued <==> x in inputs.dates && x <= d && ValueOn(inputs.ordered, inputs.prices, x).Some?
  {
    hide ValueOn, Filter;
    var upTo := DatesUpTo(inputs.dates, d);
    FilterSorted(inputs.dates, (x: Date) => DateOnOrBefore(x, d), Earlier);
    FilterSorted(upTo, (x: Date) => HasValue(inputs.ordered, inputs.prices, x), Earlier);
  }

  /** What the two runs see on the dates that either of them visits up to `d`. */
  ghost predicate SeesAlike(p: Inputs, q: Inputs, d: Date) {
    forall x :: x <= d && (x in p.dates || x in q.dates) ==>
      ValueOn(p.ordered, p.prices, x) == ValueOn(q.ordered, q.prices, x) && BookOn(p.ordered, x) == BookOn(q.ordered, x)
  }

  lemma SamePointsUpTo(p: Inputs, q: Inputs, d: Date)
    requires AscendingDates(p.dates) && AscendingDates(q.dates) && SeesAlike(p, q, d)
    requires NothingExtra(p, q, d) && NothingExtra(q, p, d)
    ensures PointsUpTo(PointsOf(p), d) == PointsUpTo(PointsOf(q), d)
  {
    hide ValueOn, BookOn, PointsOn, PointsOf, PointsUpTo, DatesUpTo, Valued;
    var lo, lo' := DatesUpTo(p.dates, d), DatesUpTo(q.dates, d);
    var valued, valued' := Valued(p.ordered, p.prices, lo), Valued(q.ordered, q.prices, lo');
    ValuedUpTo(p, d);
    ValuedUpTo(q, d);
    AscendingDatesUnique(valued, valued');
    PointsUpToAre(p, d);
    PointsUpToAre(q, d);
    PointsOfValued(p.ordered, p.prices, lo);
    PointsOfValued(q.ordered, q.prices, lo');
    PointsCongruent(p.ordered, q.ordered, p.prices, q.prices, valued);
  }

  /** A valued date visited by only one run is a point that the other lacks. */
  lemma ExtraPoint(p: Inputs, q: Inputs, d: Date)
    requires AscendingDates(p.dates) && AscendingDates(q.dates)
    requires PointsUpTo(PointsOf(p), d) == PointsUpTo(PointsOf(q), d)
    ensures NothingExtra(p, q, d)
  {
    hide ValueOn, PointsOn;
    forall x | x in p.dates && x <= d && ValueOn(p.ordered, p.prices, x).Some? ensures x in q.dates {
      var i := PointsComplete(p.ordered, p.prices, p.dates, x);
      var point := PointsOf(p)[i];
      assert point in PointsUpTo(PointsOf(p), d);
      assert point in PointsOf(q);
      PointsFacts(q.ordered, q.prices, q.dates);
    }
  }

  /** Equal points up to `d` have equal returns between them. */
  lemma SameReturnsUpTo(v: PortfolioValuation, w: PortfolioValuation, d: Date)
    requires PointsUpTo(v.points, d) == PointsUpTo(w.points, d)
    requires PointsUpTo(v.points, d) <= v.points && PointsUpTo(w.points, d) <= w.points
    requires Returns(v.points) == Ok(v.periodReturns) && Returns(w.points) == Ok(w.periodReturns)
    ensures ReturnsUpTo(v, d) == ReturnsUpTo(w, d)
  {
    hide Returns, PointsUpTo;
    var common := PointsUpTo(v.points, d);
    var k := |common|;
    ReturnsPrefix(v.points, k);
    ReturnsPrefix(w.points, k);
    assert v.points[..k] == common == w.points[..k];
    if k > 0 {
      ReturnsLength(common);
    }
  }

  lemma AgreeSymmetric(ts: seq<Transaction>, us: seq<Transaction>, a: PriceInput, b: PriceInput, d: Date)
    requires LedgersAgree(ts, us, d) && PricesAgree(a, b, d)
    ensures LedgersAgree(us, ts, d) && PricesAgree(b, a, d)
  {
    hide Known;
  }

  lemma RunsSeeAlike(ts: seq<Transaction>, us: seq<Transaction>, a: PriceInput, b: PriceInput,
                     start: Date, end: Date, end': Date, d: Date)
    requires Valuate(ts, a, start, end).Ok? && Valuate(us, b, start, end').Ok?
    requires LedgersAgree(ts, us, d) && PricesAgree(a, b, d) && d <= end && d <= end'
    ensures SeesAlike(Prepare(ts, a, start, end).value, Prepare(us, b, start, end').value, d)
  {
    hide Valuate, Prepare, ValueOn, BookOn, LedgersAgree, PricesAgree, Prepared, RequiredPriced, PointsOf, WeightsOf, Returns, Run, Through;
    Completed(ts, a, start, end);
    Completed(us, b, start, end');
    var p, q := Prepare(ts, a, start, end).value, Prepare(us, b, start, end').value;
    PreparedOrder(p, start, end);
    PreparedOrder(q, start, end');
    AgreeSymmetric(ts, us, a, b, d);
    forall x | x <= d && (x in p.dates || x in q.dates)
      ensures ValueOn(p.ordered, p.prices, x) == ValueOn(q.ordered, q.prices, x) && BookOn(p.ordered, x) == BookOn(q.ordered, x)
    {
      if x in p.dates {
        DatesInRange(p, start, end, x);
        RunThroughOk(p.ordered, x, LastDate(p));
        SameValue(ts, us, a, b, start, end, end', d, x);
      } else {
        DatesInRange(q, start, end', x);
        RunThroughOk(q.ordered, x, LastDate(q));
        SameValue(us, ts, b, a, start, end', end, d, x);
      }
    }
  }

  /**
   * Two completed runs whose ledgers and prices agree up to `d` report the same points up to `d`,
   * flows included, and the same returns between them, exactly when every date up to `d` that only
   * one of them visits has no value.
   */
  lemma SameUpToIff(ts: seq<Transaction>, us: seq<Transaction>, a: PriceInput, b: PriceInput,
                    start: Date, end: Date, end': Date, d: Date)
    requires Valuate(ts, a, start, end).Ok? && Valuate(us, b, start, end').Ok?
    requires LedgersAgree(ts, us, d) && PricesAgree(a, b, d) && d <= end && d <= end'
    ensures var p, q := Prepare(ts, a, start, end).value, Prepare(us, b, start, end').value;
            SameUpTo(Valuate(ts, a, start, end).value, Valuate(us, b, start, end').value, d)
            <==> NothingExtra(p, q, d) && NothingExtra(q, p, d)
  {
    hide Valuate, Prepare, SeesAlike, NothingExtra, LedgersAgree, PricesAgree, RequiredPriced, PointsOf, PointsUpTo, WeightsOf, Returns,
      Run, Through, ReturnsUpTo, LatestPrices, AssetValues, Nonzero;
    Completed(ts, a, start, end);
    Completed(us, b, start, end');
    var p, q := Prepare(ts, a, start, end).value, Prepare(us, b, start, end').value;
    var v, w := Valuate(ts, a, start, end).value, Valuate(us, b, start, end').value;
    if NothingExtra(p, q, d) && NothingExtra(q, p, d) {
      RunsSeeAlike(ts, us, a, b, start, end, end', d);
      SamePointsUpTo(p, q, d);
      PointsUpToAre(p, d);
      PointsUpToAre(q, d);
      SameReturnsUpTo(v, w, d);
    }
    if SameUpTo(v, w, d) {
      ExtraPoint(p, q, d);
      ExtraPoint(q, p, d);
    }
  }
}
