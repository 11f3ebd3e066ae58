/**
 * Redenomination: multiplying every market price, unit price, cash amount and fee by k > 0
 * multiplies values, cash and flows by k and changes no return, no weight and no failure.
 */
module Redenomination {
  import opened Wrappers
  import opened Sorting
  import opened Text
  import opened Transactions
  import opened Holdings
  import opened Replay
  import opened Valuation

  function Times(k: real, x: real): real {
    k * x
  }

  lemma TimesLinear(k: real, a: real, b: real)
    ensures Times(k, a) + Times(k, b) == Times(k, a + b)
    ensures Times(k, a) - Times(k, b) == Times(k, a - b)
    ensures Times(k, 0.0) == 0.0
    ensures -Times(k, a) == Times(k, -a)
  {}

  lemma TimesSign(k: real, x: real)
    requires k > 0.0
    ensures Times(k, x) > 0.0 <==> x > 0.0
    ensures Times(k, x) < 0.0 <==> x < 0.0
  {}

  lemma TimesOrder(k: real, a: real, b: real)
    requires k > 0.0
    ensures Times(k, a) > Times(k, b) <==> a > b
  {
    TimesLinear(k, a, b);
    TimesSign(k, a - b);
  }

  lemma TimesProduct(k: real, q: real, p: real)
    ensures q * Times(k, p) == Times(k, q * p)
  {}

  lemma TimesQuotient(k: real, a: real, b: real)
    requires k > 0.0 && b > 0.0
    ensures Times(k, b) > 0.0 && Times(k, a) / Times(k, b) == a / b
  {
    TimesSign(k, b);
    assert (a / b) * Times(k, b) == Times(k, a) by {
      assert (a / b) * b == a;
    }
  }

  function ScaleDecimal(k: real, d: Decimal): Decimal {
    match d
    case Finite(v) => Finite(Times(k, v))
    case NonFinite => NonFinite
  }

  function ScaleOption(k: real, d: Option<Decimal>): Option<Decimal> {
    if d.None? then None else Some(ScaleDecimal(k, d.value))
  }

  function ScaleRow(k: real, t: Transaction): Transaction {
    t.(unitPrice := ScaleOption(k, t.unitPrice), cashAmount := ScaleOption(k, t.cashAmount), fees := ScaleDecimal(k, t.fees))
  }

  function ScaleLedger(k: real, ts: seq<Transaction>): (us: seq<Transaction>)
    ensures |us| == |ts| && forall i :: 0 <= i < |ts| ==> us[i] == ScaleRow(k, ts[i])
  {
    Map(ts, (t: Transaction) => ScaleRow(k, t))
  }

  function ScaleBar(k: real, bar: PriceBar): PriceBar {
    bar.(adjustedClose := ScaleDecimal(k, bar.adjustedClose))
  }

  function ScaleBars(k: real, bars: seq<PriceBar>): (r: seq<PriceBar>)
    ensures |r| == |bars| && forall i :: 0 <= i < |bars| ==> r[i] == ScaleBar(k, bars[i])
  {
    seq(|bars|, i requires 0 <= i < |bars| => ScaleBar(k, bars[i]))
  }

  function ScaleInput(k: real, input: PriceInput): (r: PriceInput)
    ensures |r| == |input| && forall i :: 0 <= i < |input| ==> r[i] == (input[i].0, ScaleBars(k, input[i].1))
  {
    seq(|input|, i requires 0 <= i < |input| => (input[i].0, ScaleBars(k, input[i].1)))
  }

  function ScaleBook(k: real, b: Book): Book {
    Book(b.positions, Times(k, b.cash), Times(k, b.flow))
  }

  function ScaleMap<K>(k: real, m: map<K, real>): map<K, real> {
    map x | x in m :: Times(k, m[x])
  }

  function ScaleTable(k: real, prices: PriceTable): PriceTable {
    map s | s in prices :: ScaleMap(k, prices[s])
  }

  function ScalePoint(k: real, p: Point): Point {
    Point(p.date, Times(k, p.totalValue), Times(k, p.cashBalance), Times(k, p.netExternalFlow))
  }

  function ScalePoints(k: real, ps: seq<Point>): (r: seq<Point>)
    ensures |r| == |ps| && forall i :: 0 <= i < |ps| ==> r[i] == ScalePoint(k, ps[i])
  {
    seq(|ps|, i requires 0 <= i < |ps| => ScalePoint(k, ps[i]))
  }

  function ScaleWeights(k: real, ws: seq<Weight>): (r: seq<Weight>)
    ensures |r| == |ws| && forall i :: 0 <= i < |ws| ==> r[i] == ws[i].(marketValue := Times(k, ws[i].marketValue))
  {
    seq(|ws|, i requires 0 <= i < |ws| => ws[i].(marketValue := Times(k, ws[i].marketValue)))
  }

  /** The valuation in the new unit: returns and weights as they were. */
  function ScaleValuation(k: real, v: PortfolioValuation): PortfolioValuation {
    PortfolioValuation(ScalePoints(k, v.points), v.periodReturns, Times(k, v.portfolioValue), Times(k, v.cashBalance),
                       ScaleWeights(k, v.weights))
  }

  lemma ScaleRowFields(k: real, t: Transaction)
    ensures Qty(ScaleRow(k, t)) == Qty(t) && Sym(ScaleRow(k, t)) == Sym(t) && ScaleRow(k, t).kind == t.kind
    ensures Price(ScaleRow(k, t)) == Times(k, Price(t))
    ensures Amount(ScaleRow(k, t)) == Times(k, Amount(t))
    ensures Fee(ScaleRow(k, t)) == Times(k, Fee(t))
    ensures DateOf(ScaleRow(k, t)) == DateOf(t)
  {}

  lemma ScaleValidate(k: real, t: Transaction)
    requires k > 0.0
    ensures Validate(ScaleRow(k, t)) == Validate(t)
  {
    hide Times, Strip, Normalize;
    TimesSign(k, Number(t.unitPrice));
    TimesSign(k, Number(t.cashAmount));
    TimesSign(k, Number(Some(t.fees)));
  }

  lemma ScaleMoney(k: real, t: Transaction)
    ensures Cost(ScaleRow(k, t)) == Times(k, Cost(t)) && Proceeds(ScaleRow(k, t)) == Times(k, Proceeds(t))
  {
    hide ScaleRow, Number;
    ScaleRowFields(k, t);
    calc {
      Proceeds(ScaleRow(k, t));
      Qty(t) * Times(k, Price(t));
      { TimesProduct(k, Qty(t), Price(t)); }
      Times(k, Proceeds(t));
    }
    TimesLinear(k, Proceeds(t), Fee(t));
  }

  lemma ScaleShortfall(k: real, cash: real, t: Transaction)
    requires k > 0.0
    ensures Shortfall(Times(k, cash), ScaleRow(k, t)) == Times(k, Shortfall(cash, t))
  {
    hide Times, ScaleRow, Cost;
    ScaleRowFields(k, t);
    ScaleMoney(k, t);
    TimesOrder(k, Cost(t), cash);
    TimesLinear(k, Cost(t), cash);
  }

  lemma ScaleCashEffect(k: real, cash: real, t: Transaction)
    requires k > 0.0
    ensures CashEffect(Times(k, cash), ScaleRow(k, t))
         == if CashEffect(cash, t).Err? then CashEffect(cash, t)
            else Ok((Times(k, CashEffect(cash, t).value.0), Times(k, CashEffect(cash, t).value.1)))
  {
    hide Times, ScaleRow, Cost, Proceeds, Shortfall, Amount, Fee;
    ScaleRowFields(k, t);
    ScaleMoney(k, t);
    match t.kind
    case DEPOSIT =>
      TimesLinear(k, Amount(t), Fee(t));
      TimesLinear(k, cash, Amount(t) - Fee(t));
    case WITHDRAWAL =>
      TimesLinear(k, Amount(t), Fee(t));
      TimesOrder(k, Amount(t) + Fee(t), cash);
      TimesLinear(k, cash, Amount(t) + Fee(t));
    case BUY =>
      ScaleShortfall(k, cash, t);
      TimesLinear(k, cash, Shortfall(cash, t));
      TimesLinear(k, cash + Shortfall(cash, t), Cost(t));
    case SELL =>
      TimesLinear(k, Proceeds(t), Fee(t));
      TimesLinear(k, cash, Proceeds(t) - Fee(t));
      TimesLinear(k, cash, 0.0);
  }

  function ScaleRun(k: real, r: Result<Book, ValuationError>): Result<Book, ValuationError> {
    if r.Err? then r else Ok(ScaleBook(k, r.value))
  }

  lemma ScalePosition(k: real, q: Quantities, t: Transaction)
    ensures ApplyPosition(q, ScaleRow(k, t)) == ApplyPosition(q, t)
  {
    ScaleRowFields(k, t);
  }

  lemma ScaleApply(k: real, b: Book, t: Transaction)
    requires k > 0.0
    ensures Apply(ScaleBook(k, b), ScaleRow(k, t)) == ScaleRun(k, Apply(b, t))
  {
    hide Times, ScaleRow, CashEffect, ApplyPosition, Validate;
    ScaleValidate(k, t);
    ScalePosition(k, b.positions, t);
    ScaleCashEffect(k, b.cash, t);
    if CashEffect(b.cash, t).Ok? {
      TimesSign(k, CashEffect(b.cash, t).value.0);
      TimesLinear(k, b.flow, CashEffect(b.cash, t).value.1);
    }
  }

  lemma {:induction false} ScaleRunLedger(k: real, ts: seq<Transaction>)
    requires k > 0.0
    ensures Run(ScaleLedger(k, ts)) == ScaleRun(k, Run(ts))
  {
    hide Times, ScaleRow, Apply;
    if ts == [] {
      TimesLinear(k, 0.0, 0.0);
    } else {
      var init, t := ts[..|ts| - 1], ts[|ts| - 1];
      assert ScaleLedger(k, ts)[..|ts| - 1] == ScaleLedger(k, init);
      ScaleRunLedger(k, init);
      if Run(init).Ok? {
        ScaleApply(k, Run(init).value, t);
      }
    }
  }

  lemma {:induction false} ScalePositions(k: real, ts: seq<Transaction>)
    ensures PositionsAfter(ScaleLedger(k, ts)) == PositionsAfter(ts)
  {
    hide ScaleRow, ApplyPosition;
    if ts != [] {
      var init := ts[..|ts| - 1];
      assert ScaleLedger(k, ts)[..|ts| - 1] == ScaleLedger(k, init);
      ScalePositions(k, init);
      if PositionsAfter(init).Ok? {
        ScalePosition(k, PositionsAfter(init).value, ts[|ts| - 1]);
      }
    }
  }

  lemma {:induction false} ScaleFirstInvalid(k: real, ts: seq<Transaction>)
    requires k > 0.0
    ensures FirstInvalid(ScaleLedger(k, ts)) == FirstInvalid(ts)
  {
    hide ScaleRow, Validate;
    if ts != [] {
      var init := ts[..|ts| - 1];
      assert ScaleLedger(k, ts)[..|ts| - 1] == ScaleLedger(k, init);
      ScaleFirstInvalid(k, init);
      ScaleValidate(k, ts[|ts| - 1]);
    }
  }

  lemma ScaleThrough(k: real, ts: seq<Transaction>, d: Date)
    ensures Through(ScaleLedger(k, ts), d) == ScaleLedger(k, Through(ts, d))
  {
    FilterMap(ts, (t: Transaction) => ScaleRow(k, t), (t: Transaction) => OnOrBefore(t, d), (t: Transaction) => OnOrBefore(t, d));
  }

  lemma ScaleSort(k: real, ts: seq<Transaction>)
    ensures LedgerSort(ScaleLedger(k, ts)) == ScaleLedger(k, LedgerSort(ts))
  {
    SortMap(ts, (t: Transaction) => ScaleRow(k, t), LedgerLe, LedgerLe);
  }

  lemma ScaleTraded(k: real, ts: seq<Transaction>, start: Date)
    ensures TradedFrom(ScaleLedger(k, ts), start) == TradedFrom(ts, start)
  {
    var us := ScaleLedger(k, ts);
    forall s | s in TradedFrom(us, start) ensures s in TradedFrom(ts, start) {
      var i :| 0 <= i < |us| && DateOf(us[i]) >= start && us[i].symbol.Some? && us[i].symbol.value == s;
      ScaleRowFields(k, ts[i]);
      assert ts[i] in ts;
    }
    forall s | s in TradedFrom(ts, start) ensures s in TradedFrom(us, start) {
      var i :| 0 <= i < |ts| && DateOf(ts[i]) >= start && ts[i].symbol.Some? && ts[i].symbol.value == s;
      ScaleRowFields(k, ts[i]);
      assert us[i] in us;
    }
  }

  lemma ScaleOrdered(k: real, ts: seq<Transaction>, end: Date)
    requires k > 0.0
    ensures OrderedTransactions(ScaleLedger(k, ts), end)
         == if OrderedTransactions(ts, end).Err? then OrderedTransactions(ts, end)
            else Ok(ScaleLedger(k, OrderedTransactions(ts, end).value))
  {
    hide ScaleLedger, FirstInvalid, LedgerSort, Through;
    ScaleFirstInvalid(k, ts);
    ScaleThrough(k, ts, end);
    ScaleSort(k, Through(ts, end));
  }

  lemma ScaleRequired(k: real, ts: seq<Transaction>, start: Date, end: Date)
    requires k > 0.0
    ensures RequiredSymbols(ScaleLedger(k, ts), start, end) == RequiredSymbols(ts, start, end)
  {
    hide ScaleLedger, OrderedTransactions, Through, PositionsAfter, TradedFrom;
    ScaleOrdered(k, ts, end);
    if OrderedTransactions(ts, end).Ok? {
      var ordered := OrderedTransactions(ts, end).value;
      ScaleThrough(k, ordered, start - 1);
      ScalePositions(k, Through(ordered, start - 1));
      ScaleTraded(k, ordered, start);
    }
  }

  lemma {:induction false} ScaleBarsFor(k: real, input: PriceInput, s: string)
    ensures BarsFor(ScaleInput(k, input), s) == ScaleBars(k, BarsFor(input, s))
  {
    if input != [] {
      assert ScaleInput(k, input)[..|input| - 1] == ScaleInput(k, input[..|input| - 1]);
      ScaleBarsFor(k, input[..|input| - 1], s);
    }
  }

  lemma ScaleAddBar(k: real, series: Series, s: string, bar: PriceBar, start: Date, end: Date)
    requires k > 0.0
    ensures AddBar(ScaleMap(k, series), s, ScaleBar(k, bar), start, end)
         == if AddBar(series, s, bar, start, end).Err? then AddBar(series, s, bar, start, end)
            else Ok(ScaleMap(k, AddBar(series, s, bar, start, end).value))
  {
    hide Times;
    TimesSign(k, Number(Some(bar.adjustedClose)));
    if bar.adjustedClose.Finite? {
      var price := bar.adjustedClose.value;
      assert ScaleMap(k, series[bar.date := price]) == ScaleMap(k, series)[bar.date := Times(k, price)];
    }
  }

  lemma {:induction false} ScaleSeries(k: real, s: string, bars: seq<PriceBar>, start: Date, end: Date)
    requires k > 0.0
    ensures SeriesOf(s, ScaleBars(k, bars), start, end)
         == if SeriesOf(s, bars, start, end).Err? then SeriesOf(s, bars, start, end)
            else Ok(ScaleMap(k, SeriesOf(s, bars, start, end).value))
  {
    hide AddBar, ScaleBar, Times;
    if bars == [] {
      ScaleEmpty(k, map[]);
    } else {
      var init := bars[..|bars| - 1];
      assert ScaleBars(k, bars)[..|bars| - 1] == ScaleBars(k, init);
      ScaleSeries(k, s, init, start, end);
      if SeriesOf(s, init, start, end).Ok? {
        ScaleAddBar(k, SeriesOf(s, init, start, end).value, s, bars[|bars| - 1], start, end);
      }
    }
  }

  lemma ScaleEmpty(k: real, series: Series)
    ensures ScaleMap(k, series) == map[] <==> series == map[]
  {
    hide Times;
    assert series.Keys == ScaleMap(k, series).Keys;
    assert series.Keys == {} ==> series == map[];
  }

  lemma {:induction false} ScalePrices(k: real, symbols: seq<string>, input: PriceInput, start: Date, end: Date)
    requires k > 0.0
    ensures ValidatedPrices(symbols, ScaleInput(k, input), start, end)
         == if ValidatedPrices(symbols, input, start, end).Err? then ValidatedPrices(symbols, input, start, end)
            else Ok(ScaleTable(k, ValidatedPrices(symbols, input, start, end).value))
  {
    hide ScaleInput, BarsFor, SeriesOf, ScaleMap;
    if symbols != [] {
      var init, s := symbols[..|symbols| - 1], symbols[|symbols| - 1];
      ScalePrices(k, init, input, start, end);
      ScaleBarsFor(k, input, s);
      ScaleSeries(k, s, BarsFor(input, s), start, end);
      if SeriesOf(s, BarsFor(input, s), start, end).Ok? && ValidatedPrices(init, input, start, end).Ok? {
        var series, table := SeriesOf(s, BarsFor(input, s), start, end).value, ValidatedPrices(init, input, start, end).value;
        ScaleEmpty(k, series);
        assert ScaleTable(k, table[s := series]) == ScaleTable(k, table)[s := ScaleMap(k, series)];
      }
    }
  }

  lemma ScaleDates(k: real, prices: PriceTable)
    ensures MarketDates(ScaleTable(k, prices)) == MarketDates(prices)
  {
    assert ObservedDates(ScaleTable(k, prices)) == ObservedDates(prices) by {
      forall d ensures d in ObservedDates(ScaleTable(k, prices)) <==> d in ObservedDates(prices) {
        if d in ObservedDates(prices) {
          var s :| s in prices && d in prices[s];
          assert d in ScaleTable(k, prices)[s];
        }
        if d in ObservedDates(ScaleTable(k, prices)) {
          var s :| s in ScaleTable(k, prices) && d in ScaleTable(k, prices)[s];
          assert d in prices[s];
        }
      }
    }
  }

  lemma ScaleLatestPrice(k: real, series: Series, d: Date)
    ensures LatestPrice(ScaleMap(k, series), d)
         == if LatestPrice(series, d).None? then None else Some(Times(k, LatestPrice(series, d).value))
  {
    hide Times;
    assert (set x | x in ScaleMap(k, series) && x <= d) == (set x | x in series && x <= d);
  }

  lemma ScaleLatest(k: real, prices: PriceTable, d: Date)
    ensures LatestPrices(ScaleTable(k, prices), d) == ScaleMap(k, LatestPrices(prices, d))
  {
    hide Times, LatestPrice, ScaleMap;
    var a, b := LatestPrices(ScaleTable(k, prices), d), LatestPrices(prices, d);
    forall s | s in prices {
      ScaleLatestPrice(k, prices[s], d);
    }
    assert forall s :: s in a <==> s in b;
    ScaleMapIs(k, b, a);
  }

  lemma ScaleMapIs<K>(k: real, m: map<K, real>, n: map<K, real>)
    requires forall x :: x in n <==> x in m
    requires forall x :: x in m ==> n[x] == Times(k, m[x])
    ensures n == ScaleMap(k, m)
  {
    hide Times;
  }

  lemma {:induction false} ScaleSum(k: real, symbols: seq<string>, values: map<string, real>)
    requires forall s :: s in symbols ==> s in values
    ensures SumOver(symbols, ScaleMap(k, values)) == Times(k, SumOver(symbols, values))
  {
    hide Times;
    if symbols == [] {
      TimesLinear(k, 0.0, 0.0);
    } else {
      var init, s := symbols[..|symbols| - 1], symbols[|symbols| - 1];
      assert s in symbols;
      ScaleSum(k, init, values);
      TimesLinear(k, SumOver(init, values), values[s]);
    }
  }

  lemma ScaleTotal(k: real, values: map<string, real>)
    ensures Total(ScaleMap(k, values)) == Times(k, Total(values))
  {
    assert ScaleMap(k, values).Keys == values.Keys;
    ScaleSum(k, SortedTexts(values.Keys), values);
  }

  lemma ScaleAsset(k: real, quantity: real, price: real, worth: real, worth': real)
    requires worth == quantity * price && worth' == quantity * Times(k, price)
    ensures worth' == Times(k, worth)
  {
    TimesProduct(k, quantity, price);
  }

  lemma ScaleAssets(k: real, active: Quantities, latest: map<string, real>)
    requires active.Keys <= latest.Keys
    ensures active.Keys <= ScaleMap(k, latest).Keys
    ensures AssetValues(active, ScaleMap(k, latest)) == ScaleMap(k, AssetValues(active, latest))
  {
    hide Times;
    var a, b := AssetValues(active, ScaleMap(k, latest)), AssetValues(active, latest);
    forall s | s in b ensures a[s] == Times(k, b[s]) {
      ScaleAsset(k, active[s], latest[s], b[s], a[s]);
    }
    ScaleMapIs(k, b, a);
  }

  lemma ScaleKeys(k: real, m: map<string, real>)
    ensures ScaleMap(k, m).Keys == m.Keys
  {}

  lemma ScaleValueOf(k: real, b: Book, latest: map<string, real>)
    requires k > 0.0
    ensures ValueOf(ScaleBook(k, b), ScaleMap(k, latest))
         == if ValueOf(b, latest).None? then None else Some(Times(k, ValueOf(b, latest).value))
  {
    hide Times, ScaleMap, Total, AssetValues, Nonzero;
    var active := Nonzero(b.positions);
    ScaleKeys(k, latest);
    if active.Keys <= latest.Keys {
      ScaleAssets(k, active, latest);
      var values := AssetValues(active, latest);
      ScaleTotal(k, values);
      TimesLinear(k, b.cash, Total(values));
      TimesSign(k, b.cash + Total(values));
    }
  }

  lemma ScaleBookOn(k: real, ordered: seq<Transaction>, d: Date)
    requires k > 0.0
    ensures BookOn(ScaleLedger(k, ordered), d) == ScaleBook(k, BookOn(ordered, d))
  {
    hide ScaleLedger, Through, Run, Times;
    ScaleThrough(k, ordered, d);
    ScaleRunLedger(k, Through(ordered, d));
    TimesLinear(k, 0.0, 0.0);
  }

  lemma ScaleFlowReported(k: real, ordered: seq<Transaction>, points: seq<Point>)
    requires k > 0.0
    ensures FlowReported(ScaleLedger(k, ordered), ScalePoints(k, points)) == Times(k, FlowReported(ordered, points))
  {
    hide ScaleLedger, BookOn, Times;
    TimesLinear(k, 0.0, 0.0);
    if points != [] {
      ScaleBookOn(k, ordered, points[|points| - 1].date);
    }
  }

  lemma {:induction false} ScalePointsOn(k: real, ordered: seq<Transaction>, prices: PriceTable, dates: seq<Date>)
    requires k > 0.0
    ensures PointsOn(ScaleLedger(k, ordered), ScaleTable(k, prices), dates) == ScalePoints(k, PointsOn(ordered, prices, dates))
  {
    hide ScaleLedger, ScaleTable, BookOn, ValueOf, FlowReported, LatestPrices, ScaleMap, Times;
    if dates != [] {
      var init, d := dates[..|dates| - 1], dates[|dates| - 1];
      ScalePointsOn(k, ordered, prices, init);
      ScaleBookOn(k, ordered, d);
      ScaleLatest(k, prices, d);
      var b, latest := BookOn(ordered, d), LatestPrices(prices, d);
      ScaleValueOf(k, b, latest);
      var earlier := PointsOn(ordered, prices, init);
      ScaleFlowReported(k, ordered, earlier);
      TimesLinear(k, b.flow, FlowReported(ordered, earlier));
    }
  }

  lemma {:induction false} ScaleReturns(k: real, points: seq<Point>)
    requires k > 0.0
    ensures Returns(ScalePoints(k, points)) == Returns(points)
  {
    hide Times;
    if |points| > 1 {
      var init := points[..|points| - 1];
      assert ScalePoints(k, points)[..|points| - 1] == ScalePoints(k, init);
      ScaleReturns(k, init);
      var previous, current := points[|points| - 2], points[|points| - 1];
      TimesSign(k, previous.totalValue);
      TimesLinear(k, current.totalValue, current.netExternalFlow);
      TimesSign(k, current.totalValue - current.netExternalFlow);
      if previous.totalValue > 0.0 {
        TimesQuotient(k, current.totalValue - current.netExternalFlow, previous.totalValue);
      }
    }
  }

  lemma ScaleWeightsOf(k: real, values: map<string, real>, total: real)
    requires k > 0.0 && total > 0.0
    ensures Times(k, total) > 0.0
    ensures WeightsOf(ScaleMap(k, values), Times(k, total)) == ScaleWeights(k, WeightsOf(values, total))
  {
    hide Times, ScaleMap;
    TimesSign(k, total);
    ScaleKeys(k, values);
    var symbols := SortedTexts(values.Keys);
    var a, b := WeightsOf(ScaleMap(k, values), Times(k, total)), WeightsOf(values, total);
    forall i | 0 <= i < |symbols| ensures a[i] == b[i].(marketValue := Times(k, b[i].marketValue)) {
      assert symbols[i] in symbols;
      ScaleEntry(k, values, symbols[i]);
      TimesQuotient(k, values[symbols[i]], total);
    }
  }

  lemma ScaleEntry(k: real, values: map<string, real>, s: string)
    requires s in values
    ensures s in ScaleMap(k, values) && ScaleMap(k, values)[s] == Times(k, values[s])
  {
    hide Times;
  }

  function ScaleReport(k: real, r: Result<PortfolioValuation, ValuationError>): Result<PortfolioValuation, ValuationError> {
    if r.Err? then r else Ok(ScaleValuation(k, r.value))
  }

  lemma ScalePointsPositive(k: real, points: seq<Point>)
    requires k > 0.0 && forall i :: 0 <= i < |points| ==> points[i].totalValue > 0.0
    ensures forall i :: 0 <= i < |points| ==> ScalePoints(k, points)[i].totalValue > 0.0
  {
    hide Times;
    forall i | 0 <= i < |points| ensures ScalePoints(k, points)[i].totalValue > 0.0 {
      TimesSign(k, points[i].totalValue);
    }
  }

  lemma ScaleFinish(k: real, points: seq<Point>, b: Book, latest: map<string, real>)
    requires k > 0.0 && forall i :: 0 <= i < |points| ==> points[i].totalValue > 0.0
    ensures forall i :: 0 <= i < |points| ==> ScalePoints(k, points)[i].totalValue > 0.0
    ensures Finish(ScalePoints(k, points), ScaleBook(k, b), ScaleMap(k, latest)) == ScaleReport(k, Finish(points, b, latest))
  {
    hide Times, ScaleMap, AssetValues, Nonzero, Returns, WeightsOf, ScaleWeights;
    ScalePointsPositive(k, points);
    ScaleKeys(k, latest);
    var active := Nonzero(b.positions);
    if points != [] && active.Keys <= latest.Keys {
      ScaleAssets(k, active, latest);
      ScaleWeightsOf(k, AssetValues(active, latest), points[|points| - 1].totalValue);
      ScaleReturns(k, points);
    }
  }

  lemma ScalePrepare(k: real, ts: seq<Transaction>, input: PriceInput, start: Date, end: Date)
    requires k > 0.0
    ensures Prepare(ScaleLedger(k, ts), ScaleInput(k, input), start, end)
         == if Prepare(ts, input, start, end).Err? then Prepare(ts, input, start, end)
            else var p := Prepare(ts, input, start, end).value;
                 Ok(Inputs(p.symbols, ScaleTable(k, p.prices), p.dates, ScaleLedger(k, p.ordered)))
  {
    hide ScaleLedger, ScaleInput, ScaleTable, RequiredSymbols, ValidatedPrices, MarketDates, OrderedTransactions;
    ScaleRequired(k, ts, start, end);
    ScaleOrdered(k, ts, end);
    if RequiredSymbols(ts, start, end).Ok? {
      var symbols := RequiredSymbols(ts, start, end).value;
      ScalePrices(k, symbols, input, start, end);
      if ValidatedPrices(symbols, input, start, end).Ok? {
        ScaleDates(k, ValidatedPrices(symbols, input, start, end).value);
      }
    }
  }

  lemma ScaleInputs(k: real, p: Inputs)
    requires k > 0.0 && p.dates != [] && AscendingDates(p.dates)
    ensures ValuateInputs(Inputs(p.symbols, ScaleTable(k, p.prices), p.dates, ScaleLedger(k, p.ordered)))
         == ScaleReport(k, ValuateInputs(p))
  {
    hide ScaleLedger, ScaleTable, ScaleMap, PointsOn, ScalePoints, Run, Through, LatestPrices, Finish, ScaleBook, ScaleValuation;
    var last := LastDate(p);
    ScaleThrough(k, p.ordered, last);
    ScaleRunLedger(k, Through(p.ordered, last));
    ScaleLatest(k, p.prices, last);
    ScalePointsOn(k, p.ordered, p.prices, p.dates);
    if Run(Through(p.ordered, last)).Ok? {
      ScaleFinish(k, PointsOf(p), Run(Through(p.ordered, last)).value, LatestPrices(p.prices, last));
    }
  }

  /** Redenominating every amount by k > 0 redenominates the valuation, and fails exactly when the original fails. */
  lemma RedenominationInvariance(k: real, ts: seq<Transaction>, input: PriceInput, start: Date, end: Date)
    requires k > 0.0
    ensures Valuate(ScaleLedger(k, ts), ScaleInput(k, input), start, end) == ScaleReport(k, Valuate(ts, input, start, end))
  {
    hide ScaleLedger, ScaleInput, ScaleTable, Prepare, ValuateInputs, ScaleValuation;
    ScalePrepare(k, ts, input, start, end);
    if Prepare(ts, input, start, end).Ok? {
      ScaleInputs(k, Prepare(ts, input, start, end).value);
    }
  }
}
