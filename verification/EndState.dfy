/**
 * What a completed valuation says about its last market date, its flows and its weights.
 */
module EndState {
  import opened Arithmetic
  import opened Wrappers
  import opened Sorting
  import opened Text
  import opened Transactions
  import opened Holdings
  import opened Replay
  import opened Valuation
  import PriceSeries

  ghost predicate GoodSeries(series: Series, start: Date, end: Date) {
    forall d :: d in series ==> start <= d <= end && series[d] > 0.0
  }

  ghost predicate GoodTable(prices: PriceTable, start: Date, end: Date) {
    forall s :: s in prices ==> (exists d :: d in prices[s]) && GoodSeries(prices[s], start, end)
  }

  lemma {:induction false} SeriesGood(s: string, bars: seq<PriceBar>, start: Date, end: Date)
    requires SeriesOf(s, bars, start, end).Ok?
    ensures GoodSeries(SeriesOf(s, bars, start, end).value, start, end)
  {
    if bars != [] {
      SeriesGood(s, bars[..|bars| - 1], start, end);
    }
  }

  lemma {:induction false} TableGood(symbols: seq<string>, input: PriceInput, start: Date, end: Date)
    requires ValidatedPrices(symbols, input, start, end).Ok?
    ensures GoodTable(ValidatedPrices(symbols, input, start, end).value, start, end)
  {
    hide SeriesOf, GoodSeries;
    if symbols != [] {
      var s := symbols[|symbols| - 1];
      TableGood(symbols[..|symbols| - 1], input, start, end);
      SeriesGood(s, BarsFor(input, s), start, end);
      NonemptySeries(ValidSeries(s, BarsFor(input, s), start, end).value);
    }
  }

  lemma NonemptySeries(series: Series)
    requires series != map[]
    ensures exists d :: d in series
  {
    assert (forall d :: d !in series) ==> series == map[];
  }

  ghost predicate Prepared(inputs: Inputs, start: Date, end: Date) {
    && InLedgerOrder(inputs.ordered) && AllValid(inputs.ordered)
    && GoodTable(inputs.prices, start, end)
    && inputs.dates == MarketDates(inputs.prices)
    && inputs.dates != []
  }

  lemma RequiredFacts(ts: seq<Transaction>, start: Date, end: Date)
    requires RequiredSymbols(ts, start, end).Ok?
    ensures start <= end && OrderedTransactions(ts, end).Ok? && AllValid(ts)
    ensures var ordered := OrderedTransactions(ts, end).value;
            && ordered == LedgerSort(Through(ts, end))
            && PositionsAfter(Through(ordered, start - 1)).Ok?
            && forall s :: s in RequiredSymbols(ts, start, end).value
                 <==> s in Nonzero(PositionsAfter(Through(ordered, start - 1)).value).Keys + TradedFrom(ordered, start)
  {
    hide PositionsAfter, LedgerSort, Through, TradedFrom, Nonzero, FirstInvalid, Valid;
  }

  lemma PrepareFacts(ts: seq<Transaction>, input: PriceInput, start: Date, end: Date)
    requires Prepare(ts, input, start, end).Ok?
    ensures start <= end && Prepared(Prepare(ts, input, start, end).value, start, end)
    ensures var inputs := Prepare(ts, input, start, end).value;
            && inputs.ordered == LedgerSort(Through(ts, end))
            && AllValid(ts)
            && RequiredPriced(inputs, start)
  {
    hide RequiredSymbols, OrderedTransactions, ValidatedPrices, MarketDates, GoodTable, Valid, LedgerLe,
      PositionsAfter, LedgerSort, Through, TradedFrom, Nonzero;
    RequiredFacts(ts, start, end);
    LedgerSortFacts(Through(ts, end));
    var inputs := Prepare(ts, input, start, end).value;
    TableGood(inputs.symbols, input, start, end);
    PriceSeries.TableKeys(inputs.symbols, input, start, end);
    ThroughValid(ts, end);
    assert forall s :: s in inputs.symbols <==> s in inputs.prices.Keys;
  }

  /** The priced symbols are those held at the start or traded since. */
  ghost predicate RequiredPriced(inputs: Inputs, start: Date) {
    var opening := PositionsAfter(Through(inputs.ordered, start - 1));
    opening.Ok? && inputs.prices.Keys == Nonzero(opening.value).Keys + TradedFrom(inputs.ordered, start)
  }

  lemma ThroughValid(ts: seq<Transaction>, d: Date)
    requires AllValid(ts)
    ensures AllValid(Through(ts, d))
  {
    hide Valid, DateOf;
    var us := Through(ts, d);
    forall i | 0 <= i < |us| ensures Valid(us[i]) {
      assert us[i] in us && us[i] in ts;
    }
  }

  /** Errors of the checks that later lemmas show can never fire. */
  predicate NeverRaised(e: ValuationError) {
    e.NoMarketDates? || e.NoUsablePrice? || e.PreviousValueNotPositive?
  }

  /** Preparing the inputs never raises them; every priced symbol has a market date. */
  lemma PrepareErrors(ts: seq<Transaction>, input: PriceInput, start: Date, end: Date)
    ensures Prepare(ts, input, start, end).Err? ==> !NeverRaised(Prepare(ts, input, start, end).error)
  {
    hide RequiredSymbols, SeriesOf, GoodSeries;
    var symbols := RequiredSymbols(ts, start, end);
    if symbols.Ok? && symbols.value != [] {
      RequiredErrors(ts, start, end);
      PricesErrors(symbols.value, input, start, end);
      var table := ValidatedPrices(symbols.value, input, start, end);
      if table.Ok? {
        TableGood(symbols.value, input, start, end);
        PriceSeries.TableKeys(symbols.value, input, start, end);
        var s := symbols.value[0];
        assert s in symbols.value && s in table.value;
        var d :| d in table.value[s];
        assert d in ObservedDates(table.value);
        assert d in MarketDates(table.value);
      }
      OrderedErrors(ts, end);
    } else {
      RequiredErrors(ts, start, end);
    }
  }

  lemma RequiredErrors(ts: seq<Transaction>, start: Date, end: Date)
    ensures RequiredSymbols(ts, start, end).Err? ==> !NeverRaised(RequiredSymbols(ts, start, end).error)
  {
    hide PositionsAfter, FirstInvalid, LedgerSort, Through;
  }

  lemma OrderedErrors(ts: seq<Transaction>, end: Date)
    ensures OrderedTransactions(ts, end).Err? ==> !NeverRaised(OrderedTransactions(ts, end).error)
  {}

  predicate PriceError(e: ValuationError) {
    e.BarSymbolMismatch? || e.BarPriceNotPositive? || e.DuplicatePriceDate? || e.NoBarsInRange?
  }

  lemma {:induction false} PricesErrors(symbols: seq<string>, input: PriceInput, start: Date, end: Date)
    ensures ValidatedPrices(symbols, input, start, end).Err? ==> PriceError(ValidatedPrices(symbols, input, start, end).error)
  {
    if symbols != [] {
      PricesErrors(symbols[..|symbols| - 1], input, start, end);
      SeriesErrors(symbols[|symbols| - 1], BarsFor(input, symbols[|symbols| - 1]), start, end);
    }
  }

  lemma {:induction false} SeriesErrors(s: string, bars: seq<PriceBar>, start: Date, end: Date)
    ensures SeriesOf(s, bars, start, end).Err? ==> PriceError(SeriesOf(s, bars, start, end).error)
  {
    if bars != [] {
      SeriesErrors(s, bars[..|bars| - 1], start, end);
    }
  }

  /** Rows that do not trade a symbol leave its quantity alone. */
  lemma {:induction false} UntouchedPosition(ts: seq<Transaction>, n: nat, s: string)
    requires n <= |ts| && PositionsAfter(ts).Ok?
    requires forall i :: n <= i < |ts| ==> !(ts[i].IsTrade() && Sym(ts[i]) == s)
    ensures PositionsAfter(ts[..n]).Ok?
    ensures Held(PositionsAfter(ts).value, s) == Held(PositionsAfter(ts[..n]).value, s)
  {
    if n < |ts| {
      var init := ts[..|ts| - 1];
      assert init[..n] == ts[..n];
      UntouchedPosition(init, n, s);
    } else {
      assert ts[..n] == ts;
    }
  }

  /** Whatever is held on a date from `start` on was held at the start or traded since. */
  lemma ActiveIsRequired(ordered: seq<Transaction>, start: Date, d: Date, s: string)
    requires InLedgerOrder(ordered) && AllValid(ordered) && start <= d
    requires Run(Through(ordered, d)).Ok? && s in Nonzero(Run(Through(ordered, d)).value.positions)
    ensures PositionsAfter(Through(ordered, start - 1)).Ok?
    ensures s in Nonzero(PositionsAfter(Through(ordered, start - 1)).value).Keys + TradedFrom(ordered, start)
  {
    hide LedgerLe, DateOf, Through, PositionsAfter, Run, Validate;
    var n, m := TwoCuts(ordered, start - 1, d);
    var us := ordered[..m];
    RunPositions(us);
    if i :| n <= i < m && ordered[i].IsTrade() && Sym(ordered[i]) == s {
      ValidFields(ordered[i]);
      assert ordered[i] in ordered;
      assert s in TradedFrom(ordered, start);
      if PositionsAfter(ordered[..n]).Err? {
        assert us[..n] == ordered[..n];
        OversoldPrefix(us, n);
      }
    } else {
      assert us[..n] == ordered[..n];
      UntouchedPosition(us, n, s);
    }
  }

  /** By the last market date every required symbol has an observed price. */
  lemma LastDateFullyPriced(inputs: Inputs, start: Date, end: Date)
    requires Prepared(inputs, start, end)
    ensures LatestPrices(inputs.prices, LastDate(inputs)).Keys == inputs.prices.Keys
    ensures start <= LastDate(inputs) <= end
  {
    hide InLedgerOrder, AllValid, LatestPrice;
    var last := LastDate(inputs);
    assert last in inputs.dates && last in ObservedDates(inputs.prices);
    forall s | s in inputs.prices ensures LatestPrice(inputs.prices[s], last).Some? {
      SymbolPriced(inputs.prices, s);
    }
  }

  lemma SymbolPriced(prices: PriceTable, s: string)
    requires s in prices && (exists d :: d in prices[s])
    ensures var dates := MarketDates(prices);
            dates != [] && LatestPrice(prices[s], dates[|dates| - 1]).Some?
  {
    var d :| d in prices[s];
    assert d in ObservedDates(prices);
    assert d in MarketDates(prices);
  }

  lemma LatestPositive(prices: PriceTable, d: Date, start: Date, end: Date)
    requires GoodTable(prices, start, end)
    ensures forall s :: s in LatestPrices(prices, d) ==> LatestPrices(prices, d)[s] > 0.0
  {}

  lemma {:induction false} SumPositive(symbols: seq<string>, values: map<string, real>)
    requires forall s :: s in symbols ==> s in values && values[s] > 0.0
    ensures SumOver(symbols, values) >= 0.0
    ensures symbols != [] ==> SumOver(symbols, values) > 0.0
    ensures forall s :: s in symbols ==> values[s] <= SumOver(symbols, values)
  {
    if symbols != [] {
      SplitLast(symbols);
      assert symbols[|symbols| - 1] in symbols;
      SumPositive(symbols[..|symbols| - 1], values);
    }
  }

  lemma TotalPositive(values: map<string, real>)
    requires forall s :: s in values ==> values[s] > 0.0
    ensures Total(values) >= 0.0
    ensures Total(values) == 0.0 <==> values == map[]
    ensures forall s :: s in values ==> values[s] <= Total(values)
  {
    SumPositive(SortedTexts(values.Keys), values);
    if values != map[] {
      var s :| s in values;
      assert s in SortedTexts(values.Keys);
    }
  }

  lemma AssetsPositive(active: Quantities, latest: map<string, real>)
    requires active.Keys <= latest.Keys
    requires forall s :: s in active ==> active[s] > 0.0
    requires forall s :: s in latest ==> latest[s] > 0.0
    ensures forall s :: s in AssetValues(active, latest) ==> AssetValues(active, latest)[s] > 0.0
    ensures AssetValues(active, latest) == map[] <==> active == map[]
  {
    assert AssetValues(active, latest).Keys == active.Keys;
  }

  lemma ActivePositive(ts: seq<Transaction>)
    requires Run(ts).Ok?
    ensures Run(ts).value.cash >= 0.0
    ensures forall s :: s in Nonzero(Run(ts).value.positions) ==> Nonzero(Run(ts).value.positions)[s] > 0.0
  {
    hide Run;
    Conservation(ts);
  }

  /** True when, at the end of day `d`, there is neither cash nor any security. */
  ghost predicate EmptiedOn(inputs: Inputs, d: Date) {
    BookOn(inputs.ordered, d).cash == 0.0 && Nonzero(BookOn(inputs.ordered, d).positions) == map[]
  }

  /** On the last market date everything held has a price, and the value is positive unless the book is empty. */
  lemma LastDateValue(inputs: Inputs, start: Date, end: Date)
    requires Prepared(inputs, start, end) && start <= end
    requires RequiredPriced(inputs, start)
    requires Run(Through(inputs.ordered, LastDate(inputs))).Ok?
    ensures var d := LastDate(inputs);
            var active, latest := Nonzero(BookOn(inputs.ordered, d).positions), LatestPrices(inputs.prices, d);
            && active.Keys <= latest.Keys
            && (forall s :: s in AssetValues(active, latest) ==> AssetValues(active, latest)[s] > 0.0)
            && (ValueOn(inputs.ordered, inputs.prices, d).None? <==> EmptiedOn(inputs, d))
            && (ValueOn(inputs.ordered, inputs.prices, d).Some? ==>
                 ValueOn(inputs.ordered, inputs.prices, d).value
                 == BookOn(inputs.ordered, d).cash + Total(AssetValues(active, latest)))
  {
    hide Run, Through, PositionsAfter, LatestPrices, Nonzero, Total, AssetValues, TradedFrom, GoodTable, InLedgerOrder, AllValid;
    var d := LastDate(inputs);
    var b := BookOn(inputs.ordered, d);
    var active, latest := Nonzero(b.positions), LatestPrices(inputs.prices, d);
    LastDateFullyPriced(inputs, start, end);
    forall s | s in active ensures s in latest {
      ActiveIsRequired(inputs.ordered, start, d, s);
    }
    LatestPositive(inputs.prices, d, start, end);
    ActivePositive(Through(inputs.ordered, d));
    AssetsPositive(active, latest);
    TotalPositive(AssetValues(active, latest));
  }

  /** A completed valuation: its inputs, and the replay behind it. */
  lemma Completed(ts: seq<Transaction>, input: PriceInput, start: Date, end: Date)
    requires Valuate(ts, input, start, end).Ok?
    ensures Prepare(ts, input, start, end).Ok?
    ensures var inputs, v := Prepare(ts, input, start, end).value, Valuate(ts, input, start, end).value;
            var b, latest := BookOn(inputs.ordered, LastDate(inputs)), LatestPrices(inputs.prices, LastDate(inputs));
            && start <= end && Prepared(inputs, start, end) && RequiredPriced(inputs, start)
            && Run(Through(inputs.ordered, LastDate(inputs))) == Ok(b)
            && v.points == PointsOf(inputs) && v.points != []
            && Nonzero(b.positions).Keys <= latest.Keys
            && Returns(v.points) == Ok(v.periodReturns)
            && v.portfolioValue == v.points[|v.points| - 1].totalValue
            && v.cashBalance == v.points[|v.points| - 1].cashBalance
            && v.weights == WeightsOf(AssetValues(Nonzero(b.positions), latest), v.portfolioValue)
  {
    hide Prepare, Run, Through, LatestPrices, PointsOf, Returns, WeightsOf, AssetValues, Nonzero, Prepared;
    PrepareFacts(ts, input, start, end);
  }

  lemma CompletedPoints(ts: seq<Transaction>, input: PriceInput, start: Date, end: Date)
    requires Valuate(ts, input, start, end).Ok?
    ensures var v := Valuate(ts, input, start, end).value;
            && Returns(v.points) == Ok(v.periodReturns)
            && v.portfolioValue == v.points[|v.points| - 1].totalValue
            && forall i :: 0 <= i < |v.points| ==> v.points[i].totalValue > 0.0
  {
    hide Prepare, Run, Through, LatestPrices, PointsOn, Returns, WeightsOf, AssetValues, Nonzero;
  }

  lemma {:induction false} RunErrors(ts: seq<Transaction>)
    ensures Run(ts).Err? ==> !NeverRaised(Run(ts).error)
  {
    hide Validate, ApplyPosition;
    if ts != [] {
      RunErrors(ts[..|ts| - 1]);
    }
  }

  /**
   * Whatever the ledger, prices and range, three of the checks never fire: no market dates, no
   * usable price after the loop, and a previous value that is not positive.
   */
  lemma UnreachableErrors(ts: seq<Transaction>, input: PriceInput, start: Date, end: Date)
    ensures Valuate(ts, input, start, end).Err? ==> !NeverRaised(Valuate(ts, input, start, end).error)
  {
    hide Prepare, Run, Through, Finish;
    PrepareErrors(ts, input, start, end);
    if Prepare(ts, input, start, end).Ok? {
      var inputs := Prepare(ts, input, start, end).value;
      RunErrors(Through(inputs.ordered, LastDate(inputs)));
      if Run(Through(inputs.ordered, LastDate(inputs))).Ok? {
        CompletedReplayErrors(ts, input, start, end);
      }
    }
  }

  /** Once the replay completes, only a missing balance or a flow-adjusted value can still be refused. */
  lemma CompletedReplayErrors(ts: seq<Transaction>, input: PriceInput, start: Date, end: Date)
    requires Prepare(ts, input, start, end).Ok?
    requires Run(Through(Prepare(ts, input, start, end).value.ordered, LastDate(Prepare(ts, input, start, end).value))).Ok?
    ensures Valuate(ts, input, start, end).Ok? ||
            Valuate(ts, input, start, end).error == NoPositiveBalance ||
            Valuate(ts, input, start, end).error == AdjustedValueNotPositive
  {
    hide Prepare, Run, Through, LatestPrices, PointsOf, Returns, WeightsOf, AssetValues, Nonzero, Prepared, RequiredPriced;
    PrepareFacts(ts, input, start, end);
    var inputs := Prepare(ts, input, start, end).value;
    LastDateValue(inputs, start, end);
    ReturnsErrors(PointsOf(inputs));
  }

  lemma {:induction false} ReturnsErrors(points: seq<Point>)
    requires forall i :: 0 <= i < |points| ==> points[i].totalValue > 0.0
    ensures Returns(points).Ok? || Returns(points) == Err(AdjustedValueNotPositive)
    ensures Returns(points).Ok? ==> forall r :: r in Returns(points).value ==> r > -1.0
  {
    if |points| > 1 {
      ReturnsErrors(points[..|points| - 1]);
      var adjusted := points[|points| - 1].totalValue - points[|points| - 1].netExternalFlow;
      if adjusted > 0.0 {
        QuotientPositive(adjusted, points[|points| - 2].totalValue);
      }
    }
  }

  /** The period returns of a completed valuation all exceed -1. */
  lemma PeriodReturnsExceedMinusOne(ts: seq<Transaction>, input: PriceInput, start: Date, end: Date)
    requires Valuate(ts, input, start, end).Ok?
    ensures forall r :: r in Valuate(ts, input, start, end).value.periodReturns ==> r > -1.0
  {
    hide Valuate, Prepare, PointsOf, Returns, Run, Through;
    Completed(ts, input, start, end);
    ReturnsErrors(Valuate(ts, input, start, end).value.points);
  }

  /** The last market date yields the last point unless the book is empty at its end. */
  lemma LastDateReported(ts: seq<Transaction>, input: PriceInput, start: Date, end: Date)
    requires Valuate(ts, input, start, end).Ok?
    ensures var inputs, v := Prepare(ts, input, start, end).value, Valuate(ts, input, start, end).value;
            v.points[|v.points| - 1].date == LastDate(inputs) <==> !EmptiedOn(inputs, LastDate(inputs))
  {
    hide Valuate, Prepare, Returns, Run, Through, PointsOn, ValueOn, EmptiedOn, RequiredPriced, LatestPrices, WeightsOf, MarketDates;
    Completed(ts, input, start, end);
    var inputs, v := Prepare(ts, input, start, end).value, Valuate(ts, input, start, end).value;
    LastDateValue(inputs, start, end);
    PointsFacts(inputs.ordered, inputs.prices, inputs.dates);
    var last := v.points[|v.points| - 1];
    assert last in v.points;
    if !EmptiedOn(inputs, LastDate(inputs)) {
      var i := PointsComplete(inputs.ordered, inputs.prices, inputs.dates, LastDate(inputs));
      assert i < |v.points| - 1 ==> v.points[i].date < last.date;
    }
  }

  function MarketSum(ws: seq<Weight>): real {
    if ws == [] then 0.0 else MarketSum(ws[..|ws| - 1]) + ws[|ws| - 1].marketValue
  }

  function WeightSum(ws: seq<Weight>): real {
    if ws == [] then 0.0 else WeightSum(ws[..|ws| - 1]) + ws[|ws| - 1].weight
  }

  lemma {:induction false} WeightSums(ws: seq<Weight>, symbols: seq<string>, values: map<string, real>, total: real)
    requires total > 0.0 && |ws| == |symbols|
    requires forall i :: 0 <= i < |ws| ==>
      symbols[i] in values && ws[i] == Weight(symbols[i], values[symbols[i]], values[symbols[i]] / total)
    ensures MarketSum(ws) == SumOver(symbols, values)
    ensures WeightSum(ws) == SumOver(symbols, values) / total
  {
    if ws != [] {
      var n := |ws| - 1;
      WeightSums(ws[..n], symbols[..n], values, total);
      SumQuotient(SumOver(symbols[..n], values), values[symbols[n]], total);
    }
  }

  lemma SumQuotient(a: real, b: real, c: real)
    requires c > 0.0
    ensures a / c + b / c == (a + b) / c
  {}

  lemma WeightsOfSums(values: map<string, real>, total: real)
    requires total > 0.0
    ensures MarketSum(WeightsOf(values, total)) == Total(values)
    ensures WeightSum(WeightsOf(values, total)) == Total(values) / total
  {
    WeightSums(WeightsOf(values, total), SortedTexts(values.Keys), values, total);
  }

  /**
   * When the last market date is reported, cash plus the market values is the portfolio value,
   * every weight lies in (0, 1], and the weights sum to one minus the cash share.
   */
  lemma WeightIdentities(ts: seq<Transaction>, input: PriceInput, start: Date, end: Date)
    requires Valuate(ts, input, start, end).Ok?
    requires var v := Valuate(ts, input, start, end).value;
             v.points[|v.points| - 1].date == LastDate(Prepare(ts, input, start, end).value)
    ensures var v := Valuate(ts, input, start, end).value;
            && v.portfolioValue > 0.0
            && v.cashBalance + MarketSum(v.weights) == v.portfolioValue
            && WeightSum(v.weights) == 1.0 - v.cashBalance / v.portfolioValue
            && forall w :: w in v.weights ==> 0.0 < w.weight <= 1.0
  {
    hide Valuate, Prepare, Returns, Run, Through, PointsOn, ValueOn, RequiredPriced, LatestPrices, MarketDates, AssetValues, Total;
    Completed(ts, input, start, end);
    var inputs, v := Prepare(ts, input, start, end).value, Valuate(ts, input, start, end).value;
    var d := LastDate(inputs);
    LastDateValue(inputs, start, end);
    PointsFacts(inputs.ordered, inputs.prices, inputs.dates);
    assert v.points[|v.points| - 1] in v.points;
    var values := AssetValues(Nonzero(BookOn(inputs.ordered, d).positions), LatestPrices(inputs.prices, d));
    WeightsOfSums(values, v.portfolioValue);
    ComplementQuotient(v.cashBalance, Total(values), v.portfolioValue);
    ActivePositive(Through(inputs.ordered, d));
    TotalPositive(values);
    forall w | w in v.weights ensures 0.0 < w.weight <= 1.0 {
      WeightInUnit(values, v.portfolioValue, w);
    }
  }

  /**
   * The weights of any completed valuation describe the book after the last market date: in
   * symbol order, exactly the symbols with a nonzero net, each at net shares times the latest price.
   */
  lemma WeightsAreHoldings(ts: seq<Transaction>, input: PriceInput, start: Date, end: Date, s: string)
    requires Valuate(ts, input, start, end).Ok?
    ensures var inputs, v := Prepare(ts, input, start, end).value, Valuate(ts, input, start, end).value;
            var due, ws := Through(inputs.ordered, LastDate(inputs)), v.weights;
            && (forall i, j :: 0 <= i < j < |ws| ==> ws[i].symbol != ws[j].symbol && TextLe(ws[i].symbol, ws[j].symbol))
            && (Net(due, s) != 0.0 <==> exists w :: w in ws && w.symbol == s)
            && (forall w :: w in ws && w.symbol == s ==>
                  && s in inputs.prices && LatestPrice(inputs.prices[s], LastDate(inputs)).Some?
                  && w.marketValue == Net(due, s) * LatestPrice(inputs.prices[s], LastDate(inputs)).value
                  && w.weight * v.portfolioValue == w.marketValue)
  {
    hide Valuate, Prepare, Prepared, Returns, Run, Through, PointsOf, RequiredPriced, LatestPrice, LatestPrices, Net, WeightsOf,
      AssetValues, Nonzero, Held, TextLe;
    Completed(ts, input, start, end);
    var inputs, v := Prepare(ts, input, start, end).value, Valuate(ts, input, start, end).value;
    var due := Through(inputs.ordered, LastDate(inputs));
    RunPositions(due);
    QuantityIsNet(due, s);
    BookWeights(Run(due).value.positions, LatestPrices(inputs.prices, LastDate(inputs)), v.portfolioValue, s);
    LatestPricesAt(inputs.prices, LastDate(inputs), s);
  }

  lemma LatestPricesAt(prices: PriceTable, d: Date, s: string)
    ensures s in LatestPrices(prices, d) ==>
              s in prices && LatestPrice(prices[s], d).Some? && LatestPrices(prices, d)[s] == LatestPrice(prices[s], d).value
  {}

  /** The weights of a book under given prices. */
  lemma BookWeights(q: Quantities, latest: map<string, real>, total: real, s: string)
    requires total > 0.0 && Nonzero(q).Keys <= latest.Keys
    ensures var ws := WeightsOf(AssetValues(Nonzero(q), latest), total);
            && (forall i, j :: 0 <= i < j < |ws| ==> ws[i].symbol != ws[j].symbol && TextLe(ws[i].symbol, ws[j].symbol))
            && (Held(q, s) != 0.0 <==> exists w :: w in ws && w.symbol == s)
            && (forall w :: w in ws && w.symbol == s ==>
                  s in latest && w.marketValue == Held(q, s) * latest[s] && w.weight * total == w.marketValue)
  {
    hide WeightsOf, TextLe;
    var values := AssetValues(Nonzero(q), latest);
    WeightsInOrder(values, total);
    forall w | w in WeightsOf(values, total) && w.symbol == s
      ensures s in values && w.marketValue == values[s] && w.weight * total == w.marketValue
    {
      WeightOf(values, total, w);
    }
    if s in values {
      var w := WeightExists(values, total, s);
    }
  }

  lemma WeightAt(values: map<string, real>, total: real, i: nat)
    requires total > 0.0 && i < |values|
    ensures SortedTexts(values.Keys)[i] in values
    ensures var s := SortedTexts(values.Keys)[i];
            WeightsOf(values, total)[i] == Weight(s, values[s], values[s] / total)
  {
    assert SortedTexts(values.Keys)[i] in SortedTexts(values.Keys);
  }

  /** The weights are in symbol order. */
  lemma WeightsInOrder(values: map<string, real>, total: real)
    requires total > 0.0
    ensures var ws := WeightsOf(values, total);
            forall i, j :: 0 <= i < j < |ws| ==> ws[i].symbol != ws[j].symbol && TextLe(ws[i].symbol, ws[j].symbol)
  {
    hide WeightsOf, TextLe;
    forall i | 0 <= i < |values| ensures WeightsOf(values, total)[i].symbol == SortedTexts(values.Keys)[i] {
      WeightAt(values, total, i);
    }
  }

  lemma WeightOf(values: map<string, real>, total: real, w: Weight)
    requires total > 0.0 && w in WeightsOf(values, total)
    ensures w.symbol in values && w.marketValue == values[w.symbol] && w.weight * total == values[w.symbol]
  {
    hide WeightsOf, SortedTexts;
    var i :| 0 <= i < |values| && WeightsOf(values, total)[i] == w;
    WeightAt(values, total, i);
    Undivide(values[w.symbol], total);
  }

  lemma WeightExists(values: map<string, real>, total: real, s: string) returns (w: Weight)
    requires total > 0.0 && s in values
    ensures w in WeightsOf(values, total) && w.symbol == s
  {
    hide WeightsOf;
    var symbols := SortedTexts(values.Keys);
    assert s in symbols;
    var i :| 0 <= i < |symbols| && symbols[i] == s;
    WeightAt(values, total, i);
    w := WeightsOf(values, total)[i];
  }

  lemma Undivide(a: real, b: real)
    requires b > 0.0
    ensures a / b * b == a
  {}

  lemma ComplementQuotient(cash: real, held: real, total: real)
    requires total > 0.0 && cash + held == total
    ensures held / total == 1.0 - cash / total
  {
    SumQuotient(cash, held, total);
    assert total / total == 1.0;
  }

  lemma WeightInUnit(values: map<string, real>, total: real, w: Weight)
    requires total > 0.0 && w in WeightsOf(values, total)
    requires forall s :: s in values ==> 0.0 < values[s] <= total
    ensures 0.0 < w.weight <= 1.0
  {
    var symbols := SortedTexts(values.Keys);
    var ws := WeightsOf(values, total);
    var i :| 0 <= i < |ws| && ws[i] == w;
    assert symbols[i] in symbols;
    QuotientPositive(values[symbols[i]], total);
    UnitQuotient(values[symbols[i]], total);
  }

  lemma UnitQuotient(a: real, b: real)
    requires a <= b && b > 0.0
    ensures a / b <= 1.0
  {
    assert (1.0 - a / b) * b == b - a;
    NonNegativeFactor(1.0 - a / b, b);
  }

  ghost function ValuedDates(inputs: Inputs): set<Date> {
    set x | x in inputs.dates && ValueOn(inputs.ordered, inputs.prices, x).Some?
  }

  /** The last market date with a value, known from the inputs alone. */
  ghost function LastValued(inputs: Inputs): Date
    requires ValuedDates(inputs) != {}
  {
    Greatest(ValuedDates(inputs))
  }

  /** It is the date the report is as of. */
  lemma ReportedDate(ts: seq<Transaction>, input: PriceInput, start: Date, end: Date)
    requires Valuate(ts, input, start, end).Ok?
    ensures var inputs, v := Prepare(ts, input, start, end).value, Valuate(ts, input, start, end).value;
            ValuedDates(inputs) != {} && v.points[|v.points| - 1].date == LastValued(inputs)
  {
    hide Valuate, Prepare, Returns, Run, Through, PointsOn, ValueOn, BookOn, RequiredPriced, LatestPrices, WeightsOf, MarketDates;
    hide ValuedDates, LastValued, Prepared;
    Completed(ts, input, start, end);
    LastPointDate(Prepare(ts, input, start, end).value);
  }

  lemma LastPointDate(inputs: Inputs)
    requires AscendingDates(inputs.dates) && PointsOf(inputs) != []
    ensures ValuedDates(inputs) != {} && PointsOf(inputs)[|PointsOf(inputs)| - 1].date == LastValued(inputs)
  {
    hide PointsOn, ValueOn, BookOn;
    PointsFacts(inputs.ordered, inputs.prices, inputs.dates);
    var points := PointsOf(inputs);
    assert points[|points| - 1] in points;
    assert points[|points| - 1].date in ValuedDates(inputs);
    var i := PointsComplete(inputs.ordered, inputs.prices, inputs.dates, LastValued(inputs));
    LastIsLatest(points, i);
  }

  lemma LastIsLatest(points: seq<Point>, i: nat)
    requires AscendingPoints(points) && i < |points|
    ensures points[i].date <= points[|points| - 1].date
  {}

  /**
   * In general cash plus market values is the portfolio value exactly when the book is not empty
   * on the last market date, or nothing was held on the last market date that has a value.
   */
  lemma CashPlusMarketValueIff(ts: seq<Transaction>, input: PriceInput, start: Date, end: Date)
    requires Valuate(ts, input, start, end).Ok?
    ensures var inputs, v := Prepare(ts, input, start, end).value, Valuate(ts, input, start, end).value;
            && ValuedDates(inputs) != {}
            && (v.cashBalance + MarketSum(v.weights) == v.portfolioValue
                <==> !EmptiedOn(inputs, LastDate(inputs))
                     || Nonzero(BookOn(inputs.ordered, LastValued(inputs)).positions) == map[])
  {
    hide ValuedDates, LastValued, Valuate, Prepare, Returns, PointsOn, ValueOn, RequiredPriced, LatestPrices, MarketDates, AssetValues, Run, Through;
    Completed(ts, input, start, end);
    LastDateReported(ts, input, start, end);
    ReportedDate(ts, input, start, end);
    var inputs, v := Prepare(ts, input, start, end).value, Valuate(ts, input, start, end).value;
    if !EmptiedOn(inputs, LastDate(inputs)) {
      WeightIdentities(ts, input, start, end);
    } else {
      var d := LastDate(inputs);
      assert v.weights == [] by {
        assert AssetValues(Nonzero(BookOn(inputs.ordered, d).positions), LatestPrices(inputs.prices, d)) == map[] by {
          EmptyAssets(Nonzero(BookOn(inputs.ordered, d).positions), LatestPrices(inputs.prices, d));
        }
      }
      PointsFacts(inputs.ordered, inputs.prices, inputs.dates);
      var asOf := v.points[|v.points| - 1];
      assert asOf in v.points;
      ReportedSplit(inputs, asOf.date, start, end);
    }
  }

  lemma EmptyAssets(active: Quantities, latest: map<string, real>)
    requires active == map[]
    ensures active.Keys <= latest.Keys && AssetValues(active, latest) == map[]
  {}

  /** A reported value is all cash exactly when nothing is held. */
  lemma ReportedSplit(inputs: Inputs, d: Date, start: Date, end: Date)
    requires Prepared(inputs, start, end) && d <= LastDate(inputs)
    requires Run(Through(inputs.ordered, LastDate(inputs))).Ok?
    requires ValueOn(inputs.ordered, inputs.prices, d).Some?
    ensures BookOn(inputs.ordered, d).cash == ValueOn(inputs.ordered, inputs.prices, d).value
            <==> Nonzero(BookOn(inputs.ordered, d).positions) == map[]
  {
    hide Run, Through, LatestPrices, Nonzero, Total, AssetValues, InLedgerOrder, AllValid, GoodTable, MarketDates;
    var active, latest := Nonzero(BookOn(inputs.ordered, d).positions), LatestPrices(inputs.prices, d);
    RunThroughOk(inputs.ordered, d, LastDate(inputs));
    LatestPositive(inputs.prices, d, start, end);
    ActivePositive(Through(inputs.ordered, d));
    AssetsPositive(active, latest);
    TotalPositive(AssetValues(active, latest));
  }

  lemma RunThroughOk(ordered: seq<Transaction>, d: Date, e: Date)
    requires InLedgerOrder(ordered) && d <= e && Run(Through(ordered, e)).Ok?
    ensures Run(Through(ordered, d)).Ok?
  {
    hide LedgerLe, DateOf, Through, Run;
    var n, m := TwoCuts(ordered, d, e);
    assert ordered[..m][..n] == ordered[..n];
    if Run(ordered[..n]).Err? {
      RunErrorPrefix(ordered[..m], n);
    }
  }

  function FlowSum(points: seq<Point>): real {
    if points == [] then 0.0 else FlowSum(points[..|points| - 1]) + points[|points| - 1].netExternalFlow
  }

  /** Skipped dates lose no flow: the reported flows up to a point add up to every flow dated by then. */
  lemma {:induction false} FlowsAddUp(ordered: seq<Transaction>, prices: PriceTable, dates: seq<Date>)
    ensures FlowSum(PointsOn(ordered, prices, dates)) == FlowReported(ordered, PointsOn(ordered, prices, dates))
  {
    hide ValueOn, BookOn;
    if dates != [] {
      FlowsAddUp(ordered, prices, dates[..|dates| - 1]);
      var ps := PointsOn(ordered, prices, dates);
      var earlier := PointsOn(ordered, prices, dates[..|dates| - 1]);
      if ps != earlier {
        assert ps[..|ps| - 1] == earlier;
      }
    }
  }

  /** Conservation at one point of the walk. */
  lemma PointConservation(inputs: Inputs, i: nat)
    requires InLedgerOrder(inputs.ordered) && inputs.dates != [] && AscendingDates(inputs.dates)
    requires Run(Through(inputs.ordered, LastDate(inputs))).Ok?
    requires i < |PointsOf(inputs)|
    ensures var points := PointsOf(inputs);
            var due := Through(inputs.ordered, points[i].date);
            && Run(due).Ok?
            && FlowSum(points[..i + 1]) == Run(due).value.flow
            && points[i].cashBalance == Run(due).value.cash
  {
    hide ValueOn, Run, Through, InLedgerOrder;
    var points := PointsOf(inputs);
    PointsFacts(inputs.ordered, inputs.prices, inputs.dates);
    assert points[i] in points && points[i].date in inputs.dates;
    RunThroughOk(inputs.ordered, points[i].date, LastDate(inputs));
    var n := PointsCut(inputs.ordered, inputs.prices, inputs.dates, i + 1);
    FlowsAddUp(inputs.ordered, inputs.prices, inputs.dates[..n]);
  }

  /**
   * Conservation at every reported date: the flows reported so far are the deposits less the
   * withdrawals plus the implicit contributions of the rows dated by then, and the cash is
   * those flows plus sales, less purchases and fees.
   */
  lemma ReportedConservation(ts: seq<Transaction>, input: PriceInput, start: Date, end: Date, i: nat)
    requires Valuate(ts, input, start, end).Ok? && i < |Valuate(ts, input, start, end).value.points|
    ensures var inputs, points := Prepare(ts, input, start, end).value, Valuate(ts, input, start, end).value.points;
            var due := Through(inputs.ordered, points[i].date);
            && Run(due).Ok?
            && FlowSum(points[..i + 1]) == Sum(due, StatedFlow) + ImplicitFunding(due)
            && points[i].cashBalance
               == FlowSum(points[..i + 1]) + Sum(due, SellIncome) - Sum(due, BuySpend) - Sum(due, AnyFee)
            && points[i].cashBalance >= 0.0
  {
    hide Valuate, Prepare, PointsOf, Returns, RequiredPriced, LatestPrices, MarketDates, AssetValues, Run, Through,
      InLedgerOrder, WeightsOf, GoodTable, Nonzero, FlowSum, Sum, ImplicitFunding;
    Completed(ts, input, start, end);
    var inputs := Prepare(ts, input, start, end).value;
    PointConservation(inputs, i);
    var due := Through(inputs.ordered, PointsOf(inputs)[i].date);
    Conservation(due);
    FlowIsStatedPlusImplicit(due);
  }

  /** A prefix of the points is the points of a prefix of the dates. */
  lemma {:induction false} PointsCut(ordered: seq<Transaction>, prices: PriceTable, dates: seq<Date>, k: nat) returns (n: nat)
    requires k <= |PointsOn(ordered, prices, dates)|
    ensures n <= |dates| && PointsOn(ordered, prices, dates[..n]) == PointsOn(ordered, prices, dates)[..k]
  {
    hide ValueOn, BookOn, FlowReported;
    if k == |PointsOn(ordered, prices, dates)| {
      n := |dates|;
      assert dates[..n] == dates;
    } else {
      var init := dates[..|dates| - 1];
      n := PointsCut(ordered, prices, init, k);
      assert init[..n] == dates[..n];
    }
  }

  lemma AcceptedPrefix(ts: seq<Transaction>, n: nat)
    requires PositionsAfter(ts).Ok? && n <= |ts|
    ensures PositionsAfter(ts[..n]).Ok?
  {
    if PositionsAfter(ts[..n]).Err? {
      OversoldPrefix(ts, n);
    }
  }

  lemma AcceptedThrough(ts: seq<Transaction>, d: Date)
    requires InLedgerOrder(ts) && PositionsAfter(ts).Ok?
    ensures PositionsAfter(Through(ts, d)).Ok?
  {
    hide LedgerLe, DateOf, Through, PositionsAfter;
    var n := ThroughPrefix(ts, d);
    AcceptedPrefix(ts, n);
  }

  lemma FinishErrors(inputs: Inputs)
    requires inputs.dates != [] && AscendingDates(inputs.dates)
    requires PositionsAfter(Through(inputs.ordered, LastDate(inputs))).Ok?
    ensures ValuateInputs(inputs).Err? ==> !ValuateInputs(inputs).error.SellExceeds?
  {
    hide Run, Through, PositionsAfter, PointsOf, LatestPrices, WeightsOf, AssetValues, Returns;
    AcceptedNeverSellExceeds(Through(inputs.ordered, LastDate(inputs)));
    ReturnsErrors(PointsOf(inputs));
  }

  /** A ledger that `derive_positions` accepts never oversells in a valuation, over any range and prices. */
  lemma AcceptedLedgerNeverOversells(ts: seq<Transaction>, input: PriceInput, start: Date, end: Date)
    requires DerivePositions(ts).Ok?
    ensures Valuate(ts, input, start, end).Err? ==> !Valuate(ts, input, start, end).error.SellExceeds?
  {
    hide LedgerSort, Through, PositionsAfter, FirstInvalid, Report, TradedFrom, Nonzero, ValidatedPrices, MarketDates, ValuateInputs;
    LedgerSortFacts(ts);
    LedgerSortFacts(Through(ts, end));
    ThroughSort(ts, end);
    AcceptedThrough(LedgerSort(ts), end);
    var ordered := LedgerSort(Through(ts, end));
    AcceptedThrough(ordered, start - 1);
    if RequiredSymbols(ts, start, end).Ok? {
      PricesErrors(RequiredSymbols(ts, start, end).value, input, start, end);
    }
    if Prepare(ts, input, start, end).Ok? {
      var inputs := Prepare(ts, input, start, end).value;
      AcceptedThrough(ordered, LastDate(inputs));
      FinishErrors(inputs);
    }
  }
}
