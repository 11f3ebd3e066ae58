/** What a market date is worth, said of net shares and observed prices, and which dates are reported. */
module Worth {
  import opened Wrappers
  import opened Sorting
  import opened Text
  import opened Transactions
  import opened Holdings
  import opened Replay
  import opened Valuation
  import opened EndState
  import opened PriceSeries
  import opened Completion

  /** The price of a symbol at the greatest date observed up to `d`, if there is one. */
  ghost function PriceAt(prices: PriceTable, s: string, d: Date): Option<real> {
    if s in prices then LatestPrice(prices[s], d) else None
  }

  /** Net shares at the latest price; nothing while there is no price. */
  ghost function Stake(due: seq<Transaction>, prices: PriceTable, s: string, d: Date): real {
    Net(due, s) * if PriceAt(prices, s, d).Some? then PriceAt(prices, s, d).value else 0.0
  }

  ghost function StakeSum(symbols: seq<string>, due: seq<Transaction>, prices: PriceTable, d: Date): real {
    if symbols == [] then 0.0
    else StakeSum(symbols[..|symbols| - 1], due, prices, d) + Stake(due, prices, symbols[|symbols| - 1], d)
  }

  /** Every symbol with a nonzero net has been observed by `d`. */
  ghost predicate AllPriced(due: seq<Transaction>, prices: PriceTable, d: Date) {
    forall s :: Net(due, s) != 0.0 ==> PriceAt(prices, s, d).Some?
  }

  /** The symbols that have a value. */
  ghost function Kept(symbols: seq<string>, values: map<string, real>): (r: seq<string>)
    ensures forall s :: s in r <==> s in symbols && s in values
  {
    Filter(symbols, (s: string) => s in values)
  }

  lemma KeptLast(symbols: seq<string>, values: map<string, real>)
    requires symbols != []
    ensures var earlier, last := Kept(symbols[..|symbols| - 1], values), symbols[|symbols| - 1];
            Kept(symbols, values) == if last in values then earlier + [last] else earlier
  {}

  lemma SumAppend(symbols: seq<string>, s: string, values: map<string, real>)
    requires s in values && forall x :: x in symbols ==> x in values
    ensures forall x :: x in symbols + [s] ==> x in values
    ensures SumOver(symbols + [s], values) == SumOver(symbols, values) + values[s]
  {
    assert (symbols + [s])[..|symbols|] == symbols;
  }

  lemma {:induction false} FilteredSum(symbols: seq<string>, values: map<string, real>, due: seq<Transaction>, prices: PriceTable, d: Date)
    requires forall s :: s in values ==> values[s] == Stake(due, prices, s, d)
    requires forall s :: s !in values ==> Net(due, s) == 0.0
    ensures SumOver(Kept(symbols, values), values) == StakeSum(symbols, due, prices, d)
  {
    hide Stake, Net, Kept, SumOver;
    if symbols == [] {
      NothingKept(values);
    } else {
      var init, last := symbols[..|symbols| - 1], symbols[|symbols| - 1];
      FilteredSum(init, values, due, prices, d);
      KeptLast(symbols, values);
      if last in values {
        SumAppend(Kept(init, values), last, values);
      } else {
        NoStake(due, prices, last, d);
      }
    }
  }

  lemma NothingKept(values: map<string, real>)
    ensures SumOver(Kept([], values), values) == 0.0
  {}

  lemma NoStake(due: seq<Transaction>, prices: PriceTable, s: string, d: Date)
    requires Net(due, s) == 0.0
    ensures Stake(due, prices, s, d) == 0.0
  {}

  ghost predicate InTextOrder(symbols: seq<string>) {
    forall i, j :: 0 <= i < j < |symbols| ==> symbols[i] != symbols[j] && TextLe(symbols[i], symbols[j])
  }

  predicate TextBefore(a: string, b: string) {
    a != b && TextLe(a, b)
  }

  /** The sorted keys of some values are the symbols among them, in the order of the symbols. */
  lemma KeysAmong(symbols: seq<string>, values: map<string, real>)
    requires InTextOrder(symbols) && forall s :: s in values ==> s in symbols
    ensures SortedTexts(values.Keys) == Kept(symbols, values)
  {
    hide TextLe;
    var kept := Kept(symbols, values);
    FilterSorted(symbols, (s: string) => s in values, TextBefore);
    assert Sorted(kept, TextBefore);
    TextLeIsTotalOrder();
    TextBeforeAscends(kept);
    TextBeforeAscends(SortedTexts(values.Keys));
    forall x ensures x in SortedTexts(values.Keys) <==> x in kept {}
    AscendingUnique(SortedTexts(values.Keys), kept, TextLe);
  }

  lemma TextBeforeAscends(xs: seq<string>)
    requires Sorted(xs, TextBefore) || InTextOrder(xs)
    ensures Ascending(xs, TextLe)
  {
    hide TextLe;
  }

  lemma ActiveIsNet(due: seq<Transaction>, s: string)
    requires Run(due).Ok?
    ensures s in Nonzero(Run(due).value.positions) <==> Net(due, s) != 0.0
    ensures s in Nonzero(Run(due).value.positions) ==> Nonzero(Run(due).value.positions)[s] == Net(due, s)
  {
    hide Run, Net;
    RunPositions(due);
    QuantityIsNet(due, s);
  }

  lemma LatestIsPriceAt(prices: PriceTable, d: Date, s: string)
    ensures s in LatestPrices(prices, d) <==> PriceAt(prices, s, d).Some?
    ensures s in LatestPrices(prices, d) ==> Some(LatestPrices(prices, d)[s]) == PriceAt(prices, s, d)
  {}

  lemma AssetIsStake(active: Quantities, latest: map<string, real>, due: seq<Transaction>, prices: PriceTable, d: Date, s: string)
    requires active.Keys <= latest.Keys && s in active
    requires active[s] == Net(due, s) && Some(latest[s]) == PriceAt(prices, s, d)
    ensures AssetValues(active, latest)[s] == Stake(due, prices, s, d)
  {
    hide Net, PriceAt;
  }

  /** The value of everything held is the sum of the stakes over the required symbols. */
  lemma TotalIsStakeSum(symbols: seq<string>, active: Quantities, latest: map<string, real>, due: seq<Transaction>, prices: PriceTable, d: Date)
    requires InTextOrder(symbols) && active.Keys <= latest.Keys && forall s :: s in active ==> s in symbols
    requires forall s :: s in active <==> Net(due, s) != 0.0
    requires forall s :: s in active ==> active[s] == Net(due, s)
    requires forall s :: s in latest ==> Some(latest[s]) == PriceAt(prices, s, d)
    ensures Total(AssetValues(active, latest)) == StakeSum(symbols, due, prices, d)
  {
    hide Net, PriceAt, Stake, StakeSum, SumOver, InTextOrder, SortedTexts, Kept;
    var values := AssetValues(active, latest);
    forall s | s in values ensures values[s] == Stake(due, prices, s, d) {
      AssetIsStake(active, latest, due, prices, d, s);
    }
    KeysAmong(symbols, values);
    FilteredSum(symbols, values, due, prices, d);
  }

  /**
   * A market date has a value exactly when everything held by then has been observed and cash and
   * stakes together are positive; the value is that total.
   */
  lemma ValueIs(inputs: Inputs, start: Date, end: Date, d: Date)
    requires Prepared(inputs, start, end) && RequiredPriced(inputs, start) && d in inputs.dates
    requires InTextOrder(inputs.symbols) && forall s :: s in inputs.prices ==> s in inputs.symbols
    requires Run(Through(inputs.ordered, LastDate(inputs))).Ok?
    ensures var due := Through(inputs.ordered, d);
            var total := BookOn(inputs.ordered, d).cash + StakeSum(inputs.symbols, due, inputs.prices, d);
            && (ValueOn(inputs.ordered, inputs.prices, d).Some? <==> AllPriced(due, inputs.prices, d) && total > 0.0)
            && (ValueOn(inputs.ordered, inputs.prices, d).Some? ==> ValueOn(inputs.ordered, inputs.prices, d).value == total)
  {
    hide Run, Through, LatestPrices, Nonzero, Total, AssetValues, Net, PriceAt, StakeSum, InTextOrder, Valid, LedgerLe, MarketDates,
      PositionsAfter, TradedFrom, GoodTable;
    DateInRange(inputs, start, end, d);
    RunThroughOk(inputs.ordered, d, LastDate(inputs));
    var due := Through(inputs.ordered, d);
    var active, latest := Nonzero(BookOn(inputs.ordered, d).positions), LatestPrices(inputs.prices, d);
    forall s
      ensures s in active <==> Net(due, s) != 0.0
      ensures s in active ==> active[s] == Net(due, s) && s in inputs.symbols
      ensures s in latest <==> PriceAt(inputs.prices, s, d).Some?
      ensures s in latest ==> Some(latest[s]) == PriceAt(inputs.prices, s, d)
    {
      ActiveIsNet(due, s);
      LatestIsPriceAt(inputs.prices, d, s);
      if s in active {
        ActiveIsRequired(inputs.ordered, start, d, s);
      }
    }
    if active.Keys <= latest.Keys {
      TotalIsStakeSum(inputs.symbols, active, latest, due, inputs.prices, d);
    }
  }

  lemma DateInRange(inputs: Inputs, start: Date, end: Date, d: Date)
    requires Prepared(inputs, start, end) && d in inputs.dates
    ensures start <= d <= LastDate(inputs)
  {
    assert d in ObservedDates(inputs.prices);
    LastIsGreatest(inputs.dates, d);
  }

  lemma LastIsGreatest(dates: seq<Date>, d: Date)
    requires AscendingDates(dates) && d in dates
    ensures d <= dates[|dates| - 1]
  {}

  lemma SymbolsInOrder(ts: seq<Transaction>, input: PriceInput, start: Date, end: Date)
    requires Prepare(ts, input, start, end).Ok?
    ensures var inputs := Prepare(ts, input, start, end).value;
            InTextOrder(inputs.symbols) && forall s :: s in inputs.prices ==> s in inputs.symbols
  {
    hide Prepare, Needed, TextLe, NeverOversold, SeriesHolds, Priced;
    PrepareIff(ts, input, start, end);
  }

  /**
   * In a completed valuation a market date is reported exactly when every symbol with a nonzero net
   * by then has been observed and the total is positive; the point then has that total and cash.
   */
  lemma ReportedExactly(ts: seq<Transaction>, input: PriceInput, start: Date, end: Date, d: Date)
    requires Valuate(ts, input, start, end).Ok? && d in Prepare(ts, input, start, end).value.dates
    ensures var inputs, v := Prepare(ts, input, start, end).value, Valuate(ts, input, start, end).value;
            var due := Through(inputs.ordered, d);
            && Run(due).Ok?
            && var total := Run(due).value.cash + StakeSum(inputs.symbols, due, inputs.prices, d);
            && ((exists p :: p in v.points && p.date == d) <==> AllPriced(due, inputs.prices, d) && total > 0.0)
            && (forall p :: p in v.points && p.date == d ==> p.totalValue == total && p.cashBalance == Run(due).value.cash)
  {
    hide Valuate, Prepare, Returns, Run, Through, PointsOn, ValueOn, StakeSum, AllPriced, RequiredPriced, InTextOrder, LatestPrices,
      WeightsOf, MarketDates, Prepared, AssetValues, Nonzero;
    Completed(ts, input, start, end);
    SymbolsInOrder(ts, input, start, end);
    var inputs, v := Prepare(ts, input, start, end).value, Valuate(ts, input, start, end).value;
    PreparedRows(inputs, start, end);
    DateInRange(inputs, start, end, d);
    RunThroughOk(inputs.ordered, d, LastDate(inputs));
    ValueIs(inputs, start, end, d);
    PointsFacts(inputs.ordered, inputs.prices, inputs.dates);
    if ValueOn(inputs.ordered, inputs.prices, d).Some? {
      var i := PointsComplete(inputs.ordered, inputs.prices, inputs.dates, d);
      assert v.points[i] in v.points && v.points[i].date == d;
    }
  }

  lemma PreparedRows(inputs: Inputs, start: Date, end: Date)
    requires Prepared(inputs, start, end)
    ensures InLedgerOrder(inputs.ordered) && AllValid(inputs.ordered)
  {}
}
