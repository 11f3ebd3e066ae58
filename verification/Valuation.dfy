/**
 * What a portfolio valuation is, date by date and from scratch: every date is valued from a
 * fresh replay of the rows dated on or before it and the prices observed by then.
 */
module Valuation {
  import opened Wrappers
  import opened Text
  import opened Transactions
  import opened Holdings
  import opened Replay

  datatype PriceBar = PriceBar(symbol: string, date: Date, adjustedClose: Decimal)

  /** The price mapping, as the items of a dict in insertion order. */
  type PriceInput = seq<(string, seq<PriceBar>)>

  type Series = map<Date, real>
  type PriceTable = map<string, Series>

  datatype Point = Point(date: Date, totalValue: real, cashBalance: real, netExternalFlow: real)
  datatype Weight = Weight(symbol: string, marketValue: real, weight: real)
  datatype PortfolioValuation = PortfolioValuation(
    points: seq<Point>,
    periodReturns: seq<real>,
    portfolioValue: real,
    cashBalance: real,
    weights: seq<Weight>)

  /** Validation in input order, then the rows up to `end` in ledger order. */
  function OrderedTransactions(ts: seq<Transaction>, end: Date): Result<seq<Transaction>, ValuationError> {
    var invalid := FirstInvalid(ts);
    if invalid.Some? then Err(InvalidTransaction(invalid.value)) else Ok(LedgerSort(Through(ts, end)))
  }

  function TradedFrom(ordered: seq<Transaction>, start: Date): set<string> {
    set t | t in ordered && DateOf(t) >= start && t.symbol.Some? :: t.symbol.value
  }

  function RequiredSymbols(ts: seq<Transaction>, start: Date, end: Date): Result<seq<string>, ValuationError> {
    if start > end then Err(RangeReversed)
    else
      var ordered :- OrderedTransactions(ts, end);
      match PositionsAfter(Through(ordered, start - 1))
      case Err(s) => Err(SellExceeds(s))
      case Ok(q) => Ok(SortedTexts(Nonzero(q).Keys + TradedFrom(ordered, start)))
  }

  /** `{key.upper(): bars}`: a later entry replaces an earlier one with the same upper-cased key. */
  function BarsFor(input: PriceInput, s: string): seq<PriceBar> {
    if input == [] then []
    else if Upper(input[|input| - 1].0) == s then input[|input| - 1].1
    else BarsFor(input[..|input| - 1], s)
  }

  function AddBar(series: Series, s: string, bar: PriceBar, start: Date, end: Date): Result<Series, ValuationError> {
    if Upper(bar.symbol) != s then Err(BarSymbolMismatch(s))
    else if !bar.adjustedClose.Finite? || bar.adjustedClose.value <= 0.0 then Err(BarPriceNotPositive(s))
    else if !(start <= bar.date <= end) then Ok(series)
    else if bar.date in series then Err(DuplicatePriceDate(s, bar.date))
    else Ok(series[bar.date := bar.adjustedClose.value])
  }

  function SeriesOf(s: string, bars: seq<PriceBar>, start: Date, end: Date): Result<Series, ValuationError> {
    if bars == [] then Ok(map[])
    else
      var series :- SeriesOf(s, bars[..|bars| - 1], start, end);
      AddBar(series, s, bars[|bars| - 1], start, end)
  }

  function ValidSeries(s: string, bars: seq<PriceBar>, start: Date, end: Date): Result<Series, ValuationError> {
    var series :- SeriesOf(s, bars, start, end);
    if series == map[] then Err(NoBarsInRange(s)) else Ok(series)
  }

  function ValidatedPrices(symbols: seq<string>, input: PriceInput, start: Date, end: Date)
    : Result<PriceTable, ValuationError>
  {
    if symbols == [] then Ok(map[])
    else
      var s := symbols[|symbols| - 1];
      var table :- ValidatedPrices(symbols[..|symbols| - 1], input, start, end);
      var series :- ValidSeries(s, BarsFor(input, s), start, end);
      Ok(table[s := series])
  }

  function ObservedDates(prices: PriceTable): set<Date> {
    set s, d | s in prices && d in prices[s] :: d
  }

  function MarketDates(prices: PriceTable): seq<Date> {
    SortedInts(ObservedDates(prices))
  }

  function Greatest(dates: set<Date>): (d: Date)
    requires dates != {}
    ensures d in dates && forall x :: x in dates ==> x <= d
  {
    var ascending := SortedInts(dates);
    assert ascending != [] by {
      var x :| x in dates;
      assert x in ascending;
    }
    var d := ascending[|ascending| - 1];
    assert d in ascending;
    assert forall x :: x in dates ==> x in ascending;
    d
  }

  /** The price at the greatest date observed on or before `d`. */
  function LatestPrice(series: Series, d: Date): (r: Option<real>)
    ensures r.None? <==> forall x :: x in series ==> x > d
    ensures r.Some? ==> exists x :: x in series && x <= d && r.value == series[x]
                                    && forall y :: y in series && y <= d ==> y <= x
  {
    var seen := set x | x in series && x <= d;
    assert forall x :: x in series && x <= d <==> x in seen;
    if seen == {} then None
    else
      var last := Greatest(seen);
      assert last in seen;
      Some(series[last])
  }

  function LatestPrices(prices: PriceTable, d: Date): map<string, real> {
    map s | s in prices && LatestPrice(prices[s], d).Some? :: LatestPrice(prices[s], d).value
  }

  function SumOver(symbols: seq<string>, values: map<string, real>): real
    requires forall s :: s in symbols ==> s in values
  {
    if symbols == [] then 0.0
    else
      assert symbols[|symbols| - 1] in symbols;
      SumOver(symbols[..|symbols| - 1], values) + values[symbols[|symbols| - 1]]
  }

  function Total(values: map<string, real>): real {
    SumOver(SortedTexts(values.Keys), values)
  }

  lemma OneAsset(price: real)
    ensures Total(map["A" := price]) == price
  {
    Singleton("A");
    var values := map["A" := price];
    assert values.Keys == {"A"};
    assert ["A"][..0] == [];
    assert SumOver(["A"], values) == SumOver([], values) + price;
  }

  lemma NoAssets()
    ensures Total(map[]) == 0.0
  {}

  function AssetValues(active: Quantities, latest: map<string, real>): map<string, real>
    requires active.Keys <= latest.Keys
  {
    map s | s in active :: active[s] * latest[s]
  }

  /** The portfolio value, or None when the date is skipped. */
  function ValueOf(b: Book, latest: map<string, real>): Option<real> {
    var active := Nonzero(b.positions);
    if !(active.Keys <= latest.Keys) then None
    else
      var total := b.cash + Total(AssetValues(active, latest));
      if total <= 0.0 then None else Some(total)
  }

  /** The book at the end of day `d`, replayed from the first row. */
  function BookOn(ordered: seq<Transaction>, d: Date): Book {
    var r := Run(Through(ordered, d));
    if r.Ok? then r.value else EMPTY_BOOK
  }

  function ValueOn(ordered: seq<Transaction>, prices: PriceTable, d: Date): Option<real> {
    ValueOf(BookOn(ordered, d), LatestPrices(prices, d))
  }

  /** External flow up to and including the last emitted point. */
  function FlowReported(ordered: seq<Transaction>, points: seq<Point>): real {
    if points == [] then 0.0 else BookOn(ordered, points[|points| - 1].date).flow
  }

  function PointsOn(ordered: seq<Transaction>, prices: PriceTable, dates: seq<Date>): seq<Point> {
    if dates == [] then []
    else
      var earlier := PointsOn(ordered, prices, dates[..|dates| - 1]);
      var d := dates[|dates| - 1];
      match ValueOn(ordered, prices, d)
      case None => earlier
      case Some(total) =>
        var b := BookOn(ordered, d);
        earlier + [Point(d, total, b.cash, b.flow - FlowReported(ordered, earlier))]
  }

  function NextReturn(previous: Point, current: Point): Result<real, ValuationError> {
    var adjusted := current.totalValue - current.netExternalFlow;
    if previous.totalValue <= 0.0 then Err(PreviousValueNotPositive)
    else if adjusted <= 0.0 then Err(AdjustedValueNotPositive)
    else Ok(adjusted / previous.totalValue - 1.0)
  }

  function Returns(points: seq<Point>): Result<seq<real>, ValuationError> {
    if |points| <= 1 then Ok([])
    else
      var earlier :- Returns(points[..|points| - 1]);
      var next :- NextReturn(points[|points| - 2], points[|points| - 1]);
      Ok(earlier + [next])
  }

  lemma {:induction false} ReturnsLength(points: seq<Point>)
    requires Returns(points).Ok? && points != []
    ensures |Returns(points).value| == |points| - 1
  {
    if |points| > 1 {
      ReturnsLength(points[..|points| - 1]);
    }
  }

  function WeightsOf(values: map<string, real>, total: real): (r: seq<Weight>)
    requires total > 0.0
    ensures |r| == |values|
  {
    var symbols := SortedTexts(values.Keys);
    seq(|symbols|, i requires 0 <= i < |symbols| =>
      assert symbols[i] in symbols;
      Weight(symbols[i], values[symbols[i]], values[symbols[i]] / total))
  }

  /** The report made from the points and the book and prices after the last date. */
  function Finish(points: seq<Point>, b: Book, latest: map<string, real>)
    : (r: Result<PortfolioValuation, ValuationError>)
    requires forall i :: 0 <= i < |points| ==> points[i].totalValue > 0.0
    ensures r.Ok? ==> r.value.points != [] && r.value.portfolioValue > 0.0
  {
    if points == [] then Err(NoPositiveBalance)
    else
      var active := Nonzero(b.positions);
      if !(active.Keys <= latest.Keys) then
        var missing := active.Keys - latest.Keys;
        assert |missing| > 0 by {
          var s :| s in active.Keys && s !in latest.Keys;
          assert s in missing;
        }
        Err(NoUsablePrice(SortedTexts(missing)[0]))
      else
        var last := points[|points| - 1];
        var weights := WeightsOf(AssetValues(active, latest), last.totalValue);
        var periodReturns :- Returns(points);
        Ok(PortfolioValuation(points, periodReturns, last.totalValue, last.cashBalance, weights))
  }

  /** What an emitted point reports, apart from its flow. */
  ghost predicate Reports(p: Point, ordered: seq<Transaction>, prices: PriceTable) {
    && p.totalValue > 0.0
    && ValueOn(ordered, prices, p.date) == Some(p.totalValue)
    && p.cashBalance == BookOn(ordered, p.date).cash
  }

  predicate AscendingDates(dates: seq<Date>) {
    forall i, j :: 0 <= i < j < |dates| ==> dates[i] < dates[j]
  }

  predicate AscendingPoints(ps: seq<Point>) {
    forall i, j :: 0 <= i < j < |ps| ==> ps[i].date < ps[j].date
  }

  lemma ValuePositive(ordered: seq<Transaction>, prices: PriceTable, d: Date)
    requires ValueOn(ordered, prices, d).Some?
    ensures ValueOn(ordered, prices, d).value > 0.0
  {
    hide BookOn, LatestPrices;
  }

  lemma AppendAscending(ps: seq<Point>, p: Point)
    requires AscendingPoints(ps) && forall q :: q in ps ==> q.date < p.date
    ensures AscendingPoints(ps + [p])
  {}

  /** A point is emitted for exactly the dates that have a value, in date order. */
  lemma {:induction false} PointsFacts(ordered: seq<Transaction>, prices: PriceTable, dates: seq<Date>)
    requires AscendingDates(dates)
    ensures AscendingPoints(PointsOn(ordered, prices, dates))
    ensures forall p :: p in PointsOn(ordered, prices, dates) ==> p.date in dates && Reports(p, ordered, prices)
  {
    hide ValueOn, BookOn, FlowReported;
    if dates != [] {
      var init, d := dates[..|dates| - 1], dates[|dates| - 1];
      PointsFacts(ordered, prices, init);
      var earlier, all := PointsOn(ordered, prices, init), PointsOn(ordered, prices, dates);
      assert forall x :: x in init ==> x < d;
      if ValueOn(ordered, prices, d).Some? {
        AppendAscending(earlier, all[|all| - 1]);
      }
      forall p | p in all ensures p.date in dates && Reports(p, ordered, prices) {
        if p !in earlier {
          assert p == all[|all| - 1];
          ValuePositive(ordered, prices, d);
        }
      }
    }
  }

  /** Every date with a value has its point. */
  lemma {:induction false} PointsComplete(ordered: seq<Transaction>, prices: PriceTable, dates: seq<Date>, d: Date)
    returns (i: nat)
    requires d in dates && ValueOn(ordered, prices, d).Some?
    ensures i < |PointsOn(ordered, prices, dates)| && PointsOn(ordered, prices, dates)[i].date == d
  {
    hide ValueOn, BookOn, FlowReported;
    var n := |dates| - 1;
    if dates[n] == d {
      i := |PointsOn(ordered, prices, dates)| - 1;
    } else {
      i := PointsComplete(ordered, prices, dates[..n], d);
    }
  }

  /** Everything a valuation works on: the symbols it prices, their series, the market dates, the ordered rows. */
  datatype Inputs = Inputs(symbols: seq<string>, prices: PriceTable, dates: seq<Date>, ordered: seq<Transaction>)

  function Prepare(ts: seq<Transaction>, input: PriceInput, start: Date, end: Date): (r: Result<Inputs, ValuationError>)
    ensures r.Ok? ==> r.value.dates != [] && AscendingDates(r.value.dates)
  {
    var symbols :- RequiredSymbols(ts, start, end);
    if symbols == [] then Err(NoSecurityHoldings)
    else
      var prices :- ValidatedPrices(symbols, input, start, end);
      var dates := MarketDates(prices);
      if dates == [] then Err(NoMarketDates)
      else
        var ordered :- OrderedTransactions(ts, end);
        Ok(Inputs(symbols, prices, dates, ordered))
  }

  function LastDate(inputs: Inputs): Date
    requires inputs.dates != []
  {
    inputs.dates[|inputs.dates| - 1]
  }

  function PointsOf(inputs: Inputs): (ps: seq<Point>)
    requires AscendingDates(inputs.dates)
    ensures forall i :: 0 <= i < |ps| ==> ps[i].totalValue > 0.0
  {
    PointsFacts(inputs.ordered, inputs.prices, inputs.dates);
    var ps := PointsOn(inputs.ordered, inputs.prices, inputs.dates);
    assert forall i :: 0 <= i < |ps| ==> ps[i] in ps;
    ps
  }

  function ValuateInputs(inputs: Inputs): (r: Result<PortfolioValuation, ValuationError>)
    requires inputs.dates != [] && AscendingDates(inputs.dates)
    ensures r.Ok? ==> r.value.points != [] && r.value.portfolioValue > 0.0
  {
    var book :- Run(Through(inputs.ordered, LastDate(inputs)));
    Finish(PointsOf(inputs), book, LatestPrices(inputs.prices, LastDate(inputs)))
  }

  /** The valuation of a ledger over [start, end]. */
  function Valuate(ts: seq<Transaction>, input: PriceInput, start: Date, end: Date)
    : (r: Result<PortfolioValuation, ValuationError>)
    ensures r.Ok? ==> Prepare(ts, input, start, end).Ok? && r.value.points != [] && r.value.portfolioValue > 0.0
  {
    var inputs :- Prepare(ts, input, start, end);
    ValuateInputs(inputs)
  }
}
