/** When a valuation is prepared and when it completes, said of its inputs, and what it then reports. */
module Completion {
  import opened Wrappers
  import opened Text
  import opened Transactions
  import opened Holdings
  import opened Replay
  import opened Valuation
  import opened EndState
  import opened PriceSeries

  /** A position after the rows dated before `start`, or a trade dated in the range. */
  ghost predicate Needed(ts: seq<Transaction>, start: Date, end: Date, s: string) {
    || Net(LedgerSort(Through(ts, start - 1)), s) != 0.0
    || exists t :: t in ts && start <= DateOf(t) <= end && t.symbol == Some(s)
  }

  lemma OpeningRows(ts: seq<Transaction>, start: Date, end: Date)
    requires start <= end
    ensures Through(LedgerSort(Through(ts, end)), start - 1) == LedgerSort(Through(ts, start - 1))
  {
    hide Through, LedgerSort;
    ThroughSort(Through(ts, end), start - 1);
    ThroughThrough(ts, start - 1, end);
  }

  lemma TradedIs(ts: seq<Transaction>, start: Date, end: Date, s: string)
    ensures s in TradedFrom(LedgerSort(Through(ts, end)), start)
            <==> exists t :: t in ts && start <= DateOf(t) <= end && t.symbol == Some(s)
  {
    hide DateOf, LedgerSort;
    LedgerSortFacts(Through(ts, end));
    var ordered := LedgerSort(Through(ts, end));
    if s in TradedFrom(ordered, start) {
      var t :| t in ordered && DateOf(t) >= start && t.symbol.Some? && t.symbol.value == s;
      assert t in ts && DateOf(t) <= end;
    }
    if t :| t in ts && start <= DateOf(t) <= end && t.symbol == Some(s) {
      assert t in ordered;
    }
  }

  lemma PartValid(ts: seq<Transaction>, d: Date)
    requires AllValid(ts)
    ensures AllValid(LedgerSort(Through(ts, d)))
  {
    ThroughValid(ts, d);
    LedgerSortFacts(Through(ts, d));
  }

  /**
   * The required symbols are found exactly when the range is not reversed, every row is valid and
   * the rows before the range never oversell; they are then the needed ones, each once, in text order.
   */
  lemma RequiredSymbolsIff(ts: seq<Transaction>, start: Date, end: Date)
    ensures RequiredSymbols(ts, start, end).Ok?
            <==> start <= end && AllValid(ts) && NeverOversold(LedgerSort(Through(ts, start - 1)))
    ensures RequiredSymbols(ts, start, end).Ok? ==>
              var symbols := RequiredSymbols(ts, start, end).value;
              && (forall i, j :: 0 <= i < j < |symbols| ==> symbols[i] != symbols[j] && TextLe(symbols[i], symbols[j]))
              && (forall s :: s in symbols <==> Needed(ts, start, end, s))
  {
    hide Valid, LedgerSort, Through, NeverOversold, TradedFrom, PositionsAfter, Net, TextLe, FirstInvalid, Nonzero;
    if start <= end && AllValid(ts) {
      OpeningRows(ts, start, end);
      var opening := LedgerSort(Through(ts, start - 1));
      PartValid(ts, start - 1);
      AcceptedIffNeverOversold(opening);
      if PositionsAfter(opening).Ok? {
        forall s ensures s in RequiredSymbols(ts, start, end).value <==> Needed(ts, start, end, s) {
          QuantityIsNet(opening, s);
          NonzeroIsHeld(PositionsAfter(opening).value, s);
          TradedIs(ts, start, end, s);
        }
      }
    }
  }

  lemma NonzeroIsHeld(q: Quantities, s: string)
    ensures s in Nonzero(q) <==> Held(q, s) != 0.0
  {}

  /** The bars under a symbol are those of the last entry whose upper-cased key it is. */
  lemma {:induction false} BarsForLast(input: PriceInput, s: string, i: nat)
    requires i < |input| && Upper(input[i].0) == s && forall j :: i < j < |input| ==> Upper(input[j].0) != s
    ensures BarsFor(input, s) == input[i].1
  {
    hide Upper;
    if i < |input| - 1 {
      BarsForLast(input[..|input| - 1], s, i);
    }
  }

  lemma {:induction false} BarsForNone(input: PriceInput, s: string)
    requires forall i :: 0 <= i < |input| ==> Upper(input[i].0) != s
    ensures BarsFor(input, s) == []
  {
    hide Upper;
    if input != [] {
      BarsForNone(input[..|input| - 1], s);
    }
  }

  /** Bars that a valuation over [start, end] accepts for a symbol: at least one of them is in range. */
  ghost predicate Priced(s: string, bars: seq<PriceBar>, start: Date, end: Date) {
    GoodBars(s, bars) && DatesDistinct(bars, start, end) && exists bar :: bar in bars && start <= bar.date <= end
  }

  lemma ValidSeriesIff(s: string, bars: seq<PriceBar>, start: Date, end: Date)
    ensures ValidSeries(s, bars, start, end).Ok? <==> Priced(s, bars, start, end)
    ensures ValidSeries(s, bars, start, end).Ok? ==> SeriesHolds(ValidSeries(s, bars, start, end).value, bars, start, end)
  {
    hide SeriesOf, GoodBars, DatesDistinct;
    SeriesAcceptedIff(s, bars, start, end);
    if SeriesOf(s, bars, start, end).Ok? {
      var series := SeriesOf(s, bars, start, end).value;
      if bar :| bar in bars && start <= bar.date <= end {
        assert bar.date in series;
      }
      if series != map[] {
        NonemptySeries(series);
        var d :| d in series;
      }
    }
  }

  /**
   * Preparation succeeds exactly when the required symbols are found, there is one, and each has an
   * accepted series; the inputs are then the rows up to `end` in ledger order, those symbols, their
   * bars in range, and the dates of those bars in ascending order.
   */
  lemma PrepareIff(ts: seq<Transaction>, input: PriceInput, start: Date, end: Date)
    ensures Prepare(ts, input, start, end).Ok? <==>
      && start <= end && AllValid(ts) && NeverOversold(LedgerSort(Through(ts, start - 1)))
      && (exists s :: Needed(ts, start, end, s))
      && (forall s :: Needed(ts, start, end, s) ==> Priced(s, BarsFor(input, s), start, end))
    ensures Prepare(ts, input, start, end).Ok? ==>
      var inputs := Prepare(ts, input, start, end).value;
      && inputs.ordered == LedgerSort(Through(ts, end))
      && (forall i, j :: 0 <= i < j < |inputs.symbols| ==>
           inputs.symbols[i] != inputs.symbols[j] && TextLe(inputs.symbols[i], inputs.symbols[j]))
      && (forall s :: s in inputs.symbols <==> Needed(ts, start, end, s))
      && (forall s :: s in inputs.prices <==> Needed(ts, start, end, s))
      && (forall s :: s in inputs.prices ==> SeriesHolds(inputs.prices[s], BarsFor(input, s), start, end))
      && AscendingDates(inputs.dates)
      && (forall d :: d in inputs.dates <==> exists s :: s in inputs.prices && d in inputs.prices[s])
  {
    hide RequiredSymbols, LedgerSort, Through, NeverOversold, ValidSeries, Needed, Valid, BarsFor, FirstInvalid, SeriesHolds, Priced,
      ValidatedPrices, MarketDates, TextLe;
    RequiredSymbolsIff(ts, start, end);
    PrepareErrors(ts, input, start, end);
    var required := RequiredSymbols(ts, start, end);
    if required.Ok? {
      var symbols := required.value;
      assert symbols != [] ==> symbols[0] in symbols;
      TableAcceptedIff(symbols, input, start, end);
      forall s {
        ValidSeriesIff(s, BarsFor(input, s), start, end);
      }
      if Prepare(ts, input, start, end).Ok? {
        DatesAre(Prepare(ts, input, start, end).value.prices);
      }
    }
  }

  /**
   * The first thing wrong decides: the range, then the first invalid row in the order given, then a
   * position oversold before the range, then that there is nothing to price, then the prices.
   */
  lemma PrepareRefusal(ts: seq<Transaction>, input: PriceInput, start: Date, end: Date)
    requires Prepare(ts, input, start, end).Err?
    ensures var e := Prepare(ts, input, start, end).error;
            if start > end then e == RangeReversed
            else if !AllValid(ts) then FirstInvalid(ts).Some? && e == InvalidTransaction(FirstInvalid(ts).value)
            else if !NeverOversold(LedgerSort(Through(ts, start - 1))) then e.SellExceeds?
            else if !exists s :: Needed(ts, start, end, s) then e == NoSecurityHoldings
            else PriceError(e) && Err(e) == ValidatedPrices(RequiredSymbols(ts, start, end).value, input, start, end)
  {
    hide LedgerSort, Through, NeverOversold, ValidSeries, Needed, Valid, BarsFor, TradedFrom, PositionsAfter, Nonzero, ValidatedPrices,
      MarketDates;
    RequiredSymbolsIff(ts, start, end);
    PrepareErrors(ts, input, start, end);
    if RequiredSymbols(ts, start, end).Ok? {
      var symbols := RequiredSymbols(ts, start, end).value;
      assert symbols != [] ==> symbols[0] in symbols;
      PricesErrors(symbols, input, start, end);
    }
  }

  /** The row that decides an invalid ledger. */
  lemma {:induction false} FirstInvalidIs(ts: seq<Transaction>) returns (i: nat)
    requires !AllValid(ts)
    ensures i < |ts| && AllValid(ts[..i]) && !Valid(ts[i]) && FirstInvalid(ts) == Validate(ts[i])
  {
    hide Validate, Valid;
    var n := |ts| - 1;
    if !AllValid(ts[..n]) {
      i := FirstInvalidIs(ts[..n]);
      assert ts[..n][..i] == ts[..i];
    } else {
      i := n;
      NotValidLast(ts);
    }
  }

  lemma NotValidLast(ts: seq<Transaction>)
    requires ts != [] && AllValid(ts[..|ts| - 1]) && !AllValid(ts)
    ensures !Valid(ts[|ts| - 1]) && FirstInvalid(ts) == Validate(ts[|ts| - 1])
  {
    hide Validate;
    assert forall i :: 0 <= i < |ts| - 1 ==> ts[i] == ts[..|ts| - 1][i];
  }

  lemma DatesAre(prices: PriceTable)
    ensures AscendingDates(MarketDates(prices))
    ensures forall d :: d in MarketDates(prices) <==> exists s :: s in prices && d in prices[s]
  {}

  /** The return of a period that starts at `before` and ends at `after`, `flow` of which came from outside. */
  function PeriodReturn(before: real, after: real, flow: real): real
    requires before > 0.0
  {
    (after - flow) / before - 1.0
  }

  /** What is left of a value without the flow of its period. */
  function WithoutFlow(p: Point): real {
    p.totalValue - p.netExternalFlow
  }

  /**
   * Returns exist exactly when no period ends with nothing but its own flow, and each is then the
   * end value without the flow over the start value, less one.
   */
  lemma {:induction false} ReturnsIff(points: seq<Point>)
    requires forall i :: 0 <= i < |points| ==> points[i].totalValue > 0.0
    ensures Returns(points).Ok? <==> forall i :: 1 <= i < |points| ==> WithoutFlow(points[i]) > 0.0
    ensures Returns(points).Err? ==> Returns(points) == Err(AdjustedValueNotPositive)
    ensures Returns(points).Ok? && points != [] ==> |Returns(points).value| == |points| - 1
    ensures Returns(points).Ok? ==> forall i :: 0 <= i < |Returns(points).value| && i + 1 < |points| ==>
              Returns(points).value[i] == PeriodReturn(points[i].totalValue, points[i + 1].totalValue, points[i + 1].netExternalFlow)
  {
    if |points| > 1 {
      var init := points[..|points| - 1];
      ReturnsIff(init);
      NextReturnIs(points[|points| - 2], points[|points| - 1]);
      hide NextReturn, PeriodReturn, WithoutFlow;
      assert forall i :: 0 <= i < |init| ==> init[i] == points[i];
    }
  }

  lemma NextReturnIs(p: Point, q: Point)
    requires p.totalValue > 0.0
    ensures NextReturn(p, q) == if WithoutFlow(q) > 0.0 then Ok(PeriodReturn(p.totalValue, q.totalValue, q.netExternalFlow))
                                else Err(AdjustedValueNotPositive)
  {}

  /** Every later value exceeds the flow reported with it. */
  ghost predicate FlowsCovered(points: seq<Point>) {
    forall i :: 1 <= i < |points| ==> points[i].totalValue - points[i].netExternalFlow > 0.0
  }

  /**
   * A prepared valuation completes exactly when the replay through the last market date succeeds,
   * some date has a value, and no later value is at or below its own flow. It then reports those
   * points, the value and cash of the last one, and one return per period.
   */
  lemma CompletesIff(ts: seq<Transaction>, input: PriceInput, start: Date, end: Date)
    requires Prepare(ts, input, start, end).Ok?
    ensures var inputs := Prepare(ts, input, start, end).value;
            var replay, points := Run(Through(inputs.ordered, LastDate(inputs))), PointsOf(inputs);
            && (Valuate(ts, input, start, end).Ok? <==> replay.Ok? && points != [] && FlowsCovered(points))
            && (replay.Err? ==> Valuate(ts, input, start, end) == Err(replay.error))
            && (replay.Ok? && points == [] ==> Valuate(ts, input, start, end) == Err(NoPositiveBalance))
            && (replay.Ok? && points != [] && !FlowsCovered(points) ==> Valuate(ts, input, start, end) == Err(AdjustedValueNotPositive))
            && (Valuate(ts, input, start, end).Ok? ==> Reported(Valuate(ts, input, start, end).value, points))
  {
    hide Prepare, Run, Through, LatestPrices, PointsOf, Returns, WeightsOf, AssetValues, Nonzero, Prepared, RequiredPriced, PeriodReturn;
    PrepareFacts(ts, input, start, end);
    var inputs := Prepare(ts, input, start, end).value;
    if Run(Through(inputs.ordered, LastDate(inputs))).Ok? {
      LastDateValue(inputs, start, end);
      ReturnsIff(PointsOf(inputs));
    }
  }

  /** What a completed valuation reports of its points. */
  ghost predicate Reported(v: PortfolioValuation, points: seq<Point>) {
    && points != [] && v.points == points
    && v.portfolioValue == points[|points| - 1].totalValue && v.cashBalance == points[|points| - 1].cashBalance
    && |v.periodReturns| == |points| - 1
    && forall i :: 0 <= i < |v.periodReturns| ==>
         points[i].totalValue > 0.0
         && v.periodReturns[i] == PeriodReturn(points[i].totalValue, points[i + 1].totalValue, points[i + 1].netExternalFlow)
  }
}
