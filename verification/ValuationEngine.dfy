/**
 * The valuation as it is computed: one forward pass over the market dates that carries
 * positions, cash, latest prices and a pending external flow. Each method is proved to
 * compute the from-scratch definitions of module Valuation.
 */
module ValuationEngine {
  import opened Wrappers
  import opened Text
  import opened Transactions
  import opened Holdings
  import opened Replay
  import opened Valuation
  import PriceSeries

  /** The mutable positions dict. */
  class Positions {
    var quantities: Quantities

    constructor ()
      ensures quantities == map[]
    {
      quantities := map[];
    }

    method ApplyPositionChange(t: Transaction) returns (oversold: Option<string>)
      modifies this
      ensures match ApplyPosition(old(quantities), t)
              case Ok(q) => oversold == None && quantities == q
              case Err(s) => oversold == Some(s) && quantities == old(quantities)
    {
      if !t.IsTrade() {
        return None;
      }
      var current := if Sym(t) in quantities then quantities[Sym(t)] else 0.0;
      if t.kind.BUY? {
        quantities := quantities[Sym(t) := current + Qty(t)];
        return None;
      }
      var updated := current - Qty(t);
      if updated < 0.0 {
        return Some(Sym(t));
      }
      quantities := quantities[Sym(t) := updated];
      return None;
    }
  }

  /** Returns the new cash balance and the external flow of this row; `flow` is the flow so far. */
  method ApplyTransaction(positions: Positions, cashBalance: real, t: Transaction, ghost flow: real)
    returns (r: Result<(real, real), ValuationError>)
    modifies positions
    ensures match Apply(Book(old(positions.quantities), cashBalance, flow), t)
            case Ok(b) => r.Ok? && b == Book(positions.quantities, r.value.0, flow + r.value.1)
            case Err(e) => r == Err(e)
  {
    hide Validate, Cost, Proceeds;
    var invalid := Validate(t);
    if invalid.Some? {
      return Err(InvalidTransaction(invalid.value));
    }
    var cash := cashBalance;
    var externalFlow := 0.0;
    match t.kind {
      case DEPOSIT =>
        cash := cash + (Amount(t) - Fee(t));
        externalFlow := Amount(t);
      case WITHDRAWAL =>
        var requiredCash := Amount(t) + Fee(t);
        if requiredCash > cash {
          return Err(WithdrawalExceedsCash);
        }
        cash := cash - requiredCash;
        externalFlow := -Amount(t);
      case BUY =>
        var requiredCash := Cost(t);
        if requiredCash > cash {
          var contribution := requiredCash - cash;
          cash := cash + contribution;
          externalFlow := contribution;
        }
        cash := cash - requiredCash;
        var _ := positions.ApplyPositionChange(t);
      case SELL =>
        var oversold := positions.ApplyPositionChange(t);
        if oversold.Some? {
          return Err(SellExceeds(oversold.value));
        }
        cash := cash + (Proceeds(t) - Fee(t));
    }
    if cash < 0.0 {
      return Err(FeesExceedCash);
    }
    return Ok((cash, externalFlow));
  }

  /** `_ordered_transactions`: validate each row, keep those up to `end`, sort. */
  method OrderTransactions(ts: seq<Transaction>, end: Date) returns (r: Result<seq<Transaction>, ValuationError>)
    ensures r == OrderedTransactions(ts, end)
  {
    hide FirstInvalid, Validate, LedgerSort, Through, DateOf;
    var included: seq<Transaction> := [];
    FirstInvalidOfNone(ts[..0]);
    AllThrough(ts[..0], end);
    for i := 0 to |ts|
      invariant FirstInvalid(ts[..i]).None?
      invariant included == Through(ts[..i], end)
    {
      FirstInvalidStep(ts, i);
      var invalid := Validate(ts[i]);
      if invalid.Some? {
        return Err(InvalidTransaction(invalid.value));
      }
      assert ts[..i + 1] == ts[..i] + [ts[i]];
      ThroughAppend(ts[..i], ts[i], end);
      if DateOf(ts[i]) <= end {
        included := included + [ts[i]];
      }
    }
    assert ts[..|ts|] == ts;
    return Ok(LedgerSort(included));
  }

  method RequiredPriceSymbols(ts: seq<Transaction>, start: Date, end: Date)
    returns (r: Result<seq<string>, ValuationError>)
    ensures r == RequiredSymbols(ts, start, end)
  {
    hide PositionsAfter, Through, LedgerSort, TradedFrom, Nonzero, FirstInvalid;
    if start > end {
      return Err(RangeReversed);
    }
    var ordering := OrderTransactions(ts, end);
    if ordering.Err? {
      return Err(ordering.error);
    }
    var ordered := ordering.value;
    LedgerSortFacts(Through(ts, end));
    var held := OpeningPositions(ordered, start);
    if held.Err? {
      return Err(SellExceeds(held.error));
    }
    return Ok(SortedTexts(Nonzero(held.value).Keys + TradedFrom(ordered, start)));
  }

  /** The loop of `required_price_symbols`: rows dated before `start` update the positions. */
  method OpeningPositions(ordered: seq<Transaction>, start: Date) returns (r: Result<Quantities, string>)
    requires InLedgerOrder(ordered)
    ensures r == PositionsAfter(Through(ordered, start - 1))
  {
    hide PositionsAfter, LedgerLe, DateOf, Through, ApplyPosition;
    var positions := new Positions();
    ghost var n := ThroughPrefix(ordered, start - 1);
    ghost var opening := ordered[..n];
    PositionsOfNone(opening[..0]);
    for i := 0 to |ordered|
      invariant PositionsAfter(opening[..if i < n then i else n]) == Ok(positions.quantities)
    {
      var t := ordered[i];
      if DateOf(t) >= start {
        continue;
      }
      PositionsStep(opening, i);
      var oversold := positions.ApplyPositionChange(t);
      if oversold.Some? {
        return Err(oversold.value);
      }
    }
    assert opening[..n] == opening;
    return Ok(positions.quantities);
  }

  /** The outer loop of `_validated_prices`, over the symbols. */
  method ValidatedPricesLoop(symbols: seq<string>, input: PriceInput, start: Date, end: Date)
    returns (r: Result<PriceTable, ValuationError>)
    ensures r == ValidatedPrices(symbols, input, start, end)
  {
    hide SeriesOf;
    var validated: PriceTable := map[];
    for i := 0 to |symbols|
      invariant ValidatedPrices(symbols[..i], input, start, end) == Ok(validated)
    {
      var s := symbols[i];
      assert symbols[..i + 1][..i] == symbols[..i];
      var symbolPrices := SymbolPricesLoop(s, BarsFor(input, s), start, end);
      if symbolPrices.Err? {
        PricesErrorPrefix(symbols, input, start, end, i + 1);
        return Err(symbolPrices.error);
      }
      if symbolPrices.value == map[] {
        PricesErrorPrefix(symbols, input, start, end, i + 1);
        return Err(NoBarsInRange(s));
      }
      validated := validated[s := symbolPrices.value];
    }
    assert symbols[..|symbols|] == symbols;
    return Ok(validated);
  }

  /** The inner loop, over the bars of one symbol. */
  method SymbolPricesLoop(s: string, bars: seq<PriceBar>, start: Date, end: Date) returns (r: Result<Series, ValuationError>)
    ensures r == SeriesOf(s, bars, start, end)
  {
    hide Upper;
    var symbolPrices: Series := map[];
    for j := 0 to |bars|
      invariant SeriesOf(s, bars[..j], start, end) == Ok(symbolPrices)
    {
      var bar := bars[j];
      assert bars[..j + 1][..j] == bars[..j];
      var failure: Option<ValuationError> := None;
      if Upper(bar.symbol) != s {
        failure := Some(BarSymbolMismatch(s));
      } else if !bar.adjustedClose.Finite? || bar.adjustedClose.value <= 0.0 {
        failure := Some(BarPriceNotPositive(s));
      } else if !(start <= bar.date <= end) {
        continue;
      } else if bar.date in symbolPrices {
        failure := Some(DuplicatePriceDate(s, bar.date));
      } else {
        symbolPrices := symbolPrices[bar.date := bar.adjustedClose.value];
      }
      if failure.Some? {
        SeriesErrorPrefix(s, bars, start, end, j + 1);
        return Err(failure.value);
      }
    }
    assert bars[..|bars|] == bars;
    return Ok(symbolPrices);
  }

  lemma {:induction false} SeriesErrorPrefix(s: string, bars: seq<PriceBar>, start: Date, end: Date, n: nat)
    requires n <= |bars| && SeriesOf(s, bars[..n], start, end).Err?
    ensures SeriesOf(s, bars, start, end) == SeriesOf(s, bars[..n], start, end)
  {
    if n < |bars| {
      assert bars[..|bars| - 1][..n] == bars[..n];
      SeriesErrorPrefix(s, bars[..|bars| - 1], start, end, n);
    } else {
      assert bars[..n] == bars;
    }
  }

  lemma {:induction false} PricesErrorPrefix(symbols: seq<string>, input: PriceInput, start: Date, end: Date, n: nat)
    requires n <= |symbols| && ValidatedPrices(symbols[..n], input, start, end).Err?
    ensures ValidatedPrices(symbols, input, start, end) == ValidatedPrices(symbols[..n], input, start, end)
  {
    if n < |symbols| {
      assert symbols[..|symbols| - 1][..n] == symbols[..n];
      PricesErrorPrefix(symbols[..|symbols| - 1], input, start, end, n);
    } else {
      assert symbols[..n] == symbols;
    }
  }

  method CashFlowAdjustedReturns(points: seq<Point>) returns (r: Result<seq<real>, ValuationError>)
    ensures r == Returns(points)
  {
    var rates: seq<real> := [];
    if |points| <= 1 {
      return Ok([]);
    }
    assert |points[..1]| == 1;
    for i := 1 to |points|
      invariant Returns(points[..i]) == Ok(rates)
    {
      var previous, current := points[i - 1], points[i];
      assert points[..i + 1][..i] == points[..i];
      if previous.totalValue <= 0.0 {
        ReturnsErrorPrefix(points, i + 1);
        return Err(PreviousValueNotPositive);
      }
      var adjusted := current.totalValue - current.netExternalFlow;
      if adjusted <= 0.0 {
        ReturnsErrorPrefix(points, i + 1);
        return Err(AdjustedValueNotPositive);
      }
      rates := rates + [adjusted / previous.totalValue - 1.0];
    }
    assert points[..|points|] == points;
    return Ok(rates);
  }

  lemma {:induction false} ReturnsErrorPrefix(points: seq<Point>, n: nat)
    requires n <= |points| && Returns(points[..n]).Err?
    ensures Returns(points) == Returns(points[..n])
  {
    if n < |points| {
      assert points[..|points| - 1][..n] == points[..n];
      ReturnsErrorPrefix(points[..|points| - 1], n);
    } else {
      assert points[..n] == points;
    }
  }

  /** The price carried into date i: today's observation, else yesterday's carried price. */
  lemma LatestPriceStep(series: Series, dates: seq<Date>, i: nat)
    requires AscendingDates(dates) && i < |dates| && (forall d :: d in series ==> d in dates)
    ensures LatestPrice(series, dates[i])
         == if dates[i] in series then Some(series[dates[i]])
            else if i == 0 then None else LatestPrice(series, dates[i - 1])
  {
    var d := dates[i];
    var now := LatestPrice(series, d);
    if d in series {
      assert now.Some?;
    } else if i == 0 {
      forall x | x in series ensures x > d {
        var k :| 0 <= k < |dates| && dates[k] == x;
      }
    } else {
      forall x | x in series ensures x <= d <==> x <= dates[i - 1] {
        var k :| 0 <= k < |dates| && dates[k] == x;
        assert k < i - 1 || k == i - 1 || k == i || k > i;
      }
      SameLatest(series, d, series, dates[i - 1]);
    }
  }

  lemma SameLatest(a: Series, d: Date, b: Series, e: Date)
    requires forall x :: (x in a && x <= d) <==> (x in b && x <= e)
    requires forall x :: x in a && x <= d ==> a[x] == b[x]
    ensures LatestPrice(a, d) == LatestPrice(b, e)
  {
    assert (set x | x in a && x <= d) == (set x | x in b && x <= e);
  }

  /** Refreshes `latest` for one valuation date. */
  method ObservePrices(symbols: seq<string>, prices: PriceTable, latest: map<string, real>,
                       dates: seq<Date>, i: nat)
    returns (r: map<string, real>)
    requires forall s :: s in symbols <==> s in prices
    requires AscendingDates(dates) && i < |dates| && (forall d :: d in ObservedDates(prices) ==> d in dates)
    requires latest == if i == 0 then map[] else LatestPrices(prices, dates[i - 1])
    ensures r == LatestPrices(prices, dates[i])
  {
    hide LatestPrices, ObservedDates, Refreshed, Carried;
    LatestPriced(prices, latest, dates, i);
    r := latest;
    for j := 0 to |symbols|
      invariant forall s :: s in r ==> s in prices
      invariant forall s :: s in symbols[..j] ==> s in prices && Refreshed(r, prices[s], s, dates[i])
      invariant forall s :: s in prices && s !in symbols[..j] ==> Carried(r, latest, s)
    {
      var s := symbols[j];
      assert s in symbols;
      assert symbols[..j + 1] == symbols[..j] + [s];
      RefreshOne(prices, latest, dates, i, s, r);
      if dates[i] in prices[s] {
        var price := prices[s][dates[i]];
        forall t | t in prices && t != s {
          RefreshOther(r, latest, prices[t], s, price, t, dates[i]);
        }
        r := r[s := price];
      }
    }
    assert symbols[..|symbols|] == symbols;
    AllRefreshed(r, prices, dates[i]);
  }

  /** `r` holds the latest price of `s` on day `d`, if there is one. */
  ghost predicate Refreshed(r: map<string, real>, series: Series, s: string, d: Date) {
    LatestPrice(series, d) == if s in r then Some(r[s]) else None
  }

  /** `r` still holds for `s` what `latest` held. */
  ghost predicate Carried(r: map<string, real>, latest: map<string, real>, s: string) {
    (s in r <==> s in latest) && (s in r ==> r[s] == latest[s])
  }

  lemma LatestPriced(prices: PriceTable, latest: map<string, real>, dates: seq<Date>, i: nat)
    requires i < |dates| && latest == if i == 0 then map[] else LatestPrices(prices, dates[i - 1])
    ensures forall s :: s in latest ==> s in prices
    ensures forall s :: Carried(latest, latest, s)
  {}

  lemma RefreshOne(prices: PriceTable, latest: map<string, real>, dates: seq<Date>, i: nat, s: string, r: map<string, real>)
    requires AscendingDates(dates) && i < |dates| && s in prices && (forall d :: d in ObservedDates(prices) ==> d in dates)
    requires latest == if i == 0 then map[] else LatestPrices(prices, dates[i - 1])
    requires Refreshed(r, prices[s], s, dates[i]) || Carried(r, latest, s)
    ensures Refreshed(if dates[i] in prices[s] then r[s := prices[s][dates[i]]] else r, prices[s], s, dates[i])
  {
    assert forall d :: d in prices[s] ==> d in ObservedDates(prices);
    LatestPriceStep(prices[s], dates, i);
  }

  lemma RefreshOther(r: map<string, real>, latest: map<string, real>, series: Series, s: string, price: real, t: string, d: Date)
    requires t != s
    ensures Refreshed(r, series, t, d) ==> Refreshed(r[s := price], series, t, d)
    ensures Carried(r, latest, t) ==> Carried(r[s := price], latest, t)
  {}

  lemma AllRefreshed(r: map<string, real>, prices: PriceTable, d: Date)
    requires forall s :: s in r ==> s in prices
    requires forall s :: s in prices ==> Refreshed(r, prices[s], s, d)
    ensures r == LatestPrices(prices, d)
  {}

  /** The rows consumed before date i. */
  ghost function Consumed(ordered: seq<Transaction>, dates: seq<Date>, i: nat): seq<Transaction>
    requires i <= |dates|
  {
    if i == 0 then [] else Through(ordered, dates[i - 1])
  }

  /** Applies the rows dated on or before the current valuation date. */
  method ApplyDue(ordered: seq<Transaction>, first: nat, d: Date, positions: Positions, cash: real, pending: real, ghost reported: real)
    returns (r: Result<(nat, real, real), ValuationError>)
    requires InLedgerOrder(ordered) && first <= |ordered|
    requires forall k :: 0 <= k < first ==> DateOf(ordered[k]) <= d
    requires Run(ordered[..first]) == Ok(Book(positions.quantities, cash, reported + pending))
    modifies positions
    ensures r.Ok? ==> var (next, cash', pending') := r.value;
      && first <= next <= |ordered| && Through(ordered, d) == ordered[..next]
      && Run(ordered[..next]) == Ok(Book(positions.quantities, cash', reported + pending'))
    ensures r.Err? ==> Run(Through(ordered, d)) == Err(r.error)
  {
    hide Apply, Through, LedgerLe, Run, DateOf;
    var index, cashBalance, flow := first, cash, pending;
    while index < |ordered|
      invariant first <= index <= |ordered|
      invariant forall k :: 0 <= k < index ==> DateOf(ordered[k]) <= d
      invariant Run(ordered[..index]) == Ok(Book(positions.quantities, cashBalance, reported + flow))
    {
      var t := ordered[index];
      if DateOf(t) > d {
        break;
      }
      assert ordered[..index + 1] == ordered[..index] + [t];
      RunAppend(ordered[..index], t);
      var step := ApplyTransaction(positions, cashBalance, t, reported + flow);
      if step.Err? {
        ghost var n := ThroughPrefix(ordered, d);
        assert ordered[..n][..index + 1] == ordered[..index + 1];
        RunErrorPrefix(ordered[..n], index + 1);
        return Err(step.error);
      }
      cashBalance := step.value.0;
      flow := flow + step.value.1;
      index := index + 1;
    }
    ThroughIsPrefix(ordered, d, index);
    return Ok((index, cashBalance, flow));
  }

  /** The value on one date, or None when the date is skipped. */
  method ValueToday(positions: Positions, cash: real, latest: map<string, real>, ghost flow: real)
    returns (value: Option<real>)
    ensures value == ValueOf(Book(positions.quantities, cash, flow), latest)
  {
    hide Total, Nonzero;
    var active := Nonzero(positions.quantities);
    if exists s :: s in active && s !in latest {
      return None;
    }
    var totalValue := cash + Total(AssetValues(active, latest));
    if totalValue <= 0.0 {
      return None;
    }
    return Some(totalValue);
  }

  lemma PointsStep(ordered: seq<Transaction>, prices: PriceTable, dates: seq<Date>, i: nat)
    requires i < |dates|
    ensures var earlier := PointsOn(ordered, prices, dates[..i]);
            var b := BookOn(ordered, dates[i]);
            var value := ValueOf(b, LatestPrices(prices, dates[i]));
            PointsOn(ordered, prices, dates[..i + 1])
              == if value.None? then earlier
                 else earlier + [Point(dates[i], value.value, b.cash, b.flow - FlowReported(ordered, earlier))]
  {
    hide BookOn, ValueOf, LatestPrices, FlowReported;
    assert dates[..i + 1][..i] == dates[..i];
  }

  /** What the loop variables mean before date i is processed. */
  ghost predicate Progress(ordered: seq<Transaction>, prices: PriceTable, dates: seq<Date>, i: nat,
                           index: nat, q: Quantities, cash: real, latest: map<string, real>, pending: real, points: seq<Point>)
    requires i <= |dates|
  {
    && index <= |ordered| && ordered[..index] == Consumed(ordered, dates, i)
    && Run(ordered[..index]) == Ok(Book(q, cash, FlowReported(ordered, points) + pending))
    && latest == (if i == 0 then map[] else LatestPrices(prices, dates[i - 1]))
    && points == PointsOn(ordered, prices, dates[..i])
  }

  /** One iteration of the loop over the market dates. */
  method ProcessDate(ordered: seq<Transaction>, symbols: seq<string>, prices: PriceTable, dates: seq<Date>, i: nat,
                     index: nat, positions: Positions, cash: real, observed: map<string, real>, pending: real, points: seq<Point>)
    returns (r: Result<(nat, real, map<string, real>, real, seq<Point>), ValuationError>)
    requires InLedgerOrder(ordered) && AscendingDates(dates) && i < |dates|
    requires forall s :: s in symbols <==> s in prices
    requires forall d :: d in ObservedDates(prices) ==> d in dates
    requires Progress(ordered, prices, dates, i, index, positions.quantities, cash, observed, pending, points)
    modifies positions
    ensures r.Ok? ==> var (index', cash', latest, pending', points') := r.value;
      Progress(ordered, prices, dates, i + 1, index', positions.quantities, cash', latest, pending', points')
    ensures r.Err? ==> Run(Through(ordered, dates[i])) == Err(r.error)
  {
    hide ValueOf, Through, LatestPrices, Run, LedgerLe, DateOf, ObservedDates, Apply, AscendingDates, PointsOn;
    var d := dates[i];
    var latest := ObservePrices(symbols, prices, observed, dates, i);
    ConsumedDue(ordered, dates, i, index);
    ghost var reported := FlowReported(ordered, points);
    var applied := ApplyDue(ordered, index, d, positions, cash, pending, reported);
    if applied.Err? {
      return Err(applied.error);
    }
    var (next, balance, flow) := applied.value;
    assert BookOn(ordered, d) == Book(positions.quantities, balance, reported + flow);
    PointsStep(ordered, prices, dates, i);
    var value := ValueToday(positions, balance, latest, reported + flow);
    if value.None? {
      return Ok((next, balance, latest, flow, points));
    }
    return Ok((next, balance, latest, 0.0, points + [Point(d, value.value, balance, flow)]));
  }

  /** The loop over the market dates: the points, and the book and prices after the last date. */
  method WalkDates(ordered: seq<Transaction>, symbols: seq<string>, prices: PriceTable, dates: seq<Date>)
    returns (r: Result<(seq<Point>, Book, map<string, real>), ValuationError>)
    requires InLedgerOrder(ordered) && AscendingDates(dates) && dates != []
    requires forall s :: s in symbols <==> s in prices
    requires forall d :: d in ObservedDates(prices) ==> d in dates
    ensures r.Ok? ==>
      && r.value.0 == PointsOn(ordered, prices, dates)
      && Run(Through(ordered, dates[|dates| - 1])) == Ok(r.value.1)
      && r.value.2 == LatestPrices(prices, dates[|dates| - 1])
    ensures r.Err? ==> Run(Through(ordered, dates[|dates| - 1])) == Err(r.error)
  {
    hide Through, LatestPrices, Run, InLedgerOrder, ObservedDates, FlowReported;
    var index: nat := 0;
    var positions := new Positions();
    var cash := 0.0;
    var latest: map<string, real> := map[];
    var pending := 0.0;
    var points: seq<Point> := [];
    RunOfNone(ordered[..0]);
    NothingReported(ordered, points);
    for i := 0 to |dates|
      invariant Progress(ordered, prices, dates, i, index, positions.quantities, cash, latest, pending, points)
    {
      var step := ProcessDate(ordered, symbols, prices, dates, i, index, positions, cash, latest, pending, points);
      if step.Err? {
        LaterDateSameError(ordered, dates[i], dates[|dates| - 1]);
        return Err(step.error);
      }
      index, cash, latest, pending, points := step.value.0, step.value.1, step.value.2, step.value.3, step.value.4;
    }
    assert dates[..|dates|] == dates;
    return Ok((points, Book(positions.quantities, cash, FlowReported(ordered, points) + pending), latest));
  }

  lemma NothingReported(ordered: seq<Transaction>, points: seq<Point>)
    requires points == []
    ensures FlowReported(ordered, points) == 0.0
  {}

  lemma DatesAscend(prices: PriceTable)
    ensures AscendingDates(MarketDates(prices)) && forall d :: d in ObservedDates(prices) ==> d in MarketDates(prices)
  {}

  /** What is prepared for a valuation, when nothing is refused. */
  lemma PreparedIs(ts: seq<Transaction>, input: PriceInput, start: Date, end: Date,
                   symbols: seq<string>, prices: PriceTable, ordered: seq<Transaction>)
    requires RequiredSymbols(ts, start, end) == Ok(symbols) && symbols != []
    requires ValidatedPrices(symbols, input, start, end) == Ok(prices) && MarketDates(prices) != []
    requires OrderedTransactions(ts, end) == Ok(ordered)
    ensures var inputs := Inputs(symbols, prices, MarketDates(prices), ordered);
            && Prepare(ts, input, start, end) == Ok(inputs) && AscendingDates(inputs.dates)
            && Valuate(ts, input, start, end) == ValuateInputs(inputs)
  {
    hide RequiredSymbols, ValidatedPrices, MarketDates, OrderedTransactions, ValuateInputs;
    DatesAscend(prices);
  }

  /** The refusals before any date is processed. */
  lemma RefusedEarly(ts: seq<Transaction>, input: PriceInput, start: Date, end: Date)
    ensures var required := RequiredSymbols(ts, start, end);
            && (required.Err? ==> Valuate(ts, input, start, end) == Err(required.error))
            && (required == Ok([]) ==> Valuate(ts, input, start, end) == Err(NoSecurityHoldings))
            && (required.Ok? && required.value != [] ==>
                 var prices := ValidatedPrices(required.value, input, start, end);
                 && (prices.Err? ==> Valuate(ts, input, start, end) == Err(prices.error))
                 && (prices.Ok? && MarketDates(prices.value) == [] ==> Valuate(ts, input, start, end) == Err(NoMarketDates)))
  {
    hide RequiredSymbols, ValidatedPrices, MarketDates, OrderedTransactions, ValuateInputs;
  }

  /** The forward pass, proved equal to the date-by-date definition. */
  method BuildPortfolioValuation(ts: seq<Transaction>, input: PriceInput, start: Date, end: Date)
    returns (r: Result<PortfolioValuation, ValuationError>)
    ensures r == Valuate(ts, input, start, end)
  {
    RefusedEarly(ts, input, start, end);
    hide RequiredSymbols, ValidatedPrices, OrderedTransactions, ValuateInputs, Valuate, Prepare, AllValid, InLedgerOrder;
    var required := RequiredPriceSymbols(ts, start, end);
    if required.Err? {
      return Err(required.error);
    }
    var symbols := required.value;
    if symbols == [] {
      return Err(NoSecurityHoldings);
    }
    var validated := ValidatedPricesLoop(symbols, input, start, end);
    if validated.Err? {
      return Err(validated.error);
    }
    var prices := validated.value;
    var dates := MarketDates(prices);
    if dates == [] {
      return Err(NoMarketDates);
    }
    RequiredNeedsOrdering(ts, start, end);
    var ordering := OrderTransactions(ts, end);
    PreparedIs(ts, input, start, end, symbols, prices, ordering.value);
    OrderingOrders(ts, end);
    PriceSeries.TableKeys(symbols, input, start, end);
    DatesAscend(prices);
    r := WalkAndConclude(symbols, prices, dates, ordering.value);
  }

  lemma OrderingOrders(ts: seq<Transaction>, end: Date)
    requires OrderedTransactions(ts, end).Ok?
    ensures InLedgerOrder(OrderedTransactions(ts, end).value)
  {
    LedgerSortFacts(Through(ts, end));
  }

  /** The loop over the dates and what follows it. */
  method WalkAndConclude(symbols: seq<string>, prices: PriceTable, dates: seq<Date>, ordered: seq<Transaction>)
    returns (r: Result<PortfolioValuation, ValuationError>)
    requires InLedgerOrder(ordered) && AscendingDates(dates) && dates != []
    requires forall s :: s in symbols <==> s in prices
    requires forall d :: d in ObservedDates(prices) ==> d in dates
    ensures r == ValuateInputs(Inputs(symbols, prices, dates, ordered))
  {
    hide PointsOn, Run, Finish, LatestPrices, Through, ObservedDates, InLedgerOrder;
    var walk := WalkDates(ordered, symbols, prices, dates);
    if walk.Err? {
      return Err(walk.error);
    }
    PointsFacts(ordered, prices, dates);
    r := Conclude(walk.value.0, walk.value.1, walk.value.2);
  }

  lemma RequiredNeedsOrdering(ts: seq<Transaction>, start: Date, end: Date)
    requires RequiredSymbols(ts, start, end).Ok?
    ensures OrderedTransactions(ts, end).Ok?
  {}

  /** The part after the loop. */
  method Conclude(points: seq<Point>, book: Book, latest: map<string, real>)
    returns (r: Result<PortfolioValuation, ValuationError>)
    requires forall p :: p in points ==> p.totalValue > 0.0
    ensures (forall i :: 0 <= i < |points| ==> points[i].totalValue > 0.0) && r == Finish(points, book, latest)
  {
    hide Returns, WeightsOf;
    assert forall i :: 0 <= i < |points| ==> points[i] in points;
    if points == [] {
      return Err(NoPositiveBalance);
    }
    var active := Nonzero(book.positions);
    if !(active.Keys <= latest.Keys) {
      var missing := active.Keys - latest.Keys;
      assert missing != {} by {
        var s :| s in active.Keys && s !in latest.Keys;
        assert s in missing;
      }
      return Err(NoUsablePrice(SortedTexts(missing)[0]));
    }
    var last := points[|points| - 1];
    var weights := WeightsOf(AssetValues(active, latest), last.totalValue);
    var rates := CashFlowAdjustedReturns(points);
    if rates.Err? {
      return Err(rates.error);
    }
    return Ok(PortfolioValuation(points, rates.value, last.totalValue, last.cashBalance, weights));
  }

  lemma ConsumedDue(ordered: seq<Transaction>, dates: seq<Date>, i: nat, n: nat)
    requires AscendingDates(dates) && i < |dates| && n <= |ordered| && ordered[..n] == Consumed(ordered, dates, i)
    ensures forall k :: 0 <= k < n ==> DateOf(ordered[k]) <= dates[i]
  {
    forall k | 0 <= k < n ensures DateOf(ordered[k]) <= dates[i] {
      assert ordered[..n][k] in ordered[..n];
    }
  }

  lemma LaterDateSameError(ordered: seq<Transaction>, d: Date, e: Date)
    requires InLedgerOrder(ordered) && d <= e && Run(Through(ordered, d)).Err?
    ensures Run(Through(ordered, e)) == Run(Through(ordered, d))
  {
    var n := ThroughPrefix(ordered, d);
    var m := ThroughPrefix(ordered, e);
    assert n <= m;
    assert ordered[..m][..n] == ordered[..n];
    RunErrorPrefix(ordered[..m], n);
  }
}
