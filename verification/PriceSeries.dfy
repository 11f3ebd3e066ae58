/** Which price bars a valuation accepts, and what it keeps of them. */
module PriceSeries {
  import opened Wrappers
  import opened Sorting
  import opened Text
  import opened Transactions
  import opened Replay
  import opened Valuation

  predicate GoodBar(s: string, bar: PriceBar) {
    Upper(bar.symbol) == s && bar.adjustedClose.Finite? && bar.adjustedClose.value > 0.0
  }

  ghost predicate GoodBars(s: string, bars: seq<PriceBar>) {
    forall bar :: bar in bars ==> GoodBar(s, bar)
  }

  ghost predicate DatesDistinct(bars: seq<PriceBar>, start: Date, end: Date) {
    forall i, j :: 0 <= i < j < |bars| && start <= bars[i].date <= end ==> bars[i].date != bars[j].date
  }

  /** The series holds exactly the prices of the bars in range. */
  ghost predicate SeriesHolds(series: Series, bars: seq<PriceBar>, start: Date, end: Date) {
    && (forall bar :: bar in bars && start <= bar.date <= end ==>
          bar.date in series && bar.adjustedClose == Finite(series[bar.date]))
    && (forall d :: d in series ==> start <= d <= end && exists bar :: bar in bars && bar.date == d)
  }

  /**
   * Bars are accepted exactly when each, in range or not, has the symbol and a positive price and
   * no two in range share a date; the series is then exactly the bars in range.
   */
  lemma {:induction false} SeriesAcceptedIff(s: string, bars: seq<PriceBar>, start: Date, end: Date)
    ensures SeriesOf(s, bars, start, end).Ok? <==> GoodBars(s, bars) && DatesDistinct(bars, start, end)
    ensures SeriesOf(s, bars, start, end).Ok? ==> SeriesHolds(SeriesOf(s, bars, start, end).value, bars, start, end)
  {
    hide AddBar, GoodBars, GoodBar, DatesDistinct, SeriesHolds;
    NoBars(s, start, end);
    if bars != [] {
      var init, last := bars[..|bars| - 1], bars[|bars| - 1];
      SeriesAcceptedIff(s, init, start, end);
      LastBarGood(s, bars);
      LastDateDistinct(bars, start, end);
      if SeriesOf(s, init, start, end).Ok? {
        AddBarHolds(SeriesOf(s, init, start, end).value, s, init, last, start, end);
        SplitLast(bars);
      }
    }
  }

  lemma NoBars(s: string, start: Date, end: Date)
    ensures GoodBars(s, []) && DatesDistinct([], start, end) && SeriesHolds(map[], [], start, end)
  {}

  lemma LastBarGood(s: string, bars: seq<PriceBar>)
    requires bars != []
    ensures GoodBars(s, bars) <==> GoodBars(s, bars[..|bars| - 1]) && GoodBar(s, bars[|bars| - 1])
  {
    SplitLast(bars);
  }

  lemma AddBarHolds(series: Series, s: string, init: seq<PriceBar>, last: PriceBar, start: Date, end: Date)
    requires SeriesHolds(series, init, start, end)
    ensures AddBar(series, s, last, start, end).Ok? <==>
      GoodBar(s, last) && (start <= last.date <= end ==> forall bar :: bar in init ==> bar.date != last.date)
    ensures AddBar(series, s, last, start, end).Ok? ==>
      SeriesHolds(AddBar(series, s, last, start, end).value, init + [last], start, end)
  {
    hide Upper;
  }

  lemma PrefixDistinct(bars: seq<PriceBar>, n: nat, start: Date, end: Date)
    requires |bars| == n + 1 && DatesDistinct(bars, start, end)
    ensures DatesDistinct(bars[..n], start, end)
    ensures start <= bars[n].date <= end ==> forall bar :: bar in bars[..n] ==> bar.date != bars[n].date
  {
    if start <= bars[n].date <= end {
      forall bar | bar in bars[..n] ensures bar.date != bars[n].date {
        var i :| 0 <= i < n && bars[i] == bar;
      }
    }
  }

  lemma DistinctExtends(init: seq<PriceBar>, last: PriceBar, start: Date, end: Date)
    requires DatesDistinct(init, start, end)
    requires start <= last.date <= end ==> forall bar :: bar in init ==> bar.date != last.date
    ensures DatesDistinct(init + [last], start, end)
  {
    forall i | 0 <= i < |init| && start <= init[i].date <= end ensures init[i].date != last.date {
      assert init[i] in init;
    }
  }

  lemma LastDateDistinct(bars: seq<PriceBar>, start: Date, end: Date)
    requires bars != []
    ensures var init, last := bars[..|bars| - 1], bars[|bars| - 1];
            DatesDistinct(bars, start, end) <==>
            DatesDistinct(init, start, end)
            && (start <= last.date <= end ==> forall bar :: bar in init ==> bar.date != last.date)
  {
    hide DatesDistinct;
    var n := |bars| - 1;
    var init, last := bars[..n], bars[n];
    if DatesDistinct(bars, start, end) {
      PrefixDistinct(bars, n, start, end);
    }
    if DatesDistinct(init, start, end) && (start <= last.date <= end ==> forall bar :: bar in init ==> bar.date != last.date) {
      DistinctExtends(init, last, start, end);
      assert init + [last] == bars;
    }
  }

  /** Symbol by symbol: one refused or empty series refuses the table; else it holds each symbol's series. */
  lemma {:induction false} TableAcceptedIff(symbols: seq<string>, input: PriceInput, start: Date, end: Date)
    ensures var table := ValidatedPrices(symbols, input, start, end);
            && (table.Ok? <==> forall s :: s in symbols ==> ValidSeries(s, BarsFor(input, s), start, end).Ok?)
            && (table.Ok? ==> forall s :: s in table.value <==> s in symbols)
            && (table.Ok? ==> forall s :: s in table.value ==> Ok(table.value[s]) == ValidSeries(s, BarsFor(input, s), start, end))
  {
    hide ValidSeries, BarsFor;
    if symbols != [] {
      var init, last := symbols[..|symbols| - 1], symbols[|symbols| - 1];
      TableAcceptedIff(init, input, start, end);
      SplitLast(symbols);
      assert forall s :: s in symbols <==> s in init || s == last;
      assert last in symbols;
    }
  }

  lemma TableKeys(symbols: seq<string>, input: PriceInput, start: Date, end: Date)
    requires ValidatedPrices(symbols, input, start, end).Ok?
    ensures forall s :: s in symbols <==> s in ValidatedPrices(symbols, input, start, end).value
  {
    TableAcceptedIff(symbols, input, start, end);
  }

  /** Bars are refused for the first that is bad or repeats a date in range: for its symbol, else its price, else its date. */
  lemma {:induction false} SeriesRefusal(s: string, bars: seq<PriceBar>, start: Date, end: Date) returns (i: nat)
    requires SeriesOf(s, bars, start, end).Err?
    ensures i < |bars| && GoodBars(s, bars[..i]) && DatesDistinct(bars[..i], start, end)
    ensures SeriesOf(s, bars, start, end)
         == Err(if Upper(bars[i].symbol) != s then BarSymbolMismatch(s)
                else if !(bars[i].adjustedClose.Finite? && bars[i].adjustedClose.value > 0.0) then BarPriceNotPositive(s)
                else DuplicatePriceDate(s, bars[i].date))
    ensures GoodBar(s, bars[i]) ==> start <= bars[i].date <= end && exists bar :: bar in bars[..i] && bar.date == bars[i].date
  {
    hide Upper, GoodBars, DatesDistinct;
    var init := bars[..|bars| - 1];
    if SeriesOf(s, init, start, end).Err? {
      i := SeriesRefusal(s, init, start, end);
      assert init[..i] == bars[..i];
    } else {
      i := |bars| - 1;
      SeriesAcceptedIff(s, init, start, end);
    }
  }

  /** The table is refused for the first symbol with a refused or empty series. */
  lemma {:induction false} TableRefusal(symbols: seq<string>, input: PriceInput, start: Date, end: Date) returns (i: nat)
    requires ValidatedPrices(symbols, input, start, end).Err?
    ensures i < |symbols| && forall j :: 0 <= j < i ==> ValidSeries(symbols[j], BarsFor(input, symbols[j]), start, end).Ok?
    ensures var s := symbols[i];
            var series := SeriesOf(s, BarsFor(input, s), start, end);
            && (series.Err? ==> ValidatedPrices(symbols, input, start, end) == Err(series.error))
            && (series.Ok? ==> ValidatedPrices(symbols, input, start, end) == Err(NoBarsInRange(s)) && series.value == map[])
  {
    hide SeriesOf, BarsFor;
    var init := symbols[..|symbols| - 1];
    if ValidatedPrices(init, input, start, end).Err? {
      i := TableRefusal(init, input, start, end);
    } else {
      i := |symbols| - 1;
      TableAcceptedIff(init, input, start, end);
      assert forall j :: 0 <= j < i ==> symbols[j] == init[j] && init[j] in init;
    }
  }
}
