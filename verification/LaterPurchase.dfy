/**
 * A purchase later than every market date changes what is reported before it: pricing the new
 * symbol makes one more date a market date, and that date takes over a flow that was reported on
 * a later one.
 */
module LaterPurchase {
  import opened Wrappers
  import opened Sorting
  import opened Text
  import opened Transactions
  import opened Holdings
  import opened Replay
  import opened Valuation
  import opened ValuationEngine
  import opened NoLookAhead

  const BUY_A := Transaction(1, "a", BUY, Aware(MICROSECONDS_PER_DAY), Some("A"), Some(Finite(1.0)), Some(Finite(100.0)),
                             None, Finite(0.0), 1, None)
  const DEPOSIT_50 := Transaction(1, "d", DEPOSIT, Aware(2 * MICROSECONDS_PER_DAY), None, None, None,
                                  Some(Finite(50.0)), Finite(0.0), 2, None)
  const BUY_B := Transaction(1, "b", BUY, Aware(4 * MICROSECONDS_PER_DAY), Some("B"), Some(Finite(1.0)), Some(Finite(10.0)),
                             None, Finite(0.0), 3, None)

  const SHORT_LEDGER := [BUY_A, DEPOSIT_50]
  const LONG_LEDGER := [BUY_A, DEPOSIT_50, BUY_B]

  const BARS_A := [PriceBar("A", 1, Finite(100.0)), PriceBar("A", 3, Finite(100.0))]
  const BARS_B := [PriceBar("B", 2, Finite(10.0))]
  const INPUT: PriceInput := [("A", BARS_A), ("B", BARS_B)]
  const SERIES_A: Series := map[1 := 100.0, 3 := 100.0]
  const SERIES_B: Series := map[2 := 10.0]
  const SHORT_TABLE: PriceTable := map["A" := SERIES_A]
  const LONG_TABLE: PriceTable := map["A" := SERIES_A, "B" := SERIES_B]

  lemma RowsValid()
    ensures Valid(BUY_A) && Valid(DEPOSIT_50) && Valid(BUY_B)
    ensures AllValid(SHORT_LEDGER) && AllValid(LONG_LEDGER)
  {
    OneLetter("a");
    OneLetter("d");
    OneLetter("b");
    OneLetter("A");
    OneLetter("B");
    hide Strip, Normalize;
  }

  lemma RowsOrdered()
    ensures InLedgerOrder(SHORT_LEDGER) && InLedgerOrder(LONG_LEDGER)
    ensures DateOf(BUY_A) == 1 && DateOf(DEPOSIT_50) == 2 && DateOf(BUY_B) == 4
  {}

  lemma Cuts(d: Date)
    requires 0 <= d <= 4
    ensures Through(SHORT_LEDGER, d) == if d == 0 then [] else if d == 1 then [BUY_A] else SHORT_LEDGER
    ensures Through(LONG_LEDGER, d) == if d == 4 then LONG_LEDGER else Through(SHORT_LEDGER, d)
  {
    RowsOrdered();
    hide LedgerLe, DateOf, Through;
    ThroughIsPrefix(SHORT_LEDGER, d, if d <= 1 then d else 2);
    ThroughIsPrefix(LONG_LEDGER, d, if d <= 1 then d else if d < 4 then 2 else 3);
  }

  lemma AlreadyOrdered()
    ensures LedgerSort(SHORT_LEDGER) == SHORT_LEDGER && LedgerSort(LONG_LEDGER) == LONG_LEDGER
  {
    RowsOrdered();
    LedgerLeIsTotalPreorder();
    hide LedgerLe;
    SortOfSorted(SHORT_LEDGER, LedgerLe);
    SortOfSorted(LONG_LEDGER, LedgerLe);
  }

  lemma TwoSymbols()
    ensures SortedTexts({"A", "B"}) == ["A", "B"]
  {
    var r := SortedTexts({"A", "B"});
    assert r[0] in r && r[1] in r;
    assert !TextLe("B", "A");
  }

  lemma Traded()
    ensures TradedFrom(SHORT_LEDGER, 1) == {"A"} && TradedFrom(LONG_LEDGER, 1) == {"A", "B"}
  {
    RowsOrdered();
    hide DateOf;
    assert BUY_A in SHORT_LEDGER && BUY_A in LONG_LEDGER && BUY_B in LONG_LEDGER;
  }

  lemma RequiredAre(ledger: seq<Transaction>, traded: set<string>, symbols: seq<string>)
    requires AllValid(ledger) && Through(ledger, 4) == ledger == LedgerSort(ledger) && Through(ledger, 0) == []
    requires TradedFrom(ledger, 1) == traded && SortedTexts(traded) == symbols
    ensures RequiredSymbols(ledger, 1, 4) == Ok(symbols)
  {
    hide LedgerSort, Through, Valid, SortedTexts, TradedFrom;
    PositionsOfNone([]);
    assert Nonzero(map[]).Keys + traded == traded;
  }

  lemma Symbols()
    ensures RequiredSymbols(SHORT_LEDGER, 1, 4) == Ok(["A"])
    ensures RequiredSymbols(LONG_LEDGER, 1, 4) == Ok(["A", "B"])
  {
    hide LedgerSort, Through, Valid, SortedTexts, TradedFrom, RequiredSymbols;
    RowsValid();
    Cuts(0);
    Cuts(4);
    AlreadyOrdered();
    Traded();
    Singleton("A");
    TwoSymbols();
    RequiredAre(SHORT_LEDGER, {"A"}, ["A"]);
    RequiredAre(LONG_LEDGER, {"A", "B"}, ["A", "B"]);
  }

  lemma SeriesOfA()
    ensures ValidSeries("A", BarsFor(INPUT, "A"), 1, 4) == Ok(SERIES_A)
  {
    OneLetter("A");
    OneLetter("B");
    assert INPUT[..1] == [("A", BARS_A)];
    assert BarsFor(INPUT, "A") == BARS_A;
    assert BARS_A[..1] == [BARS_A[0]] && BARS_A[..1][..0] == [];
    assert SeriesOf("A", BARS_A[..1], 1, 4) == Ok(map[1 := 100.0]);
  }

  lemma SeriesOfB()
    ensures ValidSeries("B", BarsFor(INPUT, "B"), 1, 4) == Ok(SERIES_B)
  {
    OneLetter("B");
    assert BarsFor(INPUT, "B") == BARS_B;
    assert BARS_B[..0] == [];
  }

  lemma Tables()
    ensures ValidatedPrices(["A"], INPUT, 1, 4) == Ok(SHORT_TABLE)
    ensures ValidatedPrices(["A", "B"], INPUT, 1, 4) == Ok(LONG_TABLE)
  {
    SeriesOfA();
    SeriesOfB();
    hide ValidSeries, BarsFor;
    assert ["A"][..0] == [] && ["A", "B"][..1] == ["A"];
    assert SHORT_TABLE["B" := SERIES_B] == LONG_TABLE;
  }

  lemma ObservedShort()
    ensures ObservedDates(SHORT_TABLE) == {1, 3}
  {
    assert 1 in SHORT_TABLE["A"] && 3 in SHORT_TABLE["A"];
  }

  lemma ObservedLong()
    ensures ObservedDates(LONG_TABLE) == {1, 2, 3}
  {
    assert 1 in LONG_TABLE["A"] && 3 in LONG_TABLE["A"] && 2 in LONG_TABLE["B"];
  }

  lemma SmallSets()
    ensures SortedInts({1, 3}) == [1, 3] && SortedInts({1, 2, 3}) == [1, 2, 3]
  {
    hide SortedInts;
    var r, s := SortedInts({1, 3}), SortedInts({1, 2, 3});
    assert r[0] in r && r[1] in r;
    assert s[0] in s && s[1] in s && s[2] in s;
  }

  lemma Dates()
    ensures MarketDates(SHORT_TABLE) == [1, 3] && MarketDates(LONG_TABLE) == [1, 2, 3]
  {
    hide SortedInts, ObservedDates;
    ObservedShort();
    ObservedLong();
    SmallSets();
  }

  lemma FirstStep()
    ensures Apply(EMPTY_BOOK, BUY_A) == Ok(Book(map["A" := 1.0], 0.0, 100.0))
  {
    RowsValid();
    hide Validate;
  }

  lemma SecondStep()
    ensures Apply(Book(map["A" := 1.0], 0.0, 100.0), DEPOSIT_50) == Ok(Book(map["A" := 1.0], 50.0, 150.0))
  {
    RowsValid();
    hide Validate;
  }

  lemma Runs()
    ensures Run([BUY_A]) == Ok(Book(map["A" := 1.0], 0.0, 100.0))
    ensures Run(SHORT_LEDGER) == Ok(Book(map["A" := 1.0], 50.0, 150.0))
  {
    FirstStep();
    SecondStep();
    hide Apply, Run;
    RunOfNone([]);
    RunAppend([], BUY_A);
    RunAppend([BUY_A], DEPOSIT_50);
    assert [] + [BUY_A] == [BUY_A] && [BUY_A] + [DEPOSIT_50] == SHORT_LEDGER;
  }

  /** Both ledgers hold one A from day 1 and 50 in cash from day 2; the purchase of B is never reached. */
  lemma Books(d: Date)
    requires 1 <= d <= 3
    ensures var b := if d == 1 then Book(map["A" := 1.0], 0.0, 100.0) else Book(map["A" := 1.0], 50.0, 150.0);
            && Run(Through(SHORT_LEDGER, d)) == Ok(b) == Run(Through(LONG_LEDGER, d))
            && BookOn(SHORT_LEDGER, d) == b == BookOn(LONG_LEDGER, d)
  {
    hide Through, Run;
    Runs();
    Cuts(d);
  }

  lemma PriceOfA(prices: PriceTable, d: Date)
    requires "A" in prices && prices["A"] == SERIES_A && 1 <= d <= 3
    ensures "A" in LatestPrices(prices, d) && LatestPrices(prices, d)["A"] == 100.0
  {
    assert 1 in SERIES_A;
    assert LatestPrice(SERIES_A, d) == Some(100.0);
  }

  /** One A and some cash are worth 100 plus the cash. */
  lemma WorthOfOneA(b: Book, latest: map<string, real>)
    requires b.positions == map["A" := 1.0] && b.cash >= 0.0 && "A" in latest && latest["A"] == 100.0
    ensures Nonzero(b.positions).Keys <= latest.Keys
    ensures ValueOf(b, latest) == Some(b.cash + 100.0)
  {
    hide Total;
    assert Nonzero(b.positions) == map["A" := 1.0];
    assert AssetValues(Nonzero(b.positions), latest) == map["A" := 100.0];
    OneAsset(100.0);
  }

  lemma Value(ordered: seq<Transaction>, prices: PriceTable, d: Date)
    requires ordered == SHORT_LEDGER || ordered == LONG_LEDGER
    requires "A" in prices && prices["A"] == SERIES_A && 1 <= d <= 3
    ensures ValueOn(ordered, prices, d) == Some(if d == 1 then 100.0 else 150.0)
  {
    hide BookOn, LatestPrices, ValueOf, Run, Through;
    Books(d);
    PriceOfA(prices, d);
    WorthOfOneA(BookOn(ordered, d), LatestPrices(prices, d));
  }

  const FIRST := Point(1, 100.0, 0.0, 100.0)

  /** What either ledger reports on days 1 and 3, and on day 2 when that is a market date. */
  lemma PointsAre(ordered: seq<Transaction>, prices: PriceTable)
    requires ValueOn(ordered, prices, 1) == Some(100.0) && BookOn(ordered, 1).cash == 0.0 && BookOn(ordered, 1).flow == 100.0
    requires ValueOn(ordered, prices, 2) == Some(150.0) && BookOn(ordered, 2).cash == 50.0 && BookOn(ordered, 2).flow == 150.0
    requires ValueOn(ordered, prices, 3) == Some(150.0) && BookOn(ordered, 3).cash == 50.0 && BookOn(ordered, 3).flow == 150.0
    ensures PointsOn(ordered, prices, [1, 3]) == [FIRST, Point(3, 150.0, 50.0, 50.0)]
    ensures PointsOn(ordered, prices, [1, 2, 3]) == [FIRST, Point(2, 150.0, 50.0, 50.0), Point(3, 150.0, 50.0, 0.0)]
  {
    hide BookOn, ValueOn;
    assert [1, 3][..1] == [1] && [1][..0] == [] && [1, 2, 3][..2] == [1, 2] && [1, 2][..1] == [1];
    assert PointsOn(ordered, prices, []) == [];
    assert PointsOn(ordered, prices, [1]) == [FIRST];
    assert PointsOn(ordered, prices, [1, 2]) == [FIRST, Point(2, 150.0, 50.0, 50.0)];
  }

  lemma PointsOfEither(ordered: seq<Transaction>, prices: PriceTable)
    requires ordered == SHORT_LEDGER || ordered == LONG_LEDGER
    requires "A" in prices && prices["A"] == SERIES_A
    ensures PointsOn(ordered, prices, [1, 3]) == [FIRST, Point(3, 150.0, 50.0, 50.0)]
    ensures PointsOn(ordered, prices, [1, 2, 3]) == [FIRST, Point(2, 150.0, 50.0, 50.0), Point(3, 150.0, 50.0, 0.0)]
  {
    hide BookOn, ValueOn, PointsOn, Run, Through;
    forall d | 1 <= d <= 3
      ensures ValueOn(ordered, prices, d) == Some(if d == 1 then 100.0 else 150.0)
      ensures BookOn(ordered, d).cash == (if d == 1 then 0.0 else 50.0) && BookOn(ordered, d).flow == (if d == 1 then 100.0 else 150.0)
    {
      Books(d);
      Value(ordered, prices, d);
    }
    PointsAre(ordered, prices);
  }

  /** A valuation that ends with one A and 50 in cash completes if its returns do. */
  lemma Completes(inputs: Inputs)
    requires inputs.dates != [] && AscendingDates(inputs.dates) && LastDate(inputs) == 3
    requires Run(Through(inputs.ordered, 3)) == Ok(Book(map["A" := 1.0], 50.0, 150.0))
    requires "A" in inputs.prices && inputs.prices["A"] == SERIES_A
    requires PointsOf(inputs) != [] && Returns(PointsOf(inputs)).Ok?
    ensures ValuateInputs(inputs).Ok? && ValuateInputs(inputs).value.points == PointsOf(inputs)
  {
    PriceOfA(inputs.prices, 3);
    hide Run, Through, LatestPrices, PointsOf, Returns, WeightsOf, ValueOf, AssetValues;
    WorthOfOneA(Book(map["A" := 1.0], 50.0, 150.0), LatestPrices(inputs.prices, 3));
  }

  lemma ReturnsComplete(points: seq<Point>)
    requires points == [FIRST, Point(3, 150.0, 50.0, 50.0)]
             || points == [FIRST, Point(2, 150.0, 50.0, 50.0), Point(3, 150.0, 50.0, 0.0)]
    ensures Returns(points).Ok?
  {
    var two, three := [FIRST, Point(2, 150.0, 50.0, 50.0)], [FIRST, Point(2, 150.0, 50.0, 50.0), Point(3, 150.0, 50.0, 0.0)];
    assert points[..1] == [FIRST];
    assert three[..2] == two && two[..1] == [FIRST];
    assert Returns(two).Ok?;
  }

  lemma Ordered(ledger: seq<Transaction>)
    requires AllValid(ledger) && Through(ledger, 4) == ledger == LedgerSort(ledger)
    ensures OrderedTransactions(ledger, 4) == Ok(ledger)
  {
    hide LedgerSort, Through, Valid;
  }

  lemma BothPrepared()
    ensures Prepare(SHORT_LEDGER, INPUT, 1, 4) == Ok(Inputs(["A"], SHORT_TABLE, [1, 3], SHORT_LEDGER))
    ensures Prepare(LONG_LEDGER, INPUT, 1, 4) == Ok(Inputs(["A", "B"], LONG_TABLE, [1, 2, 3], LONG_LEDGER))
  {
    hide RequiredSymbols, ValidatedPrices, MarketDates, LedgerSort, Through, Prepare, Valid, OrderedTransactions, Valuate;
    RowsValid();
    Symbols();
    Tables();
    Dates();
    Cuts(4);
    AlreadyOrdered();
    Ordered(SHORT_LEDGER);
    Ordered(LONG_LEDGER);
    PreparedIs(SHORT_LEDGER, INPUT, 1, 4, ["A"], SHORT_TABLE, SHORT_LEDGER);
    PreparedIs(LONG_LEDGER, INPUT, 1, 4, ["A", "B"], LONG_TABLE, LONG_LEDGER);
  }

  /**
   * The two ledgers agree up to day 3, and the prices are the same. Without the purchase on day 4
   * the flow of 50 is reported on day 3; with it, on day 2, and day 3 reports none.
   */
  lemma FlowMovesToAnEarlierDate()
    ensures LedgersAgree(SHORT_LEDGER, LONG_LEDGER, 3) && PricesAgree(INPUT, INPUT, 3)
    ensures Valuate(SHORT_LEDGER, INPUT, 1, 4).Ok? && Valuate(LONG_LEDGER, INPUT, 1, 4).Ok?
    ensures Valuate(SHORT_LEDGER, INPUT, 1, 4).value.points == [FIRST, Point(3, 150.0, 50.0, 50.0)]
    ensures Valuate(LONG_LEDGER, INPUT, 1, 4).value.points
         == [FIRST, Point(2, 150.0, 50.0, 50.0), Point(3, 150.0, 50.0, 0.0)]
    ensures !SameUpTo(Valuate(SHORT_LEDGER, INPUT, 1, 4).value, Valuate(LONG_LEDGER, INPUT, 1, 4).value, 3)
  {
    hide PointsUpTo, ReturnsUpTo, Prepare, ValuateInputs, LedgerSort, Through, PointsOn, Returns, Run, BookOn;
    Cuts(3);
    Books(3);
    BothPrepared();
    PointsOfEither(SHORT_LEDGER, SHORT_TABLE);
    PointsOfEither(LONG_LEDGER, LONG_TABLE);
    ReturnsComplete([FIRST, Point(3, 150.0, 50.0, 50.0)]);
    ReturnsComplete([FIRST, Point(2, 150.0, 50.0, 50.0), Point(3, 150.0, 50.0, 0.0)]);
    Completes(Inputs(["A"], SHORT_TABLE, [1, 3], SHORT_LEDGER));
    Completes(Inputs(["A", "B"], LONG_TABLE, [1, 2, 3], LONG_LEDGER));
    AllUpTo([FIRST, Point(3, 150.0, 50.0, 50.0)], 3);
    AllUpTo([FIRST, Point(2, 150.0, 50.0, 50.0), Point(3, 150.0, 50.0, 0.0)], 3);
  }

  lemma AllUpTo(points: seq<Point>, d: Date)
    requires forall i :: 0 <= i < |points| ==> points[i].date <= d
    ensures PointsUpTo(points, d) == points
  {
    FilterPrefix(points, (p: Point) => PointOnOrBefore(p, d), |points|);
  }
}
