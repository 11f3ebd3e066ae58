/**
 * A portfolio emptied on the last market date: the report keeps the value and cash of an older
 * date while its weights describe the empty final book, so the two do not add up.
 */
module EmptiedPortfolio {
  import opened Wrappers
  import opened Sorting
  import opened Text
  import opened Transactions
  import opened Holdings
  import opened Replay
  import opened Valuation
  import opened ValuationEngine
  import opened EndState

  const BUY_ROW := Transaction(1, "b", BUY, Aware(MICROSECONDS_PER_DAY), Some("A"), Some(Finite(1.0)), Some(Finite(100.0)),
                              None, Finite(0.0), 1, None)
  const SELL_ROW := Transaction(1, "s", SELL, Aware(2 * MICROSECONDS_PER_DAY), Some("A"), Some(Finite(1.0)), Some(Finite(100.0)),
                               None, Finite(0.0), 2, None)
  const WITHDRAWAL_ROW := Transaction(1, "w", WITHDRAWAL, Aware(2 * MICROSECONDS_PER_DAY), None, None, None,
                                     Some(Finite(100.0)), Finite(0.0), 3, None)

  const LEDGER := [BUY_ROW, SELL_ROW, WITHDRAWAL_ROW]
  const BARS := [PriceBar("A", 1, Finite(100.0)), PriceBar("A", 2, Finite(100.0))]
  const INPUT: PriceInput := [("A", BARS)]
  const SERIES_A: Series := map[1 := 100.0, 2 := 100.0]
  const TABLE: PriceTable := map["A" := SERIES_A]

  lemma RowsValid()
    ensures Valid(BUY_ROW) && Valid(SELL_ROW) && Valid(WITHDRAWAL_ROW)
    ensures AllValid(LEDGER)
  {
    OneLetter("b");
    OneLetter("s");
    OneLetter("w");
    OneLetter("A");
    hide Strip, Normalize;
  }

  lemma RowsOrdered()
    ensures InLedgerOrder(LEDGER)
    ensures DateOf(BUY_ROW) == 1 && DateOf(SELL_ROW) == 2 && DateOf(WITHDRAWAL_ROW) == 2
  {}

  lemma Cuts()
    ensures Through(LEDGER, 0) == [] && Through(LEDGER, 1) == [BUY_ROW] && Through(LEDGER, 2) == LEDGER
  {
    RowsOrdered();
    hide LedgerLe, DateOf, Through;
    ThroughIsPrefix(LEDGER, 0, 0);
    ThroughIsPrefix(LEDGER, 1, 1);
    ThroughIsPrefix(LEDGER, 2, 3);
  }

  lemma AlreadyOrdered()
    ensures LedgerSort(LEDGER) == LEDGER
  {
    RowsOrdered();
    LedgerLeIsTotalPreorder();
    hide LedgerLe;
    SortOfSorted(LEDGER, LedgerLe);
  }

  lemma Symbols()
    ensures RequiredSymbols(LEDGER, 1, 2) == Ok(["A"])
  {
    RowsValid();
    RowsOrdered();
    Cuts();
    AlreadyOrdered();
    hide LedgerSort, Through, DateOf, Validate;
    PositionsOfNone([]);
    assert BUY_ROW in LEDGER;
    assert TradedFrom(LEDGER, 1) == {"A"};
    assert Nonzero(map[]).Keys + {"A"} == {"A"};
    Singleton("A");
  }

  lemma PricesOfA()
    ensures ValidatedPrices(["A"], INPUT, 1, 2) == Ok(TABLE)
    ensures MarketDates(TABLE) == [1, 2]
  {
    OneLetter("A");
    assert BARS[..1] == [BARS[0]] && BARS[..1][..0] == [];
    assert SeriesOf("A", BARS[..1], 1, 2) == Ok(map[1 := 100.0]);
    assert SeriesOf("A", BARS, 1, 2) == Ok(SERIES_A);
    assert 1 in TABLE["A"] && 2 in TABLE["A"];
    assert ObservedDates(TABLE) == {1, 2};
    var r := SortedInts({1, 2});
    assert r[0] in r && r[1] in r;
  }

  lemma BuyStep()
    ensures Apply(EMPTY_BOOK, BUY_ROW) == Ok(Book(map["A" := 1.0], 0.0, 100.0))
  {
    RowsValid();
    hide Validate;
  }

  lemma SellStep()
    ensures Apply(Book(map["A" := 1.0], 0.0, 100.0), SELL_ROW) == Ok(Book(map["A" := 0.0], 100.0, 100.0))
  {
    RowsValid();
    hide Validate;
    assert map["A" := 1.0]["A" := 0.0] == map["A" := 0.0];
  }

  lemma WithdrawalStep()
    ensures Apply(Book(map["A" := 0.0], 100.0, 100.0), WITHDRAWAL_ROW) == Ok(Book(map["A" := 0.0], 0.0, 0.0))
  {
    RowsValid();
    hide Validate;
  }

  lemma Books()
    ensures BookOn(LEDGER, 1) == Book(map["A" := 1.0], 0.0, 100.0)
    ensures Run(LEDGER) == Ok(Book(map["A" := 0.0], 0.0, 0.0)) && BookOn(LEDGER, 2) == Book(map["A" := 0.0], 0.0, 0.0)
  {
    BuyStep();
    SellStep();
    WithdrawalStep();
    Cuts();
    hide Apply, Through, Run;
    RunAppend([], BUY_ROW);
    RunAppend([BUY_ROW], SELL_ROW);
    RunAppend([BUY_ROW, SELL_ROW], WITHDRAWAL_ROW);
    RunOfNone([]);
    assert [] + [BUY_ROW] == [BUY_ROW] && [BUY_ROW] + [SELL_ROW] == [BUY_ROW, SELL_ROW];
    assert [BUY_ROW, SELL_ROW] + [WITHDRAWAL_ROW] == LEDGER;
  }

  lemma FirstPrice()
    ensures LatestPrices(TABLE, 1) == map["A" := 100.0]
  {
    assert 1 in SERIES_A;
    assert LatestPrice(SERIES_A, 1) == Some(100.0);
  }

  lemma Values()
    ensures ValueOn(LEDGER, TABLE, 1) == Some(100.0) && ValueOn(LEDGER, TABLE, 2) == None
  {
    Books();
    FirstPrice();
    hide BookOn, Run, LatestPrices, Total;
    var active := Nonzero(map["A" := 1.0]);
    assert active == map["A" := 1.0];
    assert AssetValues(active, map["A" := 100.0]) == map["A" := 100.0];
    OneAsset(100.0);
    var none := Nonzero(map["A" := 0.0]);
    assert none == map[];
    EmptyAssets(none, LatestPrices(TABLE, 2));
    NoAssets();
  }

  lemma Prepared()
    ensures Prepare(LEDGER, INPUT, 1, 2) == Ok(Inputs(["A"], TABLE, [1, 2], LEDGER))
    ensures Valuate(LEDGER, INPUT, 1, 2) == ValuateInputs(Inputs(["A"], TABLE, [1, 2], LEDGER))
  {
    RowsValid();
    Cuts();
    AlreadyOrdered();
    Symbols();
    PricesOfA();
    hide RequiredSymbols, ValidatedPrices, MarketDates, LedgerSort, Through, Valid, Prepare, Valuate, ValuateInputs;
    assert OrderedTransactions(LEDGER, 2) == Ok(LEDGER);
    PreparedIs(LEDGER, INPUT, 1, 2, ["A"], TABLE, LEDGER);
  }

  const ONLY_POINT := Point(1, 100.0, 0.0, 100.0)

  /** The second date is skipped. */
  lemma OnlyPoint(ordered: seq<Transaction>, prices: PriceTable)
    requires ValueOn(ordered, prices, 1) == Some(100.0) && BookOn(ordered, 1) == Book(map["A" := 1.0], 0.0, 100.0)
    requires ValueOn(ordered, prices, 2) == None
    ensures PointsOn(ordered, prices, [1, 2]) == [ONLY_POINT]
  {
    hide ValueOn, BookOn;
    assert [1, 2][..1] == [1] && [1][..0] == [];
    assert PointsOn(ordered, prices, []) == [];
    assert PointsOn(ordered, prices, [1]) == [ONLY_POINT];
  }

  /** What is left after the last date weighs nothing. */
  lemma NothingLeft(latest: map<string, real>)
    ensures Finish([ONLY_POINT], Book(map["A" := 0.0], 0.0, 0.0), latest)
         == Ok(PortfolioValuation([ONLY_POINT], [], 100.0, 0.0, []))
  {
    var none := Nonzero(map["A" := 0.0]);
    assert none == map[];
    EmptyAssets(none, latest);
    assert WeightsOf(map[], 100.0) == [];
  }

  lemma ReportOf(inputs: Inputs)
    requires inputs.dates == [1, 2] && AscendingDates(inputs.dates)
    requires PointsOn(inputs.ordered, inputs.prices, [1, 2]) == [ONLY_POINT]
    requires Run(Through(inputs.ordered, 2)) == Ok(Book(map["A" := 0.0], 0.0, 0.0))
    ensures ValuateInputs(inputs) == Ok(PortfolioValuation([ONLY_POINT], [], 100.0, 0.0, []))
  {
    hide Run, Through, PointsOn, LatestPrices, Finish;
    NothingLeft(LatestPrices(inputs.prices, 2));
  }

  /** The reported cash plus the reported market values is not the reported portfolio value. */
  lemma WeightsDescribeAnotherDate()
    ensures Valuate(LEDGER, INPUT, 1, 2).Ok?
    ensures var v := Valuate(LEDGER, INPUT, 1, 2).value;
            && v.points == [Point(1, 100.0, 0.0, 100.0)]
            && v.portfolioValue == 100.0 && v.cashBalance == 0.0 && v.weights == []
            && v.cashBalance + MarketSum(v.weights) != v.portfolioValue
  {
    hide Run, Through, ValueOn, BookOn, PointsOn, Prepare, Valuate, ValuateInputs;
    Cuts();
    Books();
    Values();
    Prepared();
    OnlyPoint(LEDGER, TABLE);
    ReportOf(Inputs(["A"], TABLE, [1, 2], LEDGER));
  }
}
