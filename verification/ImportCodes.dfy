/** When preview and commit report one row under different codes. */
module ImportCodes {
  import opened Wrappers
  import opened Sorting
  import opened Text
  import opened Transactions
  import opened Holdings
  import opened Admission
  import opened Import
  import opened ImportLaws

  /** A usable row that builds, under an unknown external id, and that the ledger check refuses. */
  ghost predicate LedgerRefuses(p: nat, sim: Simulation, candidate: Candidate, draw: Draw) {
    && Usable(candidate)
    && var built := BuildValid(p, candidate.newTransaction.value, draw.id, draw.at);
       built.Ok? && built.value.externalId !in sim.known && DerivePositions(sim.ledger + [built.value]).Err?
  }

  /** The preview calls it an invalid ledger, the commit an invalid transaction; both name the oversold symbol. */
  ghost predicate OversellIssues(a: seq<Issue>, b: seq<Issue>) {
    exists s :: a == [InvalidLedgerIssue(SellExceedsPosition(s))] && b == [InvalidTransactionIssue(SellExceedsPosition(s))]
  }

  lemma RefusalNamesSymbol(ts: seq<Transaction>)
    requires AllValid(ts) && DerivePositions(ts).Err?
    ensures PositionsAfter(LedgerSort(ts)).Err?
    ensures DerivePositions(ts) == Err(SellExceedsPosition(PositionsAfter(LedgerSort(ts)).error))
  {
    hide PositionsAfter, LedgerSort, Report;
  }

  /** On a ledger of valid rows both checks refuse for the same oversold symbol. */
  lemma ChecksRefuseAlike(stored: seq<Transaction>, previewed: seq<Transaction>, committed: seq<Transaction>,
                          x: Transaction, y: Transaction) returns (s: string)
    requires LedgersAlike(stored, previewed, committed) && Valid(x) && Valid(y) && SamePayload(x, y) && AllValid(stored)
    requires RecordedBefore(previewed, Recorded(x)) && RecordedBefore(committed, Recorded(y))
    requires DerivePositions(previewed + [x]).Err?
    ensures DerivePositions(previewed + [x]) == Err(SellExceedsPosition(s)) == DerivePositions(LedgerSort(committed) + [y])
  {
    hide Valid, PositionsAfter, LedgerLe, SamePayload, DerivePositions, Recorded, RecordedBefore, Twins, LedgersAlike;
    ChecksAgree(stored, previewed, committed, x, y);
    TwinPositions(LedgerSort(previewed + [x]), LedgerSort(committed + [y]));
    LedgerLeIsTotalPreorder();
    SortAppend(committed, y, LedgerLe);
    ExtensionValid(stored, previewed, committed);
    ValidityAgrees(stored, previewed, committed);
    LedgerSortFacts(committed);
    ValidSplit(previewed, [x]);
    ValidSplit(LedgerSort(committed), [y]);
    RefusalNamesSymbol(previewed + [x]);
    RefusalNamesSymbol(LedgerSort(committed) + [y]);
    s := PositionsAfter(LedgerSort(previewed + [x])).error;
  }

  lemma ExtensionValid(stored: seq<Transaction>, previewed: seq<Transaction>, committed: seq<Transaction>)
    requires LedgersAlike(stored, previewed, committed) && AllValid(stored)
    ensures AllValid(previewed)
  {
    hide Valid, LedgerSort, Twins;
    LedgerSortFacts(stored);
    assert previewed == previewed[..|stored|] + previewed[|stored|..];
    ValidSplit(previewed[..|stored|], previewed[|stored|..]);
  }

  /** The issues of one row, previewed and committed. */
  ghost predicate CodesDifferIffRefused(refused: bool, a: seq<Issue>, b: seq<Issue>) {
    (a != b <==> refused) && (a != b ==> OversellIssues(a, b))
  }

  lemma BuiltRowCodes(p: nat, stored: seq<Transaction>, sim: Simulation, done: Progress, candidate: Candidate, d: Draw, d': Draw,
                      x: Transaction, y: Transaction)
    requires Simulates(stored, sim, done) && AllValid(stored) && Usable(candidate)
    requires RecordedBefore(sim.ledger, d.at) && RecordedBefore(done.ledger, d'.at)
    requires BuildValid(p, candidate.newTransaction.value, d.id, d.at) == Ok(x)
    requires BuildValid(p, candidate.newTransaction.value, d'.id, d'.at) == Ok(y)
    requires SamePayload(x, y) && Valid(x) && Valid(y)
    requires x.createdAt == Some(Aware(d.at)) && y.createdAt == Some(Aware(d'.at))
    ensures CodesDifferIffRefused(LedgerRefuses(p, sim, candidate, d),
                                  LastIssues(PreviewStep(p, sim, candidate, d).rows),
                                  LastIssues(CommitStep(p, done, candidate, d').rows))
  {
    hide BuildValid, DerivePositions, LedgerSort, Find, SamePayload, Twins, AllValid, Simulates, Valid, RecordedBefore, LedgerLe,
      LedgersAlike, RowsAlike;
    var e := x.externalId;
    SamePayloadIds(x, y);
    KnownFacts(stored, sim, done, e);
    SimulatesLedgers(stored, sim, done);
    if e in sim.known {
      SamePayloadTransfers(sim.known[e], Find(done.ledger, e).value, x, y);
    } else {
      ChecksAgree(stored, sim.ledger, done.ledger, x, y);
      if DerivePositions(sim.ledger + [x]).Err? {
        var s := ChecksRefuseAlike(stored, sim.ledger, done.ledger, x, y);
        var a, b := InvalidLedgerIssue(SellExceedsPosition(s)), InvalidTransactionIssue(SellExceedsPosition(s));
        assert [] + [a] == [a] && [] + [b] == [b];
        assert PreviewStep(p, sim, candidate, d).rows == sim.rows + [Row(candidate, INVALID, None, Some(a))];
        assert CommitStep(p, done, candidate, d').rows == done.rows + [Row(candidate, FAILED, None, Some(b))];
      }
    }
  }

  /** The issues of the row a step has just added. */
  function LastIssues(rows: seq<RowResult>): seq<Issue> {
    if rows == [] then [] else rows[|rows| - 1].issues
  }

  lemma RowCodes(p: nat, stored: seq<Transaction>, sim: Simulation, done: Progress, candidate: Candidate, d: Draw, d': Draw)
    requires Simulates(stored, sim, done) && AllValid(stored)
    requires Usable(candidate) ==> RecordedBefore(sim.ledger, d.at) && RecordedBefore(done.ledger, d'.at)
    ensures CodesDifferIffRefused(LedgerRefuses(p, sim, candidate, d),
                                  LastIssues(PreviewStep(p, sim, candidate, d).rows),
                                  LastIssues(CommitStep(p, done, candidate, d').rows))
  {
    hide BuildValid, DerivePositions, LedgerSort, Find, SamePayload, AllValid, Simulates, Valid, RecordedBefore;
    if Usable(candidate) {
      var n := candidate.newTransaction.value;
      BuildDraws(p, n, d.id, d.at, d'.id, d'.at);
      BuildDraws(p, n, d'.id, d'.at, d.id, d.at);
      var built, built' := BuildValid(p, n, d.id, d.at), BuildValid(p, n, d'.id, d'.at);
      if built.Ok? {
        BuiltRowCodes(p, stored, sim, done, candidate, d, d', built.value, built'.value);
      }
    }
  }

  lemma StepsAppend(p: nat, sim: Simulation, done: Progress, candidate: Candidate, d: Draw, d': Draw)
    ensures var rows := PreviewStep(p, sim, candidate, d).rows; |rows| == |sim.rows| + 1 && rows[..|sim.rows|] == sim.rows
    ensures var rows := CommitStep(p, done, candidate, d').rows; |rows| == |done.rows| + 1 && rows[..|done.rows|] == done.rows
  {
    hide BuildValid, DerivePositions, SamePayload, Admit;
  }

  /**
   * Over a stored ledger of valid rows, a previewed row and the committed one carry different
   * codes exactly when the row is usable, builds, has an unknown external id and is refused by the
   * ledger check; then both name the same oversold symbol, and otherwise the issues are the same.
   */
  lemma {:induction false} CodesDifferIff(p: nat, stored: seq<Transaction>, candidates: seq<Candidate>, draws: seq<Draw>, draws': seq<Draw>, i: nat)
    requires |draws| == |candidates| == |draws'| && i < |candidates|
    requires UniqueExternalIds(stored) && AllValid(stored)
    requires ClockAdvances(stored, candidates, draws) && ClockAdvances(stored, candidates, draws')
    ensures var a, b := PreviewRun(p, stored, candidates, draws).rows, CommitRun(p, stored, candidates, draws').rows;
            && |a| == |b| == |candidates|
            && CodesDifferIffRefused(LedgerRefuses(p, PreviewRun(p, stored, candidates[..i], draws[..i]), candidates[i], draws[i]),
                                     a[i].issues, b[i].issues)
  {
    hide PreviewStep, CommitStep, Simulates, UniqueExternalIds, RecordedBefore, AllValid, LedgerRefuses, CodesDifferIffRefused;
    var n := |candidates| - 1;
    var sim, done := PreviewRun(p, stored, candidates[..n], draws[..n]), CommitRun(p, stored, candidates[..n], draws'[..n]);
    StepsAppend(p, sim, done, candidates[n], draws[n], draws'[n]);
    RowCounts(p, stored, candidates[..n], draws[..n], draws'[..n]);
    if i == n {
      PreviewSimulatesCommit(p, stored, candidates[..n], draws[..n], draws'[..n]);
      if Usable(candidates[n]) {
        PreviewRecorded(p, stored, candidates[..n], draws[..n], draws[n].at);
        CommitRecorded(p, stored, candidates[..n], draws'[..n], draws'[n].at);
      }
      RowCodes(p, stored, sim, done, candidates[n], draws[n], draws'[n]);
    } else {
      CodesDifferIff(p, stored, candidates[..n], draws[..n], draws'[..n], i);
      assert candidates[..n][..i] == candidates[..i] && draws[..n][..i] == draws[..i];
    }
  }

  lemma {:induction false} RowCounts(p: nat, stored: seq<Transaction>, candidates: seq<Candidate>, draws: seq<Draw>, draws': seq<Draw>)
    requires |draws| == |candidates| == |draws'|
    ensures |PreviewRun(p, stored, candidates, draws).rows| == |CommitRun(p, stored, candidates, draws').rows| == |candidates|
  {
    hide PreviewStep, CommitStep, LedgerSort, ByExternalId;
    if candidates != [] {
      var n := |candidates| - 1;
      RowCounts(p, stored, candidates[..n], draws[..n], draws'[..n]);
      StepsAppend(p, PreviewRun(p, stored, candidates[..n], draws[..n]), CommitRun(p, stored, candidates[..n], draws'[..n]),
                  candidates[n], draws[n], draws'[n]);
    }
  }

  const SELL_OF_NOTHING := NewTransaction("s", SELL, Aware(0), Some("A"), Some(Finite(1.0)), Some(Finite(1.0)), None, Finite(0.0))
  const OVERSELLING := Candidate(1, Some("s"), Some(SELL_OF_NOTHING), [])

  /** A sale out of an empty ledger is such a row. */
  lemma OversellingRow(draw: Draw, draw': Draw)
    ensures PreviewRun(1, [], [OVERSELLING], [draw]).rows
         == [RowResult(1, Some("s"), INVALID, None, [InvalidLedgerIssue(SellExceedsPosition("A"))])]
    ensures CommitRun(1, [], [OVERSELLING], [draw']).rows
         == [RowResult(1, Some("s"), FAILED, None, [InvalidTransactionIssue(SellExceedsPosition("A"))])]
  {
    hide DerivePositions, LedgerSort, ByExternalId, BuildValid;
    SaleBuilds(draw.id, draw.at);
    SaleBuilds(draw'.id, draw'.at);
    NoRows();
    SaleRefused(draw.id, draw.at);
    SaleRefused(draw'.id, draw'.at);
    assert [OVERSELLING][..0] == [] && [draw][..0] == [] && [draw'][..0] == [];
    assert PreviewRun(1, [], [], []) == Simulation([], map[], []);
    assert CommitRun(1, [], [], []) == Progress([], []);
    var a, b := InvalidLedgerIssue(SellExceedsPosition("A")), InvalidTransactionIssue(SellExceedsPosition("A"));
    assert [] + [a] == [a] && [] + [b] == [b];
  }

  lemma NoRows()
    ensures LedgerSort([]) == [] && ByExternalId([]) == map[]
  {}

  function Sale(id: nat, at: int): Transaction {
    Transaction(1, "s", SELL, Aware(0), Some("A"), Some(Finite(1.0)), Some(Finite(1.0)), None, Finite(0.0), id, Some(Aware(at)))
  }

  lemma SaleBuilds(id: nat, at: int)
    ensures BuildValid(1, SELL_OF_NOTHING, id, at) == Ok(Sale(id, at)) && Valid(Sale(id, at))
  {
    OneLetter("s");
    OneLetter("A");
    hide Strip, Normalize;
    WholeNumber(1.0, QUANTITY_SCALE, 1_000_000_000_000, "quantity");
    WholeNumber(1.0, MONEY_SCALE, 100_000_000, "unit_price");
    WholeNumber(0.0, MONEY_SCALE, 0, "fees");
    hide QuantizeExact;
  }

  lemma WholeNumber(v: real, scale: real, n: int, field: string)
    requires Fits(v, scale, n)
    ensures QuantizeExact(Some(Finite(v)), scale, field) == Ok(Some(Finite(v)))
  {
    QuantizeExactIff(v, scale, field);
  }

  lemma OneRowSorted(x: Transaction)
    ensures LedgerSort([x]) == [x]
  {
    LedgerLeIsTotalPreorder();
    hide LedgerLe;
    SortOfSorted([x], LedgerLe);
  }

  lemma SaleOversells(id: nat, at: int)
    ensures PositionsAfter([Sale(id, at)]) == Err("A")
  {
    assert [Sale(id, at)][..0] == [];
    assert ApplyPosition(map[], Sale(id, at)) == Err("A");
  }

  lemma SaleRefused(id: nat, at: int)
    ensures DerivePositions([] + [Sale(id, at)]) == Err(SellExceedsPosition("A"))
  {
    hide Valid, BuildValid, LedgerSort, PositionsAfter, Report;
    SaleBuilds(id, at);
    OneRowSorted(Sale(id, at));
    SaleOversells(id, at);
    assert [] + [Sale(id, at)] == [Sale(id, at)];
    assert AllValid([Sale(id, at)]);
  }
}
