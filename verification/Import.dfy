/** CSV import: `preview` simulates row by row what `commit` would do; `commit` may be repeated. */
module Import {
  import opened Wrappers
  import opened Transactions
  import opened Holdings
  import opened Admission
  import opened Store

  /** An issue of a row; the constructors after the first are the codes the services add. */
  datatype Issue =
    | ParserIssue(code: string, message: string, field: Option<string>)
    | InvalidTransactionIssue(cause: TransactionError)
    | IdempotencyConflictIssue
    | InvalidLedgerIssue(cause: TransactionError)

  datatype Candidate = Candidate(rowNumber: int, externalId: Option<string>, newTransaction: Option<NewTransaction>, issues: seq<Issue>)

  datatype Status = READY | REPLAY | INVALID | CREATED | REPLAYED | FAILED

  datatype RowResult = RowResult(
    rowNumber: int,
    externalId: Option<string>,
    status: Status,
    transaction: Option<Transaction>,
    issues: seq<Issue>)

  /** The identifier and clock reading drawn for a row. */
  datatype Draw = Draw(id: nat, at: int)

  predicate Usable(candidate: Candidate) {
    candidate.newTransaction.Some? && candidate.issues == []
  }

  function Row(candidate: Candidate, status: Status, transaction: Option<Transaction>, issue: Option<Issue>): RowResult {
    RowResult(candidate.rowNumber, candidate.externalId, status, transaction,
              candidate.issues + if issue.Some? then [issue.value] else [])
  }

  /** The preview's local ledger, its dict by external id, and the rows so far. */
  datatype Simulation = Simulation(ledger: seq<Transaction>, known: map<string, Transaction>, rows: seq<RowResult>)

  function PreviewStep(p: nat, sim: Simulation, candidate: Candidate, draw: Draw): Simulation {
    if !Usable(candidate) then sim.(rows := sim.rows + [Row(candidate, INVALID, None, None)])
    else
      var built := BuildValid(p, candidate.newTransaction.value, draw.id, draw.at);
      if built.Err? then sim.(rows := sim.rows + [Row(candidate, INVALID, None, Some(InvalidTransactionIssue(built.error)))])
      else
        var t := built.value;
        if t.externalId in sim.known then
          if SamePayload(sim.known[t.externalId], t)
          then sim.(rows := sim.rows + [Row(candidate, REPLAY, Some(sim.known[t.externalId]), None)])
          else sim.(rows := sim.rows + [Row(candidate, INVALID, None, Some(IdempotencyConflictIssue))])
        else
          var positions := DerivePositions(sim.ledger + [t]);
          if positions.Err? then sim.(rows := sim.rows + [Row(candidate, INVALID, None, Some(InvalidLedgerIssue(positions.error)))])
          else Simulation(sim.ledger + [t], sim.known[t.externalId := t], sim.rows + [Row(candidate, READY, Some(t), None)])
  }

  /** `{t.external_id: t for t in ledger}`: a later row replaces an earlier one. */
  function ByExternalId(ledger: seq<Transaction>): map<string, Transaction> {
    if ledger == [] then map[]
    else ByExternalId(ledger[..|ledger| - 1])[ledger[|ledger| - 1].externalId := ledger[|ledger| - 1]]
  }

  function PreviewRun(p: nat, stored: seq<Transaction>, candidates: seq<Candidate>, draws: seq<Draw>): Simulation
    requires |draws| == |candidates|
  {
    if candidates == [] then Simulation(LedgerSort(stored), ByExternalId(LedgerSort(stored)), [])
    else
      var n := |candidates| - 1;
      PreviewStep(p, PreviewRun(p, stored, candidates[..n], draws[..n]), candidates[n], draws[n])
  }

  /** The committed ledger, in insertion order, and the rows so far. */
  datatype Progress = Progress(ledger: seq<Transaction>, rows: seq<RowResult>)

  function CommitRow(candidate: Candidate, answer: Result<Creation, ServiceError>): RowResult {
    match answer
    case Ok(creation) => Row(candidate, if creation.created then CREATED else REPLAYED, Some(creation.transaction), None)
    case Err(IdempotencyConflict(_)) => Row(candidate, FAILED, None, Some(IdempotencyConflictIssue))
    case Err(InvalidTransaction(e)) => Row(candidate, FAILED, None, Some(InvalidTransactionIssue(e)))
    case Err(PortfolioNotFound) => Row(candidate, FAILED, None, None)
  }

  function CommitStep(p: nat, done: Progress, candidate: Candidate, draw: Draw): Progress {
    if !Usable(candidate) then done.(rows := done.rows + [Row(candidate, FAILED, None, None)])
    else
      var answer := Admit(done.ledger, p, candidate.newTransaction.value, draw.id, draw.at);
      Progress(Committed(done.ledger, answer), done.rows + [CommitRow(candidate, answer)])
  }

  function CommitRun(p: nat, stored: seq<Transaction>, candidates: seq<Candidate>, draws: seq<Draw>): Progress
    requires |draws| == |candidates|
  {
    if candidates == [] then Progress(stored, [])
    else
      var n := |candidates| - 1;
      CommitStep(p, CommitRun(p, stored, candidates[..n], draws[..n]), candidates[n], draws[n])
  }

  class TransactionImportService {
    const store: InMemoryStore
    const service: TransactionService

    constructor (store: InMemoryStore)
      ensures this.store == store && service.store == store && fresh(service)
    {
      this.store := store;
      this.service := new TransactionService(store);
    }

    /** Reads the store and changes nothing in it. */
    method Preview(owner: nat, portfolioId: nat, candidates: seq<Candidate>, draws: seq<Draw>)
      returns (r: Result<seq<RowResult>, ServiceError>)
      requires |draws| == |candidates|
      ensures r == if portfolioId !in store.portfolios || store.portfolios[portfolioId] != owner then Err(PortfolioNotFound)
                   else Ok(PreviewRun(portfolioId, RowsOf(store.transactions, portfolioId), candidates, draws).rows)
    {
      hide BuildValid, DerivePositions, LedgerSort, RowsOf, ByExternalId, SamePayload;
      if portfolioId !in store.portfolios || store.portfolios[portfolioId] != owner {
        return Err(PortfolioNotFound);
      }
      ghost var stored := RowsOf(store.transactions, portfolioId);
      var repository := new InMemoryTransactionRepository(store);
      var ledger := repository.ListForPortfolio(portfolioId);
      var known := ByExternalId(ledger);
      var rows: seq<RowResult> := [];
      for i := 0 to |candidates|
        invariant Simulation(ledger, known, rows) == PreviewRun(portfolioId, stored, candidates[..i], draws[..i])
      {
        var candidate, draw := candidates[i], draws[i];
        PreviewRunStep(portfolioId, stored, candidates, draws, i);
        if !Usable(candidate) {
          rows := rows + [Row(candidate, INVALID, None, None)];
          continue;
        }
        var built := BuildValid(portfolioId, candidate.newTransaction.value, draw.id, draw.at);
        if built.Err? {
          rows := rows + [Row(candidate, INVALID, None, Some(InvalidTransactionIssue(built.error)))];
          continue;
        }
        var t := built.value;
        if t.externalId in known {
          if SamePayload(known[t.externalId], t) {
            rows := rows + [Row(candidate, REPLAY, Some(known[t.externalId]), None)];
          } else {
            rows := rows + [Row(candidate, INVALID, None, Some(IdempotencyConflictIssue))];
          }
          continue;
        }
        var positions := DerivePositionsLoop(ledger + [t]);
        if positions.Err? {
          rows := rows + [Row(candidate, INVALID, None, Some(InvalidLedgerIssue(positions.error)))];
          continue;
        }
        ledger := ledger + [t];
        known := known[t.externalId := t];
        rows := rows + [Row(candidate, READY, Some(t), None)];
      }
      assert candidates[..|candidates|] == candidates && draws[..|draws|] == draws;
      return Ok(rows);
    }

    /** Creates row by row; each row is its own committed request. */
    method Commit(owner: nat, portfolioId: nat, candidates: seq<Candidate>, draws: seq<Draw>)
      returns (r: Result<seq<RowResult>, ServiceError>)
      requires |draws| == |candidates| && service.store == store
      modifies store`transactions
      ensures r.Ok? <==> portfolioId in store.portfolios && store.portfolios[portfolioId] == owner
      ensures r.Err? ==> r.error == PortfolioNotFound && store.transactions == old(store.transactions)
      ensures r.Ok? ==>
        Progress(RowsOf(store.transactions, portfolioId), r.value)
        == CommitRun(portfolioId, old(RowsOf(store.transactions, portfolioId)), candidates, draws)
      ensures forall other :: other != portfolioId ==> RowsOf(store.transactions, other) == old(RowsOf(store.transactions, other))
    {
      hide Admit, RowsOf, Committed;
      if portfolioId !in store.portfolios || store.portfolios[portfolioId] != owner {
        return Err(PortfolioNotFound);
      }
      ghost var stored := RowsOf(store.transactions, portfolioId);
      var rows: seq<RowResult> := [];
      for i := 0 to |candidates|
        invariant Progress(RowsOf(store.transactions, portfolioId), rows) == CommitRun(portfolioId, stored, candidates[..i], draws[..i])
        invariant forall other :: other != portfolioId ==> RowsOf(store.transactions, other) == old(RowsOf(store.transactions, other))
      {
        var candidate, draw := candidates[i], draws[i];
        CommitRunStep(portfolioId, stored, candidates, draws, i);
        if !Usable(candidate) {
          rows := rows + [Row(candidate, FAILED, None, None)];
          continue;
        }
        ghost var before := store.transactions;
        var answer := service.Create(owner, portfolioId, candidate.newTransaction.value, draw.id, draw.at);
        forall other {
          CreateIsLocal(store.portfolios, before, owner, portfolioId, candidate.newTransaction.value, draw.id, draw.at, other);
        }
        rows := rows + [CommitRow(candidate, answer)];
      }
      assert candidates[..|candidates|] == candidates && draws[..|draws|] == draws;
      return Ok(rows);
    }
  }

  lemma PreviewRunStep(p: nat, stored: seq<Transaction>, candidates: seq<Candidate>, draws: seq<Draw>, i: nat)
    requires |draws| == |candidates| && i < |candidates|
    ensures PreviewRun(p, stored, candidates[..i + 1], draws[..i + 1])
         == PreviewStep(p, PreviewRun(p, stored, candidates[..i], draws[..i]), candidates[i], draws[i])
  {
    hide PreviewStep;
    assert candidates[..i + 1][..i] == candidates[..i] && draws[..i + 1][..i] == draws[..i];
  }

  lemma CommitRunStep(p: nat, stored: seq<Transaction>, candidates: seq<Candidate>, draws: seq<Draw>, i: nat)
    requires |draws| == |candidates| && i < |candidates|
    ensures CommitRun(p, stored, candidates[..i + 1], draws[..i + 1])
         == CommitStep(p, CommitRun(p, stored, candidates[..i], draws[..i]), candidates[i], draws[i])
  {
    hide CommitStep;
    assert candidates[..i + 1][..i] == candidates[..i] && draws[..i + 1][..i] == draws[..i];
  }
}
