/** What each row of an import reports: its candidate's own data and issues, and why it was refused. */
module ImportRows {
  import opened Wrappers
  import opened Transactions
  import opened Holdings
  import opened Admission
  import opened Import
  import opened ImportLaws
  import opened ImportCodes

  /** Distinct rows have distinct external ids. */
  ghost predicate OneRowPerId(ledger: seq<Transaction>) {
    forall x, y :: x in ledger && y in ledger && x.externalId == y.externalId ==> x == y
  }

  /** The row repeats its candidate's number and id, and says no more than this. */
  ghost predicate Tells(row: RowResult, c: Candidate, status: Status, transaction: Option<Transaction>, issues: seq<Issue>) {
    && row.rowNumber == c.rowNumber && row.externalId == c.externalId
    && row.status == status && row.transaction == transaction && row.issues == issues
  }

  ghost predicate Unknown(ledger: seq<Transaction>, t: Transaction) {
    forall stored :: stored in ledger ==> stored.externalId != t.externalId
  }

  /**
   * A previewed row, over the simulated ledger it meets. An unusable candidate is invalid with its
   * own issues. A usable one has none of its own and gets one when it does not build, conflicts
   * with a known row, or is refused by the ledger; otherwise it is a replay or ready.
   */
  ghost predicate Previewed(p: nat, ledger: seq<Transaction>, c: Candidate, d: Draw, row: RowResult) {
    if !Usable(c) then Tells(row, c, INVALID, None, c.issues)
    else
      var built := BuildValid(p, c.newTransaction.value, d.id, d.at);
      && (built.Err? ==> Tells(row, c, INVALID, None, [InvalidTransactionIssue(built.error)]))
      && (forall t, stored :: built == Ok(t) && stored in ledger && stored.externalId == t.externalId ==>
            if Payload(stored) == Payload(t) then Tells(row, c, REPLAY, Some(stored), [])
            else Tells(row, c, INVALID, None, [IdempotencyConflictIssue]))
      && (forall t :: built == Ok(t) && Unknown(ledger, t) ==>
            && (Acceptable(ledger, t) ==> Tells(row, c, READY, Some(t), []))
            && (!Acceptable(ledger, t) ==> exists e :: Tells(row, c, INVALID, None, [InvalidLedgerIssue(e)])
                                                       && (AllValid(ledger) ==> e.SellExceedsPosition?)))
  }

  /** The same of a committed row, over the committed ledger; there a refused ledger is an invalid transaction. */
  ghost predicate CommittedAs(p: nat, ledger: seq<Transaction>, c: Candidate, d: Draw, row: RowResult) {
    if !Usable(c) then Tells(row, c, FAILED, None, c.issues)
    else
      var built := BuildValid(p, c.newTransaction.value, d.id, d.at);
      && (built.Err? ==> Tells(row, c, FAILED, None, [InvalidTransactionIssue(built.error)]))
      && (forall t, stored :: built == Ok(t) && stored in ledger && stored.externalId == t.externalId ==>
            if Payload(stored) == Payload(t) then Tells(row, c, REPLAYED, Some(stored), [])
            else Tells(row, c, FAILED, None, [IdempotencyConflictIssue]))
      && (forall t :: built == Ok(t) && Unknown(ledger, t) ==>
            && (Acceptable(ledger, t) ==> Tells(row, c, CREATED, Some(t), []))
            && (!Acceptable(ledger, t) ==> exists e :: Tells(row, c, FAILED, None, [InvalidTransactionIssue(e)])
                                                       && (AllValid(ledger) ==> e.SellExceedsPosition?)))
  }

  /** The ledger after the row: one more transaction when it is ready or created. */
  ghost predicate Grows(before: seq<Transaction>, row: RowResult, after: seq<Transaction>) {
    if row.status.READY? || row.status.CREATED? then row.transaction.Some? && after == before + [row.transaction.value]
    else after == before
  }

  /** The dict of the preview holds the simulated ledger's rows under their external ids. */
  ghost predicate KnowsLedger(sim: Simulation) {
    && OneRowPerId(sim.ledger)
    && (forall e :: e in sim.known ==> sim.known[e] in sim.ledger && sim.known[e].externalId == e)
    && (forall x :: x in sim.ledger ==> x.externalId in sim.known)
  }

  lemma KnownRow(sim: Simulation, stored: Transaction)
    requires KnowsLedger(sim) && stored in sim.ledger
    ensures stored.externalId in sim.known && sim.known[stored.externalId] == stored
  {}

  lemma DerivesIff(ledger: seq<Transaction>, t: Transaction)
    requires Valid(t)
    ensures Acceptable(ledger, t) <==> DerivePositions(ledger + [t]).Ok?
    ensures AllValid(ledger) && !Acceptable(ledger, t) ==> DerivePositions(ledger + [t]).error.SellExceedsPosition?
  {
    hide LedgerSort, Valid, NeverOversold, PositionsAfter, Report;
    DeriveAcceptsIff(ledger + [t]);
    AllValidAppend(ledger, t);
  }

  lemma OneIssue(c: Candidate, issue: Issue)
    requires c.issues == []
    ensures c.issues + [issue] == [issue] && c.issues + [] == []
  {}

  lemma PreviewOne(p: nat, sim: Simulation, c: Candidate, d: Draw)
    requires KnowsLedger(sim)
    ensures var after := PreviewStep(p, sim, c, d);
            && |after.rows| == |sim.rows| + 1
            && Previewed(p, sim.ledger, c, d, after.rows[|sim.rows|])
            && Grows(sim.ledger, after.rows[|sim.rows|], after.ledger)
  {
    hide BuildValid, DerivePositions, SamePayload, Payload, Acceptable, KnowsLedger, AllValid;
    if Usable(c) {
      var built := BuildValid(p, c.newTransaction.value, d.id, d.at);
      OneIssue(c, IdempotencyConflictIssue);
      if built.Err? {
        OneIssue(c, InvalidTransactionIssue(built.error));
      } else {
        PreviewBuilt(p, sim, c, d, built.value);
      }
    }
  }

  lemma PreviewKnown(p: nat, sim: Simulation, c: Candidate, d: Draw, t: Transaction)
    requires Usable(c) && BuildValid(p, c.newTransaction.value, d.id, d.at) == Ok(t) && t.externalId in sim.known
    ensures var after, stored := PreviewStep(p, sim, c, d), sim.known[t.externalId];
            && |after.rows| == |sim.rows| + 1 && after.ledger == sim.ledger
            && if Payload(stored) == Payload(t) then Tells(after.rows[|sim.rows|], c, REPLAY, Some(stored), [])
               else Tells(after.rows[|sim.rows|], c, INVALID, None, [IdempotencyConflictIssue])
  {
    hide BuildValid, DerivePositions, SamePayload, Payload;
    SamePayloadIsPayload(sim.known[t.externalId], t);
    OneIssue(c, IdempotencyConflictIssue);
  }

  lemma PreviewNew(p: nat, sim: Simulation, c: Candidate, d: Draw, t: Transaction)
    requires Usable(c) && BuildValid(p, c.newTransaction.value, d.id, d.at) == Ok(t) && t.externalId !in sim.known
    ensures var after, derived := PreviewStep(p, sim, c, d), DerivePositions(sim.ledger + [t]);
            && |after.rows| == |sim.rows| + 1
            && (derived.Ok? ==> after.ledger == sim.ledger + [t] && Tells(after.rows[|sim.rows|], c, READY, Some(t), []))
            && (derived.Err? ==>
                 after.ledger == sim.ledger && Tells(after.rows[|sim.rows|], c, INVALID, None, [InvalidLedgerIssue(derived.error)]))
  {
    hide BuildValid, DerivePositions, SamePayload;
    var derived := DerivePositions(sim.ledger + [t]);
    if derived.Err? {
      OneIssue(c, InvalidLedgerIssue(derived.error));
    } else {
      OneIssue(c, IdempotencyConflictIssue);
    }
  }

  lemma PreviewBuilt(p: nat, sim: Simulation, c: Candidate, d: Draw, t: Transaction)
    requires KnowsLedger(sim) && Usable(c) && BuildValid(p, c.newTransaction.value, d.id, d.at) == Ok(t)
    ensures var after := PreviewStep(p, sim, c, d);
            && |after.rows| == |sim.rows| + 1
            && Previewed(p, sim.ledger, c, d, after.rows[|sim.rows|])
            && Grows(sim.ledger, after.rows[|sim.rows|], after.ledger)
  {
    hide BuildValid, DerivePositions, Payload, Acceptable, KnowsLedger, AllValid, PreviewStep;
    forall stored | stored in sim.ledger ensures stored.externalId in sim.known && sim.known[stored.externalId] == stored {
      KnownRow(sim, stored);
    }
    if t.externalId in sim.known {
      KnownIsStored(sim, t.externalId);
      PreviewKnown(p, sim, c, d, t);
    } else {
      BuildDraws(p, c.newTransaction.value, d.id, d.at, d.id, d.at);
      DerivesIff(sim.ledger, t);
      PreviewNew(p, sim, c, d, t);
    }
  }

  lemma KnownIsStored(sim: Simulation, e: string)
    requires KnowsLedger(sim) && e in sim.known
    ensures sim.known[e] in sim.ledger && sim.known[e].externalId == e
  {}

  lemma StillKnows(p: nat, sim: Simulation, c: Candidate, d: Draw)
    requires KnowsLedger(sim)
    ensures KnowsLedger(PreviewStep(p, sim, c, d))
  {
    hide BuildValid, DerivePositions, SamePayload;
  }

  lemma KnowsStored(stored: seq<Transaction>)
    requires UniqueExternalIds(stored)
    ensures KnowsLedger(Simulation(LedgerSort(stored), ByExternalId(LedgerSort(stored)), []))
  {
    hide LedgerSort, ByExternalId, Valid;
    var sorted := LedgerSort(stored);
    LedgerSortFacts(stored);
    forall x, y | x in sorted && y in sorted && x.externalId == y.externalId ensures x == y {
      var i :| 0 <= i < |stored| && stored[i] == x;
      var j :| 0 <= j < |stored| && stored[j] == y;
    }
    forall e {
      KnownIsFind(sorted, e);
    }
  }

  lemma {:induction false} RunKnows(p: nat, stored: seq<Transaction>, candidates: seq<Candidate>, draws: seq<Draw>)
    requires |draws| == |candidates| && UniqueExternalIds(stored)
    ensures KnowsLedger(PreviewRun(p, stored, candidates, draws))
  {
    hide PreviewStep, KnowsLedger, ByExternalId, LedgerSort;
    if candidates == [] {
      KnowsStored(stored);
    } else {
      var n := |candidates| - 1;
      RunKnows(p, stored, candidates[..n], draws[..n]);
      StillKnows(p, PreviewRun(p, stored, candidates[..n], draws[..n]), candidates[n], draws[n]);
    }
  }

  /** Every row of a preview, and the simulated ledger it leaves for the next. */
  lemma {:induction false} PreviewTells(p: nat, stored: seq<Transaction>, candidates: seq<Candidate>, draws: seq<Draw>, i: nat)
    requires |draws| == |candidates| && i < |candidates| && UniqueExternalIds(stored)
    ensures |PreviewRun(p, stored, candidates, draws).rows| == |candidates|
    ensures var before, row := PreviewRun(p, stored, candidates[..i], draws[..i]).ledger, PreviewRun(p, stored, candidates, draws).rows[i];
            && Previewed(p, before, candidates[i], draws[i], row)
            && Grows(before, row, PreviewRun(p, stored, candidates[..i + 1], draws[..i + 1]).ledger)
    ensures PreviewRun(p, stored, [], []).ledger == LedgerSort(stored)
  {
    hide PreviewStep, Previewed, Grows, KnowsLedger, UniqueExternalIds, LedgerSort, ByExternalId;
    var n := |candidates| - 1;
    RowCounts(p, stored, candidates, draws, draws);
    var sim := PreviewRun(p, stored, candidates[..n], draws[..n]);
    RowCounts(p, stored, candidates[..n], draws[..n], draws[..n]);
    StepsAppend(p, sim, CommitRun(p, stored, candidates[..n], draws[..n]), candidates[n], draws[n], draws[n]);
    if i == n {
      assert candidates[..i + 1] == candidates && draws[..i + 1] == draws;
      RunKnows(p, stored, candidates[..n], draws[..n]);
      PreviewOne(p, sim, candidates[n], draws[n]);
    } else {
      PreviewTells(p, stored, candidates[..n], draws[..n], i);
      assert candidates[..n][..i] == candidates[..i] && draws[..n][..i] == draws[..i];
      assert candidates[..n][..i + 1] == candidates[..i + 1] && draws[..n][..i + 1] == draws[..i + 1];
    }
  }

  /** A usable candidate's row follows the answer of `create`. */
  lemma CommitRowTells(p: nat, done: Progress, c: Candidate, d: Draw)
    requires Usable(c)
    ensures var after, answer := CommitStep(p, done, c, d), Admit(done.ledger, p, c.newTransaction.value, d.id, d.at);
            && |after.rows| == |done.rows| + 1
            && var row := after.rows[|done.rows|];
            match answer
            case Ok(Creation(t, created)) =>
              && Tells(row, c, if created then CREATED else REPLAYED, Some(t), [])
              && after.ledger == if created then done.ledger + [t] else done.ledger
            case Err(IdempotencyConflict(_)) =>
              Tells(row, c, FAILED, None, [IdempotencyConflictIssue]) && after.ledger == done.ledger
            case Err(InvalidTransaction(e)) =>
              Tells(row, c, FAILED, None, [InvalidTransactionIssue(e)]) && after.ledger == done.ledger
            case Err(PortfolioNotFound) => true
  {
    hide Admit;
    var answer := Admit(done.ledger, p, c.newTransaction.value, d.id, d.at);
    OneIssue(c, if answer.Err? && answer.error.InvalidTransaction? then InvalidTransactionIssue(answer.error.cause) else IdempotencyConflictIssue);
  }

  lemma CommitOne(p: nat, done: Progress, c: Candidate, d: Draw)
    requires UniqueExternalIds(done.ledger)
    ensures var after := CommitStep(p, done, c, d);
            && |after.rows| == |done.rows| + 1
            && CommittedAs(p, done.ledger, c, d, after.rows[|done.rows|])
            && Grows(done.ledger, after.rows[|done.rows|], after.ledger)
  {
    if Usable(c) {
      CommitUsable(p, done, c, d);
    } else {
      hide Admit, BuildValid;
    }
  }

  lemma CommittedGrows(p: nat, done: Progress, c: Candidate, d: Draw)
    requires Usable(c)
    ensures var after := CommitStep(p, done, c, d);
            && |after.rows| == |done.rows| + 1
            && Grows(done.ledger, after.rows[|done.rows|], after.ledger)
  {
    CommitRowTells(p, done, c, d);
    hide BuildValid, Find, SamePayload, DerivePositions, LedgerSort, CommitStep;
  }

  lemma CommitUsable(p: nat, done: Progress, c: Candidate, d: Draw)
    requires UniqueExternalIds(done.ledger) && Usable(c)
    ensures var after := CommitStep(p, done, c, d);
            && |after.rows| == |done.rows| + 1
            && CommittedAs(p, done.ledger, c, d, after.rows[|done.rows|])
            && Grows(done.ledger, after.rows[|done.rows|], after.ledger)
  {
    hide BuildValid, Admit, Payload, Acceptable, UniqueExternalIds, AllValid, CommitStep, Tells, Grows;
    var built := BuildValid(p, c.newTransaction.value, d.id, d.at);
    AdmitAnswers(done.ledger, p, c.newTransaction.value, d.id, d.at);
    CommitRowTells(p, done, c, d);
    CommittedGrows(p, done, c, d);
    if built.Ok? && !Unknown(done.ledger, built.value) {
      var stored :| stored in done.ledger && stored.externalId == built.value.externalId;
    }
  }

  /** Every row of a commit, and the committed ledger it leaves for the next. */
  lemma {:induction false} CommitTells(p: nat, stored: seq<Transaction>, candidates: seq<Candidate>, draws: seq<Draw>, i: nat)
    requires |draws| == |candidates| && i < |candidates| && UniqueExternalIds(stored)
    ensures |CommitRun(p, stored, candidates, draws).rows| == |candidates|
    ensures var before, row := CommitRun(p, stored, candidates[..i], draws[..i]).ledger, CommitRun(p, stored, candidates, draws).rows[i];
            && CommittedAs(p, before, candidates[i], draws[i], row)
            && Grows(before, row, CommitRun(p, stored, candidates[..i + 1], draws[..i + 1]).ledger)
    ensures CommitRun(p, stored, [], []).ledger == stored
  {
    hide CommitStep, CommittedAs, Grows, UniqueExternalIds, PreviewRun;
    var n := |candidates| - 1;
    RowCounts(p, stored, candidates, draws, draws);
    var done := CommitRun(p, stored, candidates[..n], draws[..n]);
    RowCounts(p, stored, candidates[..n], draws[..n], draws[..n]);
    StepsAppend(p, PreviewRun(p, stored, candidates[..n], draws[..n]), done, candidates[n], draws[n], draws[n]);
    if i == n {
      assert candidates[..i + 1] == candidates && draws[..i + 1] == draws;
      CommitAddsWanted(p, stored, candidates[..n], draws[..n], candidates);
      CommitOne(p, done, candidates[n], draws[n]);
    } else {
      CommitTells(p, stored, candidates[..n], draws[..n], i);
      assert candidates[..n][..i] == candidates[..i] && draws[..n][..i] == draws[..i];
      assert candidates[..n][..i + 1] == candidates[..i + 1] && draws[..n][..i + 1] == draws[..i + 1];
    }
  }
}
