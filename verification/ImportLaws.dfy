/** What preview promises about commit, and what repeating a commit does. */
module ImportLaws {
  import opened Wrappers
  import opened Sorting
  import opened Text
  import opened Transactions
  import opened Holdings
  import opened Admission
  import opened Import

  /** Pairwise the same payload: only identifiers and recording times may differ. */
  ghost predicate Twins(xs: seq<Transaction>, ys: seq<Transaction>) {
    |xs| == |ys| && forall i :: 0 <= i < |xs| ==> SamePayload(xs[i], ys[i])
  }

  ghost predicate RecordedBefore(ts: seq<Transaction>, at: int) {
    forall t :: t in ts ==> Recorded(t) < at
  }

  lemma TwinFields(x: Transaction, y: Transaction)
    requires SamePayload(x, y)
    ensures Occurred(x) == Occurred(y) && x.kind == y.kind && Sym(x) == Sym(y) && Qty(x) == Qty(y)
  {}

  lemma RecordedLater(t: Transaction, x: Transaction)
    requires Recorded(t) < Recorded(x)
    ensures LedgerLe(t, x) <==> Occurred(t) <= Occurred(x)
  {}

  /** Rows recorded last are placed after every row that did not occur later, in both ledgers alike. */
  lemma {:induction false} InsertTwins(xs: seq<Transaction>, ys: seq<Transaction>, x: Transaction, y: Transaction)
    requires Twins(xs, ys) && SamePayload(x, y)
    requires RecordedBefore(xs, Recorded(x)) && RecordedBefore(ys, Recorded(y))
    ensures Twins(Insert(xs, x, LedgerLe), Insert(ys, y, LedgerLe))
  {
    hide LedgerLe, Recorded, Occurred, SamePayload;
    TwinFields(x, y);
    if xs != [] {
      var n := |xs| - 1;
      TwinFields(xs[n], ys[n]);
      assert xs[n] in xs && ys[n] in ys;
      RecordedLater(xs[n], x);
      RecordedLater(ys[n], y);
      if !LedgerLe(xs[n], x) {
        assert forall t :: t in xs[..n] ==> t in xs;
        assert forall t :: t in ys[..n] ==> t in ys;
        InsertTwins(xs[..n], ys[..n], x, y);
      }
    }
  }

  lemma {:induction false} TwinPositions(xs: seq<Transaction>, ys: seq<Transaction>)
    requires Twins(xs, ys)
    ensures PositionsAfter(xs) == PositionsAfter(ys)
  {
    hide SamePayload;
    if xs != [] {
      var n := |xs| - 1;
      TwinPositions(xs[..n], ys[..n]);
      TwinFields(xs[n], ys[n]);
    }
  }

  /** Both ledgers extend the stored one by the same rows, up to identifiers and recording times. */
  ghost predicate LedgersAlike(stored: seq<Transaction>, previewed: seq<Transaction>, committed: seq<Transaction>) {
    && |previewed| == |committed| >= |stored|
    && previewed[..|stored|] == LedgerSort(stored) && committed[..|stored|] == stored
    && AllValid(previewed[|stored|..]) && AllValid(committed[|stored|..])
    && Twins(previewed[|stored|..], committed[|stored|..])
    && Twins(LedgerSort(previewed), LedgerSort(committed))
  }

  ghost predicate LookupsAlike(known: map<string, Transaction>, committed: seq<Transaction>) {
    && (forall e :: e in known <==> Find(committed, e).Some?)
    && (forall e :: e in known ==> SamePayload(known[e], Find(committed, e).value))
  }

  ghost predicate RowsAlike(previewed: seq<RowResult>, committed: seq<RowResult>) {
    |previewed| == |committed| && forall i :: 0 <= i < |previewed| ==> RowsCorrespond(previewed[i], committed[i])
  }

  /** Preview and commit have diverged by identifiers and recording times only. */
  ghost predicate Simulates(stored: seq<Transaction>, sim: Simulation, done: Progress) {
    && LedgersAlike(stored, sim.ledger, done.ledger)
    && LookupsAlike(sim.known, done.ledger)
    && RowsAlike(sim.rows, done.rows)
  }

  /** ready ~ created, replay ~ replayed, invalid ~ failed; the named rows carry the same payload. */
  predicate RowsCorrespond(a: RowResult, b: RowResult) {
    && a.rowNumber == b.rowNumber && a.externalId == b.externalId
    && (a.status.READY? || a.status.REPLAY? || a.status.INVALID?)
    && (b.status.CREATED? || b.status.REPLAYED? || b.status.FAILED?)
    && (a.status.READY? <==> b.status.CREATED?)
    && (a.status.REPLAY? <==> b.status.REPLAYED?)
    && (a.transaction.Some? <==> b.transaction.Some?)
    && (a.transaction.Some? <==> !a.status.INVALID?)
    && (a.transaction.Some? ==> SamePayload(a.transaction.value, b.transaction.value))
    && |a.issues| == |b.issues| && forall i :: 0 <= i < |a.issues| ==> IssuesCorrespond(a.issues[i], b.issues[i])
  }

  /** The same issue, except that commit reports a refused ledger under the code invalid_transaction; ImportCodes says when, and with which cause. */
  predicate IssuesCorrespond(a: Issue, b: Issue) {
    a == b || (a.InvalidLedgerIssue? && b.InvalidTransactionIssue?)
  }

  lemma DeriveOkIff(ts: seq<Transaction>)
    ensures DerivePositions(ts).Ok? <==> AllValid(ts) && PositionsAfter(LedgerSort(ts)).Ok?
  {
    hide FirstInvalid, PositionsAfter, LedgerSort, Report;
  }

  lemma ValidSplit(ts: seq<Transaction>, us: seq<Transaction>)
    ensures AllValid(ts + us) <==> AllValid(ts) && AllValid(us)
  {
    hide Valid;
    var vs := ts + us;
    if AllValid(vs) {
      forall i | 0 <= i < |ts| ensures Valid(ts[i]) { assert vs[i] == ts[i]; }
      forall i | 0 <= i < |us| ensures Valid(us[i]) { assert vs[|ts| + i] == us[i]; }
    }
  }

  /** The ledger check comes out the same in the simulation and in the commit. */
  lemma ChecksAgree(stored: seq<Transaction>, previewed: seq<Transaction>, committed: seq<Transaction>, x: Transaction, y: Transaction)
    requires LedgersAlike(stored, previewed, committed) && Valid(x) && Valid(y) && SamePayload(x, y)
    requires RecordedBefore(previewed, Recorded(x)) && RecordedBefore(committed, Recorded(y))
    ensures DerivePositions(previewed + [x]).Ok? <==> DerivePositions(LedgerSort(committed) + [y]).Ok?
    ensures Twins(LedgerSort(previewed + [x]), LedgerSort(committed + [y]))
  {
    hide Valid, PositionsAfter, LedgerLe, SamePayload, DerivePositions, Recorded, RecordedBefore, Twins, LedgersAlike, AllValid;
    StillTwins(stored, previewed, committed, x, y);
    TwinPositions(LedgerSort(previewed + [x]), LedgerSort(committed + [y]));
    LedgerLeIsTotalPreorder();
    SortAppend(committed, y, LedgerLe);
    LedgerSortFacts(committed);
    OneValid(x);
    OneValid(y);
    DeriveOkIff(previewed + [x]);
    DeriveOkIff(LedgerSort(committed) + [y]);
    ValidityAgrees(stored, previewed, committed);
    ValidSplit(previewed, [x]);
    ValidSplit(LedgerSort(committed), [y]);
  }

  lemma OneValid(t: Transaction)
    ensures AllValid([t]) <==> Valid(t)
  {
    hide Valid;
    assert Valid(t) == Valid([t][0]);
  }

  lemma StillTwins(stored: seq<Transaction>, previewed: seq<Transaction>, committed: seq<Transaction>, x: Transaction, y: Transaction)
    requires LedgersAlike(stored, previewed, committed) && SamePayload(x, y)
    requires RecordedBefore(previewed, Recorded(x)) && RecordedBefore(committed, Recorded(y))
    ensures Twins(LedgerSort(previewed + [x]), LedgerSort(committed + [y]))
  {
    hide Valid, LedgerLe, SamePayload, Recorded, Twins;
    LedgerLeIsTotalPreorder();
    SortAppend(previewed, x, LedgerLe);
    SortAppend(committed, y, LedgerLe);
    LedgerSortFacts(previewed);
    LedgerSortFacts(committed);
    InsertTwins(LedgerSort(previewed), LedgerSort(committed), x, y);
  }

  lemma ValidityAgrees(stored: seq<Transaction>, previewed: seq<Transaction>, committed: seq<Transaction>)
    requires LedgersAlike(stored, previewed, committed)
    ensures AllValid(previewed) <==> AllValid(committed)
  {
    hide Valid, LedgerSort, Twins;
    var k := |stored|;
    LedgerSortFacts(stored);
    assert previewed == previewed[..k] + previewed[k..] && committed == committed[..k] + committed[k..];
    ValidSplit(previewed[..k], previewed[k..]);
    ValidSplit(committed[..k], committed[k..]);
  }

  lemma RowsAppend(previewed: seq<RowResult>, committed: seq<RowResult>, a: RowResult, b: RowResult)
    requires RowsAlike(previewed, committed) && RowsCorrespond(a, b)
    ensures RowsAlike(previewed + [a], committed + [b])
  {
    hide RowsCorrespond;
  }

  /** A row that changes neither ledger. */
  lemma SimulateQuiet(stored: seq<Transaction>, sim: Simulation, done: Progress, a: RowResult, b: RowResult)
    requires Simulates(stored, sim, done) && RowsCorrespond(a, b)
    ensures Simulates(stored, sim.(rows := sim.rows + [a]), done.(rows := done.rows + [b]))
  {
    hide RowsCorrespond, RowsAlike, LedgersAlike, LookupsAlike;
    RowsAppend(sim.rows, done.rows, a, b);
  }

  lemma FindAfterAppend(ledger: seq<Transaction>, t: Transaction, e: string)
    requires Find(ledger, t.externalId).None?
    ensures Find(ledger + [t], e) == if e == t.externalId then Some(t) else Find(ledger, e)
  {
    hide Find;
    if e == t.externalId {
      FindNew(ledger, t);
    } else if Find(ledger, e).Some? {
      FindAppend(ledger, [t], e);
    } else {
      assert forall x :: x in ledger + [t] ==> x in ledger || x == t;
    }
  }

  lemma LookupsAppend(known: map<string, Transaction>, committed: seq<Transaction>, x: Transaction, y: Transaction)
    requires LookupsAlike(known, committed) && SamePayload(x, y) && x.externalId !in known
    ensures LookupsAlike(known[x.externalId := x], committed + [y])
  {
    hide Find, SamePayload;
    SamePayloadIds(x, y);
    forall e {
      FindAfterAppend(committed, y, e);
    }
  }

  lemma LedgersAppend(stored: seq<Transaction>, previewed: seq<Transaction>, committed: seq<Transaction>, x: Transaction, y: Transaction)
    requires LedgersAlike(stored, previewed, committed) && Valid(x) && Valid(y) && SamePayload(x, y)
    requires Twins(LedgerSort(previewed + [x]), LedgerSort(committed + [y]))
    ensures LedgersAlike(stored, previewed + [x], committed + [y])
  {
    hide LedgerSort, Valid, SamePayload;
    var k := |stored|;
    assert (previewed + [x])[k..] == previewed[k..] + [x] && (committed + [y])[k..] == committed[k..] + [y];
    assert (previewed + [x])[..k] == previewed[..k] && (committed + [y])[..k] == committed[..k];
    ValidSplit(previewed[k..], [x]);
    ValidSplit(committed[k..], [y]);
  }

  /** A row admitted by both. */
  lemma SimulateReady(stored: seq<Transaction>, sim: Simulation, done: Progress, x: Transaction, y: Transaction, a: RowResult, b: RowResult)
    requires Simulates(stored, sim, done) && RowsCorrespond(a, b) && Valid(x) && Valid(y) && SamePayload(x, y)
    requires x.externalId !in sim.known
    requires Twins(LedgerSort(sim.ledger + [x]), LedgerSort(done.ledger + [y]))
    ensures Simulates(stored, Simulation(sim.ledger + [x], sim.known[x.externalId := x], sim.rows + [a]),
                      Progress(done.ledger + [y], done.rows + [b]))
  {
    hide RowsCorrespond, RowsAlike, LedgersAlike, LookupsAlike, LedgerSort, Valid, SamePayload;
    RowsAppend(sim.rows, done.rows, a, b);
    LookupsAppend(sim.known, done.ledger, x, y);
    LedgersAppend(stored, sim.ledger, done.ledger, x, y);
  }

  lemma SamePayloadIds(x: Transaction, y: Transaction)
    requires SamePayload(x, y)
    ensures x.externalId == y.externalId
  {}

  lemma SamePayloadTransfers(x: Transaction, x': Transaction, y: Transaction, y': Transaction)
    requires SamePayload(x, x') && SamePayload(y, y')
    ensures SamePayload(x, y) <==> SamePayload(x', y')
  {}

  /** One row, previewed and committed with any draws later than everything recorded. */
  lemma SimulateRow(p: nat, stored: seq<Transaction>, sim: Simulation, done: Progress, candidate: Candidate, d: Draw, d': Draw)
    requires Simulates(stored, sim, done)
    requires Usable(candidate) ==> RecordedBefore(sim.ledger, d.at) && RecordedBefore(done.ledger, d'.at)
    ensures Simulates(stored, PreviewStep(p, sim, candidate, d), CommitStep(p, done, candidate, d'))
  {
    hide BuildValid, DerivePositions, LedgerSort, Find, SamePayload, Twins, AllValid, Simulates, Valid, RecordedBefore;
    if !Usable(candidate) {
      SimulateQuiet(stored, sim, done, Row(candidate, INVALID, None, None), Row(candidate, FAILED, None, None));
    } else {
      var n := candidate.newTransaction.value;
      BuildDraws(p, n, d.id, d.at, d'.id, d'.at);
      BuildDraws(p, n, d'.id, d'.at, d.id, d.at);
      var built, built' := BuildValid(p, n, d.id, d.at), BuildValid(p, n, d'.id, d'.at);
      if built.Err? {
        SimulateQuiet(stored, sim, done, Row(candidate, INVALID, None, Some(InvalidTransactionIssue(built.error))),
                      Row(candidate, FAILED, None, Some(InvalidTransactionIssue(built'.error))));
      } else {
        SimulateBuilt(stored, sim, done, candidate, p, d, d', built.value, built'.value);
      }
    }
  }

  lemma KnownFacts(stored: seq<Transaction>, sim: Simulation, done: Progress, e: string)
    requires Simulates(stored, sim, done)
    ensures e in sim.known <==> Find(done.ledger, e).Some?
    ensures e in sim.known ==> SamePayload(sim.known[e], Find(done.ledger, e).value)
  {
    hide LedgersAlike, RowsAlike, Find, SamePayload;
  }

  lemma SimulatesLedgers(stored: seq<Transaction>, sim: Simulation, done: Progress)
    requires Simulates(stored, sim, done)
    ensures LedgersAlike(stored, sim.ledger, done.ledger)
  {}

  lemma SimulateBuilt(stored: seq<Transaction>, sim: Simulation, done: Progress, candidate: Candidate, p: nat, d: Draw, d': Draw,
                      x: Transaction, y: Transaction)
    requires Simulates(stored, sim, done) && Usable(candidate)
    requires RecordedBefore(sim.ledger, d.at) && RecordedBefore(done.ledger, d'.at)
    requires BuildValid(p, candidate.newTransaction.value, d.id, d.at) == Ok(x)
    requires BuildValid(p, candidate.newTransaction.value, d'.id, d'.at) == Ok(y)
    requires SamePayload(x, y) && Valid(x) && Valid(y)
    requires x.createdAt == Some(Aware(d.at)) && y.createdAt == Some(Aware(d'.at))
    ensures Simulates(stored, PreviewStep(p, sim, candidate, d), CommitStep(p, done, candidate, d'))
  {
    hide BuildValid, DerivePositions, LedgerSort, Find, SamePayload, Twins, AllValid, Simulates, Valid, RecordedBefore, LedgerLe, LedgersAlike, RowsAlike;
    var e := x.externalId;
    SamePayloadIds(x, y);
    KnownFacts(stored, sim, done, e);
    if e in sim.known {
      var old', new' := sim.known[e], Find(done.ledger, e).value;
      SamePayloadTransfers(old', new', x, y);
      if SamePayload(old', x) {
        SimulateQuiet(stored, sim, done, Row(candidate, REPLAY, Some(old'), None), Row(candidate, REPLAYED, Some(new'), None));
      } else {
        SimulateQuiet(stored, sim, done, Row(candidate, INVALID, None, Some(IdempotencyConflictIssue)),
                      Row(candidate, FAILED, None, Some(IdempotencyConflictIssue)));
      }
    } else {
      assert LedgersAlike(stored, sim.ledger, done.ledger) by { SimulatesLedgers(stored, sim, done); }
      ChecksAgree(stored, sim.ledger, done.ledger, x, y);
      var check, check' := DerivePositions(sim.ledger + [x]), DerivePositions(LedgerSort(done.ledger) + [y]);
      if check.Err? {
        SimulateQuiet(stored, sim, done, Row(candidate, INVALID, None, Some(InvalidLedgerIssue(check.error))),
                      Row(candidate, FAILED, None, Some(InvalidTransactionIssue(check'.error))));
      } else {
        SimulateReady(stored, sim, done, x, y, Row(candidate, READY, Some(x), None), Row(candidate, CREATED, Some(y), None));
      }
    }
  }

  lemma {:induction false} KnownIsFind(ledger: seq<Transaction>, e: string)
    ensures e in ByExternalId(ledger) <==> exists t :: t in ledger && t.externalId == e
    ensures e in ByExternalId(ledger) ==> ByExternalId(ledger)[e] in ledger && ByExternalId(ledger)[e].externalId == e
  {
    if ledger != [] {
      SplitLast(ledger);
      KnownIsFind(ledger[..|ledger| - 1], e);
    }
  }

  lemma PayloadReflexive(t: Transaction)
    ensures SamePayload(t, t)
  {}

  lemma LookupsInitially(stored: seq<Transaction>)
    requires UniqueExternalIds(stored)
    ensures LookupsAlike(ByExternalId(LedgerSort(stored)), stored)
  {
    hide Find, LedgerSort, Valid, ByExternalId, SamePayload;
    var sorted := LedgerSort(stored);
    LedgerSortFacts(stored);
    forall t { PayloadReflexive(t); }
    forall e
      ensures e in ByExternalId(sorted) <==> Find(stored, e).Some?
      ensures e in ByExternalId(sorted) ==> ByExternalId(sorted)[e] == Find(stored, e).value
    {
      KnownIsFind(sorted, e);
      if e in ByExternalId(sorted) {
        var a, b := ByExternalId(sorted)[e], Find(stored, e);
        assert a in stored;
        var i :| 0 <= i < |stored| && stored[i] == a;
        var j :| 0 <= j < |stored| && stored[j] == b.value;
      }
    }
  }

  /** Before the first row the two sides agree exactly. */
  lemma SimulateNothing(stored: seq<Transaction>)
    requires UniqueExternalIds(stored)
    ensures Simulates(stored, Simulation(LedgerSort(stored), ByExternalId(LedgerSort(stored)), []), Progress(stored, []))
  {
    hide LookupsAlike, ByExternalId, LedgerSort, Twins;
    LookupsInitially(stored);
    var sorted := LedgerSort(stored);
    LedgerSortFacts(stored);
    SortedTwice(stored);
    TwinsReflexive(sorted);
    TwinsReflexive([]);
    assert sorted[..|stored|] == sorted && stored[..|stored|] == stored;
    assert sorted[|stored|..] == [] && stored[|stored|..] == [];
  }

  lemma SortedTwice(ts: seq<Transaction>)
    ensures LedgerSort(LedgerSort(ts)) == LedgerSort(ts)
  {
    hide LedgerLe;
    LedgerLeIsTotalPreorder();
    SortSorts(ts, LedgerLe);
    SortOfSorted(LedgerSort(ts), LedgerLe);
  }

  lemma TwinsReflexive(ts: seq<Transaction>)
    ensures Twins(ts, ts)
  {
    forall t { PayloadReflexive(t); }
  }

  /** Clock readings used by a pass: increasing, and later than everything stored. */
  ghost predicate ClockAdvances(stored: seq<Transaction>, candidates: seq<Candidate>, draws: seq<Draw>)
    requires |draws| == |candidates|
  {
    && (forall i :: 0 <= i < |draws| && Usable(candidates[i]) ==> RecordedBefore(stored, draws[i].at))
    && (forall i, j :: 0 <= i < j < |draws| && Usable(candidates[i]) && Usable(candidates[j]) ==> draws[i].at < draws[j].at)
  }

  /** Rows in either ledger were recorded before any later reading. */
  lemma {:induction false} PreviewRecorded(p: nat, stored: seq<Transaction>, candidates: seq<Candidate>, draws: seq<Draw>, at: int)
    requires |draws| == |candidates| && RecordedBefore(stored, at)
    requires forall i :: 0 <= i < |draws| && Usable(candidates[i]) ==> draws[i].at < at
    ensures RecordedBefore(PreviewRun(p, stored, candidates, draws).ledger, at)
  {
    hide BuildValid, DerivePositions, SamePayload;
    if candidates == [] {
      LedgerSortFacts(stored);
    } else {
      var n := |candidates| - 1;
      PreviewRecorded(p, stored, candidates[..n], draws[..n], at);
      if Usable(candidates[n]) {
        BuildDraws(p, candidates[n].newTransaction.value, draws[n].id, draws[n].at, 0, 0);
      }
    }
  }

  lemma {:induction false} CommitRecorded(p: nat, stored: seq<Transaction>, candidates: seq<Candidate>, draws: seq<Draw>, at: int)
    requires |draws| == |candidates| && RecordedBefore(stored, at)
    requires forall i :: 0 <= i < |draws| && Usable(candidates[i]) ==> draws[i].at < at
    ensures RecordedBefore(CommitRun(p, stored, candidates, draws).ledger, at)
  {
    hide BuildValid, DerivePositions, SamePayload, LedgerSort, Find;
    if candidates != [] {
      var n := |candidates| - 1;
      CommitRecorded(p, stored, candidates[..n], draws[..n], at);
      if Usable(candidates[n]) {
        BuildDraws(p, candidates[n].newTransaction.value, draws[n].id, draws[n].at, 0, 0);
      }
    }
  }

  /**
   * Preview simulates commit: with no writes in between and clocks that advance past every
   * stored recording time, each previewed status maps to the committed one, and the simulated
   * ledger equals the committed one up to identifiers and recording times.
   */
  lemma {:induction false} PreviewSimulatesCommit(p: nat, stored: seq<Transaction>, candidates: seq<Candidate>, draws: seq<Draw>, draws': seq<Draw>)
    requires |draws| == |candidates| == |draws'| && UniqueExternalIds(stored)
    requires ClockAdvances(stored, candidates, draws) && ClockAdvances(stored, candidates, draws')
    ensures Simulates(stored, PreviewRun(p, stored, candidates, draws), CommitRun(p, stored, candidates, draws'))
  {
    hide PreviewStep, CommitStep, Simulates, UniqueExternalIds, RecordedBefore;
    if candidates == [] {
      SimulateNothing(stored);
    } else {
      var n := |candidates| - 1;
      PreviewSimulatesCommit(p, stored, candidates[..n], draws[..n], draws'[..n]);
      if Usable(candidates[n]) {
        PreviewRecorded(p, stored, candidates[..n], draws[..n], draws[n].at);
        CommitRecorded(p, stored, candidates[..n], draws'[..n], draws'[n].at);
      }
      SimulateRow(p, stored, PreviewRun(p, stored, candidates[..n], draws[..n]), CommitRun(p, stored, candidates[..n], draws'[..n]),
                  candidates[n], draws[n], draws'[n]);
    }
  }

  /** A commit only appends rows, whatever fails. */
  lemma {:induction false} CommitGrows(p: nat, stored: seq<Transaction>, candidates: seq<Candidate>, draws: seq<Draw>, k: nat)
    requires |draws| == |candidates| && k <= |candidates|
    ensures CommitRun(p, stored, candidates[..k], draws[..k]).ledger <= CommitRun(p, stored, candidates, draws).ledger
    ensures stored <= CommitRun(p, stored, candidates, draws).ledger
    ensures |CommitRun(p, stored, candidates, draws).rows| == |candidates|
  {
    hide Admit;
    var n := |candidates|;
    if k == n {
      assert candidates[..k] == candidates && draws[..k] == draws;
      if n > 0 {
        CommitGrows(p, stored, candidates[..n - 1], draws[..n - 1], n - 1);
      }
    } else {
      assert candidates[..n - 1][..k] == candidates[..k] && draws[..n - 1][..k] == draws[..k];
      CommitGrows(p, stored, candidates[..n - 1], draws[..n - 1], k);
    }
  }

  lemma CommitLast(p: nat, stored: seq<Transaction>, candidates: seq<Candidate>, draws: seq<Draw>)
    requires |draws| == |candidates| && candidates != []
    ensures var n := |candidates| - 1;
            var done, candidate := CommitRun(p, stored, candidates[..n], draws[..n]), candidates[n];
            CommitRun(p, stored, candidates, draws)
            == if !Usable(candidate) then Progress(done.ledger, done.rows + [Row(candidate, FAILED, None, None)])
               else var answer := Admit(done.ledger, p, candidate.newTransaction.value, draws[n].id, draws[n].at);
                    Progress(Committed(done.ledger, answer), done.rows + [CommitRow(candidate, answer)])
  {
    hide Admit, Committed, CommitRow, Row;
  }

  /** The i-th row is the answer of `create` on the ledger committed by the rows before it. */
  lemma {:induction false} CommitRowIs(p: nat, stored: seq<Transaction>, candidates: seq<Candidate>, draws: seq<Draw>, i: nat)
    requires |draws| == |candidates| && i < |candidates|
    ensures i < |CommitRun(p, stored, candidates, draws).rows|
    ensures var before := CommitRun(p, stored, candidates[..i], draws[..i]).ledger;
            CommitRun(p, stored, candidates, draws).rows[i]
              == if !Usable(candidates[i]) then Row(candidates[i], FAILED, None, None)
                 else CommitRow(candidates[i], Admit(before, p, candidates[i].newTransaction.value, draws[i].id, draws[i].at))
    ensures Usable(candidates[i]) ==>
              Committed(CommitRun(p, stored, candidates[..i], draws[..i]).ledger,
                        Admit(CommitRun(p, stored, candidates[..i], draws[..i]).ledger, p, candidates[i].newTransaction.value, draws[i].id, draws[i].at))
              == CommitRun(p, stored, candidates[..i + 1], draws[..i + 1]).ledger
  {
    hide Admit, Committed, CommitRow, Row, CommitRun;
    var n := |candidates|;
    CommitGrows(p, stored, candidates[..n - 1], draws[..n - 1], n - 1);
    CommitLast(p, stored, candidates, draws);
    if i == n - 1 {
      assert candidates[..n] == candidates && draws[..n] == draws;
    } else {
      assert candidates[..n - 1][..i] == candidates[..i] && draws[..n - 1][..i] == draws[..i];
      assert candidates[..n - 1][..i + 1] == candidates[..i + 1] && draws[..n - 1][..i + 1] == draws[..i + 1];
      CommitRowIs(p, stored, candidates[..n - 1], draws[..n - 1], i);
    }
  }

  /**
   * Import retry: when the same rows are committed again, on the ledger left by the first pass
   * or any later one, every row created or replayed before is replayed with the same transaction.
   */
  lemma RetryReplays(p: nat, stored: seq<Transaction>, more: seq<Transaction>, candidates: seq<Candidate>, draws: seq<Draw>, draws': seq<Draw>, i: nat)
    requires |draws| == |candidates| == |draws'| && i < |candidates|
    requires |CommitRun(p, stored, candidates, draws).rows| == |candidates|
    requires !CommitRun(p, stored, candidates, draws).rows[i].status.FAILED?
    ensures var first := CommitRun(p, stored, candidates, draws);
            var second := CommitRun(p, first.ledger + more, candidates, draws');
            i < |second.rows| && second.rows[i] == first.rows[i].(status := REPLAYED)
  {
    hide Admit, CommitStep, CommitRun, Committed;
    var first := CommitRun(p, stored, candidates, draws);
    var n := candidates[i].newTransaction;
    CommitRowIs(p, stored, candidates, draws, i);
    CommitGrows(p, stored, candidates, draws, i + 1);
    var before := CommitRun(p, stored, candidates[..i], draws[..i]).ledger;
    CommitRowIs(p, first.ledger + more, candidates, draws', i);
    CommitGrows(p, first.ledger + more, candidates[..i], draws'[..i], i);
    var again := CommitRun(p, first.ledger + more, candidates[..i], draws'[..i]).ledger;
    var after := CommitRun(p, stored, candidates[..i + 1], draws[..i + 1]).ledger;
    assert after <= first.ledger <= first.ledger + more <= again;
    var rest := again[|after|..];
    assert again == after + rest;
    AdmitReplays(before, rest, p, n.value, draws[i].id, draws[i].at, draws'[i].id, draws'[i].at);
  }

  /** The external ids a set of candidates can store. */
  function Wanted(candidates: seq<Candidate>): set<string> {
    set c | c in candidates && Usable(c) :: Strip(c.newTransaction.value.externalId)
  }

  lemma AdmittedId(ledger: seq<Transaction>, p: nat, n: NewTransaction, id: nat, at: int)
    requires UniqueExternalIds(ledger)
    ensures var answer := Admit(ledger, p, n, id, at);
            && UniqueExternalIds(Committed(ledger, answer))
            && (answer.Ok? && answer.value.created ==> answer.value.transaction.externalId == Strip(n.externalId))
  {
    hide BuildValid, DerivePositions, LedgerSort, SamePayload, Strip;
    BuildDraws(p, n, id, at, id, at);
    var answer := Admit(ledger, p, n, id, at);
    if answer.Ok? && answer.value.created {
      UniqueAppend(ledger, answer.value.transaction);
    }
  }

  /** A pass keeps external ids unique and adds only wanted ones. */
  lemma {:induction false} CommitAddsWanted(p: nat, stored: seq<Transaction>, candidates: seq<Candidate>, draws: seq<Draw>, all: seq<Candidate>)
    requires |draws| == |candidates| && UniqueExternalIds(stored) && (forall c :: c in candidates ==> c in all)
    ensures var ledger := CommitRun(p, stored, candidates, draws).ledger;
            && stored <= ledger && UniqueExternalIds(ledger)
            && forall i :: |stored| <= i < |ledger| ==> ledger[i].externalId in Wanted(all)
  {
    hide Admit, UniqueExternalIds, Strip;
    if candidates != [] {
      var n := |candidates| - 1;
      var c := candidates[n];
      CommitAddsWanted(p, stored, candidates[..n], draws[..n], all);
      assert c in candidates;
      if Usable(c) {
        AdmittedId(CommitRun(p, stored, candidates[..n], draws[..n]).ledger, p, c.newTransaction.value, draws[n].id, draws[n].at);
      }
    }
  }

  /** The same rows committed any number of times, each pass with its own draws. */
  function Passes(p: nat, stored: seq<Transaction>, candidates: seq<Candidate>, passes: seq<seq<Draw>>): seq<Transaction>
    requires forall k :: 0 <= k < |passes| ==> |passes[k]| == |candidates|
  {
    if passes == [] then stored
    else CommitRun(p, Passes(p, stored, candidates, passes[..|passes| - 1]), candidates, passes[|passes| - 1]).ledger
  }

  /** How many of the passes created anything. */
  function CreatingPasses(p: nat, stored: seq<Transaction>, candidates: seq<Candidate>, passes: seq<seq<Draw>>): nat
    requires forall k :: 0 <= k < |passes| ==> |passes[k]| == |candidates|
  {
    if passes == [] then 0
    else
      var earlier := passes[..|passes| - 1];
      CreatingPasses(p, stored, candidates, earlier)
      + if Passes(p, stored, candidates, passes) == Passes(p, stored, candidates, earlier) then 0 else 1
  }

  lemma {:induction false} PassesAddWanted(p: nat, stored: seq<Transaction>, candidates: seq<Candidate>, passes: seq<seq<Draw>>)
    requires forall k :: 0 <= k < |passes| ==> |passes[k]| == |candidates|
    requires UniqueExternalIds(stored)
    ensures var ledger := Passes(p, stored, candidates, passes);
            && stored <= ledger && UniqueExternalIds(ledger)
            && (forall i :: |stored| <= i < |ledger| ==> ledger[i].externalId in Wanted(candidates))
            && CreatingPasses(p, stored, candidates, passes) <= |ledger| - |stored|
  {
    hide CommitRun, UniqueExternalIds, Wanted;
    if passes != [] {
      var n := |passes| - 1;
      PassesAddWanted(p, stored, candidates, passes[..n]);
      CommitAddsWanted(p, Passes(p, stored, candidates, passes[..n]), candidates, passes[n], candidates);
    }
  }

  /** Distinct members of a finite set cannot outnumber it. */
  lemma {:induction false} DistinctBounded(ids: seq<string>, bound: set<string>)
    requires forall i :: 0 <= i < |ids| ==> ids[i] in bound
    requires forall i, j :: 0 <= i < j < |ids| ==> ids[i] != ids[j]
    ensures |ids| <= |bound|
  {
    if ids != [] {
      var n := |ids| - 1;
      DistinctBounded(ids[..n], bound - {ids[n]});
    }
  }

  /**
   * Over any number of repeats, with any draws, each external id is stored at most once, the rows
   * added are at most the distinct wanted ids, and so at most that many passes create anything.
   */
  lemma RepeatsStabilise(p: nat, stored: seq<Transaction>, candidates: seq<Candidate>, passes: seq<seq<Draw>>)
    requires forall k :: 0 <= k < |passes| ==> |passes[k]| == |candidates|
    requires UniqueExternalIds(stored)
    ensures UniqueExternalIds(Passes(p, stored, candidates, passes))
    ensures |Passes(p, stored, candidates, passes)| <= |stored| + |Wanted(candidates)|
    ensures CreatingPasses(p, stored, candidates, passes) <= |Wanted(candidates)|
  {
    hide Passes, CreatingPasses, Wanted;
    PassesAddWanted(p, stored, candidates, passes);
    var ledger := Passes(p, stored, candidates, passes);
    var ids := seq(|ledger| - |stored|, i requires 0 <= i < |ledger| - |stored| => ledger[|stored| + i].externalId);
    DistinctBounded(ids, Wanted(candidates));
  }

  /** Statuses and failures of a pass do not depend on the draws, as long as the clock advances. */
  lemma PassOutcomeIndependentOfDraws(p: nat, stored: seq<Transaction>, candidates: seq<Candidate>, draws: seq<Draw>, draws': seq<Draw>, i: nat)
    requires |draws| == |candidates| == |draws'| && i < |candidates| && UniqueExternalIds(stored)
    requires ClockAdvances(stored, candidates, draws) && ClockAdvances(stored, candidates, draws')
    ensures var a, b := CommitRun(p, stored, candidates, draws), CommitRun(p, stored, candidates, draws');
            i < |a.rows| && i < |b.rows| && a.rows[i].status == b.rows[i].status
  {
    hide CommitRun, PreviewRun, LedgersAlike, LookupsAlike, ClockAdvances;
    PreviewSimulatesCommit(p, stored, candidates, draws, draws);
    PreviewSimulatesCommit(p, stored, candidates, draws, draws');
    CommitRowCount(p, stored, candidates, draws);
    CommitRowCount(p, stored, candidates, draws');
    var sim := PreviewRun(p, stored, candidates, draws);
    assert RowsCorrespond(sim.rows[i], CommitRun(p, stored, candidates, draws).rows[i]);
    assert RowsCorrespond(sim.rows[i], CommitRun(p, stored, candidates, draws').rows[i]);
  }

  lemma CommitRowCount(p: nat, stored: seq<Transaction>, candidates: seq<Candidate>, draws: seq<Draw>)
    requires |draws| == |candidates|
    ensures |CommitRun(p, stored, candidates, draws).rows| == |candidates|
  {
    CommitGrows(p, stored, candidates, draws, |candidates|);
  }

  ghost predicate SameStatuses(a: seq<RowResult>, b: seq<RowResult>) {
    |a| == |b| && forall i :: 0 <= i < |a| ==> a[i].status == b[i].status
  }

  /**
   * A pass that creates nothing is a fixed point: with advancing clocks the next pass gives every
   * row the same status again and leaves the ledger alone.
   */
  lemma QuietPassIsFixedPoint(p: nat, stored: seq<Transaction>, candidates: seq<Candidate>, draws: seq<Draw>, draws': seq<Draw>)
    requires |draws| == |candidates| == |draws'| && UniqueExternalIds(stored)
    requires ClockAdvances(stored, candidates, draws) && ClockAdvances(stored, candidates, draws')
    requires CommitRun(p, stored, candidates, draws).ledger == stored
    ensures CommitRun(p, stored, candidates, draws').ledger == stored
    ensures SameStatuses(CommitRun(p, stored, candidates, draws).rows, CommitRun(p, stored, candidates, draws').rows)
  {
    hide CommitRun, PreviewRun, LookupsAlike, ClockAdvances, RowsAlike, Twins;
    var rows, rows' := CommitRun(p, stored, candidates, draws).rows, CommitRun(p, stored, candidates, draws').rows;
    CommitRowCount(p, stored, candidates, draws);
    CommitRowCount(p, stored, candidates, draws');
    forall i | 0 <= i < |rows| ensures rows[i].status == rows'[i].status {
      PassOutcomeIndependentOfDraws(p, stored, candidates, draws, draws', i);
    }
    PreviewSimulatesCommit(p, stored, candidates, draws, draws);
    PreviewSimulatesCommit(p, stored, candidates, draws, draws');
    CommitGrows(p, stored, candidates, draws', |candidates|);
    var after := CommitRun(p, stored, candidates, draws').ledger;
    assert |after| == |PreviewRun(p, stored, candidates, draws).ledger| == |stored|;
    assert after[..|stored|] == stored;
  }
}
