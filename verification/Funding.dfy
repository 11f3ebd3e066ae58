/**
 * Making implicit funding explicit: a fee-free DEPOSIT of exactly the shortfall, placed
 * immediately before every under-funded BUY, changes nothing the valuation reports.
 */
module Funding {
  import opened Wrappers
  import opened Sorting
  import opened Text
  import opened Transactions
  import opened Holdings
  import opened Replay
  import opened Valuation
  import opened EndState

  /** A valid, fee-free deposit of `amount` at the instant of `t`. */
  predicate FundingDeposit(deposit: Transaction, t: Transaction, amount: real) {
    && Valid(deposit) && deposit.kind.DEPOSIT?
    && deposit.occurredAt == t.occurredAt
    && Amount(deposit) == amount && Fee(deposit) == 0.0
  }

  predicate Underfunded(earlier: seq<Transaction>, t: Transaction) {
    Run(earlier).Ok? && Shortfall(Run(earlier).value.cash, t) > 0.0
  }

  /** `us` is `ts` with a deposit of the shortfall immediately before every under-funded BUY. */
  predicate Explicit(ts: seq<Transaction>, us: seq<Transaction>) {
    if ts == [] then us == []
    else
      var earlier, t := ts[..|ts| - 1], ts[|ts| - 1];
      && us != [] && us[|us| - 1] == t
      && if Underfunded(earlier, t) then
           && |us| >= 2
           && FundingDeposit(us[|us| - 2], t, Shortfall(Run(earlier).value.cash, t))
           && Explicit(earlier, us[..|us| - 2])
         else Explicit(earlier, us[..|us| - 1])
  }

  lemma FundedBuy(b: Book, deposit: Transaction, t: Transaction)
    requires b.cash >= 0.0 && Shortfall(b.cash, t) > 0.0
    requires FundingDeposit(deposit, t, Shortfall(b.cash, t))
    ensures Apply(b, deposit).Ok? && Apply(Apply(b, deposit).value, t) == Apply(b, t)
    ensures Shortfall(Apply(b, deposit).value.cash, t) == 0.0
  {
    hide Cost, Validate, Held;
  }

  lemma CashNotNegative(ts: seq<Transaction>)
    requires Run(ts).Ok?
    ensures Run(ts).value.cash >= 0.0
  {
    Conservation(ts);
  }

  /** Both ledgers replay to the same book, or fail with the same error. */
  lemma {:induction false} ExplicitRun(ts: seq<Transaction>, us: seq<Transaction>)
    requires Explicit(ts, us)
    ensures Run(us) == Run(ts)
  {
    hide Apply, Shortfall, FundingDeposit;
    if ts != [] {
      var earlier, t := ts[..|ts| - 1], ts[|ts| - 1];
      if Underfunded(earlier, t) {
        var n := |us| - 2;
        ExplicitRun(earlier, us[..n]);
        CashNotNegative(earlier);
        FundedBuy(Run(earlier).value, us[n], t);
        assert us[..n + 1][..n] == us[..n];
      } else {
        ExplicitRun(earlier, us[..|us| - 1]);
      }
    }
  }

  lemma NoDepositShortfall(cash: real, t: Transaction)
    requires !t.kind.BUY?
    ensures Shortfall(cash, t) == 0.0
  {}

  lemma ShortfallNotNegative(cash: real, t: Transaction)
    ensures Shortfall(cash, t) >= 0.0
  {}

  /** The explicit ledger has no implicit contribution left. */
  lemma {:induction false} ExplicitHasNoImplicitFunding(ts: seq<Transaction>, us: seq<Transaction>)
    requires Explicit(ts, us) && Run(us).Ok?
    ensures ImplicitFunding(us) == 0.0
  {
    hide Apply, Shortfall, Valid;
    if ts != [] {
      var earlier, t := ts[..|ts| - 1], ts[|ts| - 1];
      if Underfunded(earlier, t) {
        var n := |us| - 2;
        ExplicitRun(earlier, us[..n]);
        assert us[..n + 1][..n] == us[..n];
        ExplicitHasNoImplicitFunding(earlier, us[..n]);
        CashNotNegative(earlier);
        NoDepositShortfall(Run(earlier).value.cash, us[n]);
        FundedBuy(Run(earlier).value, us[n], t);
      } else {
        var n := |us| - 1;
        ExplicitRun(earlier, us[..n]);
        ExplicitHasNoImplicitFunding(earlier, us[..n]);
        ShortfallNotNegative(Run(earlier).value.cash, t);
      }
    }
  }

  lemma {:induction false} ExplicitDates(ts: seq<Transaction>, us: seq<Transaction>, d: Date)
    requires Explicit(ts, us) && forall t :: t in ts ==> DateOf(t) <= d
    ensures forall u :: u in us ==> DateOf(u) <= d
  {
    hide Valid, Run, Shortfall;
    if ts != [] {
      SplitLast(ts);
      SplitLast(us);
      var earlier, t := ts[..|ts| - 1], ts[|ts| - 1];
      assert t in ts;
      if Underfunded(earlier, t) {
        var n := |us| - 2;
        ExplicitDates(earlier, us[..n], d);
        assert us == us[..n] + [us[n], us[n + 1]];
      } else {
        ExplicitDates(earlier, us[..|us| - 1], d);
      }
    }
  }

  lemma ThroughOfAll(ts: seq<Transaction>, d: Date)
    requires forall t :: t in ts ==> DateOf(t) <= d
    ensures Through(ts, d) == ts
  {
    hide DateOf;
    assert forall i :: 0 <= i < |ts| ==> ts[i] in ts;
    AllThrough(ts, d);
  }

  /** Cutting both ledgers at a date keeps them in step. */
  lemma {:induction false} ExplicitThrough(ts: seq<Transaction>, us: seq<Transaction>, d: Date)
    requires Explicit(ts, us) && InLedgerOrder(ts)
    ensures Explicit(Through(ts, d), Through(us, d))
  {
    hide Through, Run, Shortfall, Valid, LedgerLe;
    if ts == [] {
      ThroughOfAll(ts, d);
      ThroughOfAll(us, d);
    } else {
      var earlier, t := ts[..|ts| - 1], ts[|ts| - 1];
      if DateOf(t) <= d {
        forall x | x in ts ensures DateOf(x) <= d {
          var i :| 0 <= i < |ts| && ts[i] == x;
          assert i < |ts| - 1 ==> LedgerLe(ts[i], ts[|ts| - 1]);
          DateMonotone(x, t);
        }
        ThroughOfAll(ts, d);
        ExplicitDates(ts, us, d);
        ThroughOfAll(us, d);
      } else {
        SplitLast(ts);
        SplitLast(us);
        ThroughAppend(earlier, t, d);
        ThroughAppend(us[..|us| - 1], t, d);
        if Underfunded(earlier, t) {
          var n := |us| - 2;
          ExplicitThrough(earlier, us[..n], d);
          assert us[..n + 1] == us[..n] + [us[n]];
          SameInstantSameDate(us[n], t);
          ThroughAppend(us[..n], us[n], d);
        } else {
          ExplicitThrough(earlier, us[..|us| - 1], d);
        }
      }
    }
  }

  lemma SameInstantSameDate(a: Transaction, b: Transaction)
    requires a.occurredAt == b.occurredAt
    ensures DateOf(a) == DateOf(b)
  {}

  lemma {:induction false} ExplicitPositions(ts: seq<Transaction>, us: seq<Transaction>)
    requires Explicit(ts, us)
    ensures PositionsAfter(us) == PositionsAfter(ts)
  {
    hide Valid, Run, Shortfall;
    if ts != [] {
      var earlier, t := ts[..|ts| - 1], ts[|ts| - 1];
      if Underfunded(earlier, t) {
        var n := |us| - 2;
        ExplicitPositions(earlier, us[..n]);
        assert us[..n + 1][..n] == us[..n];
      } else {
        ExplicitPositions(earlier, us[..|us| - 1]);
      }
    }
  }

  lemma {:induction false} ExplicitRows(ts: seq<Transaction>, us: seq<Transaction>)
    requires Explicit(ts, us)
    ensures forall t :: t in ts ==> t in us
    ensures forall u :: u in us ==> u in ts || u.symbol.None?
  {
    hide Validate, Run, Shortfall;
    if ts != [] {
      SplitLast(ts);
      var earlier, t := ts[..|ts| - 1], ts[|ts| - 1];
      if Underfunded(earlier, t) {
        var n := |us| - 2;
        ExplicitRows(earlier, us[..n]);
        ValidFields(us[n]);
        assert us == us[..n] + [us[n], us[n + 1]];
      } else {
        SplitLast(us);
        ExplicitRows(earlier, us[..|us| - 1]);
      }
    }
  }

  lemma ExplicitTraded(ts: seq<Transaction>, us: seq<Transaction>, start: Date)
    requires Explicit(ts, us)
    ensures TradedFrom(us, start) == TradedFrom(ts, start)
  {
    hide Explicit;
    ExplicitRows(ts, us);
  }

  lemma ExplicitBook(ts: seq<Transaction>, us: seq<Transaction>, d: Date)
    requires Explicit(ts, us) && InLedgerOrder(ts)
    ensures Run(Through(us, d)) == Run(Through(ts, d)) && BookOn(us, d) == BookOn(ts, d)
  {
    hide Explicit, Run, Through, InLedgerOrder;
    ExplicitThrough(ts, us, d);
    ExplicitRun(Through(ts, d), Through(us, d));
  }

  lemma SameFlowReported(ts: seq<Transaction>, us: seq<Transaction>, points: seq<Point>)
    requires forall d :: BookOn(us, d) == BookOn(ts, d)
    ensures FlowReported(us, points) == FlowReported(ts, points)
  {
    hide BookOn;
  }

  /** The points depend on the rows only through the end-of-day books. */
  lemma {:induction false} PointsFollowBooks(ts: seq<Transaction>, us: seq<Transaction>, prices: PriceTable, dates: seq<Date>)
    requires forall d :: BookOn(us, d) == BookOn(ts, d)
    ensures PointsOn(us, prices, dates) == PointsOn(ts, prices, dates)
  {
    hide BookOn, ValueOf, FlowReported, LatestPrices;
    if dates != [] {
      PointsFollowBooks(ts, us, prices, dates[..|dates| - 1]);
      SameFlowReported(ts, us, PointsOn(ts, prices, dates[..|dates| - 1]));
    }
  }

  lemma ExplicitRequired(ts: seq<Transaction>, us: seq<Transaction>, start: Date, end: Date)
    requires FirstInvalid(ts) == FirstInvalid(us)
    requires Explicit(LedgerSort(Through(ts, end)), LedgerSort(Through(us, end)))
    ensures RequiredSymbols(us, start, end) == RequiredSymbols(ts, start, end)
  {
    hide Explicit, FirstInvalid, LedgerSort, Through, PositionsAfter, TradedFrom, Nonzero;
    var p, q := LedgerSort(Through(ts, end)), LedgerSort(Through(us, end));
    LedgerSortFacts(Through(ts, end));
    ExplicitThrough(p, q, start - 1);
    ExplicitPositions(Through(p, start - 1), Through(q, start - 1));
    ExplicitTraded(p, q, start);
  }

  lemma ExplicitInputs(inputs: Inputs, us: seq<Transaction>)
    requires inputs.dates != [] && AscendingDates(inputs.dates)
    requires Explicit(inputs.ordered, us) && InLedgerOrder(inputs.ordered)
    ensures ValuateInputs(inputs.(ordered := us)) == ValuateInputs(inputs)
  {
    hide Explicit, InLedgerOrder, Run, Through, PointsOn, Finish, LatestPrices, BookOn;
    forall d ensures BookOn(us, d) == BookOn(inputs.ordered, d) {
      ExplicitBook(inputs.ordered, us, d);
    }
    PointsFollowBooks(inputs.ordered, us, inputs.prices, inputs.dates);
    ExplicitBook(inputs.ordered, us, LastDate(inputs));
  }

  /**
   * Explicit funding preserves meaning: for any two ledgers whose rows up to `end`, in ledger
   * order, differ only by explicit shortfall deposits, the valuation is the same in every
   * point, return and weight, or fails with the same error.
   */
  lemma ExplicitFundingPreservesValuation(ts: seq<Transaction>, us: seq<Transaction>, input: PriceInput, start: Date, end: Date)
    requires FirstInvalid(ts) == FirstInvalid(us)
    requires Explicit(LedgerSort(Through(ts, end)), LedgerSort(Through(us, end)))
    ensures Valuate(us, input, start, end) == Valuate(ts, input, start, end)
  {
    hide Explicit, FirstInvalid, LedgerSort, Through, RequiredSymbols, ValidatedPrices, MarketDates, ValuateInputs;
    LedgerSortFacts(Through(ts, end));
    ExplicitRequired(ts, us, start, end);
    if Prepare(ts, input, start, end).Ok? {
      ExplicitInputs(Prepare(ts, input, start, end).value, LedgerSort(Through(us, end)));
    }
  }

  function DepositFor(t: Transaction, amount: real): Transaction
    requires t.id > 0
  {
    Transaction(t.portfolioId, t.externalId + "/funding", DEPOSIT, t.occurredAt, None, None, None,
                Some(Finite(amount)), Finite(0.0), t.id - 1, t.createdAt)
  }

  /** One such ledger: each deposit carries the identifier just below its BUY. */
  function MakeExplicit(ts: seq<Transaction>): seq<Transaction>
    requires forall t :: t in ts ==> t.id > 0
  {
    if ts == [] then []
    else
      var earlier, t := ts[..|ts| - 1], ts[|ts| - 1];
      assert t in ts;
      MakeExplicit(earlier)
      + (if Underfunded(earlier, t) then [DepositFor(t, Shortfall(Run(earlier).value.cash, t))] else [])
      + [t]
  }

  lemma DepositForValid(t: Transaction, amount: real)
    requires Valid(t) && t.id > 0 && amount > 0.0
    ensures FundingDeposit(DepositFor(t, amount), t, amount)
  {
    var name := t.externalId + "/funding";
    assert name[|name| - 1] == 'g';
    assert LStrip(name)[|LStrip(name)| - 1] == 'g';
    assert RStrip(LStrip(name)) == LStrip(name);
  }

  lemma {:induction false} MakeExplicitIsExplicit(ts: seq<Transaction>)
    requires AllValid(ts) && forall t :: t in ts ==> t.id > 0
    ensures Explicit(ts, MakeExplicit(ts))
    ensures ts != [] ==> MakeExplicit(ts) != [] && MakeExplicit(ts)[|MakeExplicit(ts)| - 1] == ts[|ts| - 1]
  {
    hide Valid, Run, Shortfall, DepositFor, FundingDeposit, Explicit;
    if ts == [] {
      assert Explicit([], []) by { ExplicitOfNone(); }
    } else {
      var earlier, t := ts[..|ts| - 1], ts[|ts| - 1];
      AllValidPrefix(ts, |ts| - 1);
      MakeExplicitIsExplicit(earlier);
      var us, init := MakeExplicit(ts), MakeExplicit(earlier);
      assert t in ts;
      if Underfunded(earlier, t) {
        var amount := Shortfall(Run(earlier).value.cash, t);
        DepositForValid(t, amount);
        assert us == init + [DepositFor(t, amount), t];
        ExplicitFundedSnoc(earlier, init, t, DepositFor(t, amount));
      } else {
        assert us == init + [t];
        ExplicitSnoc(earlier, init, t);
      }
      SplitLast(ts);
    }
  }

  lemma ExplicitOfNone()
    ensures Explicit([], [])
  {}

  lemma ExplicitSnoc(ts: seq<Transaction>, us: seq<Transaction>, t: Transaction)
    requires Explicit(ts, us) && !Underfunded(ts, t)
    ensures Explicit(ts + [t], us + [t])
  {
    hide Underfunded;
    assert (ts + [t])[..|ts|] == ts && (us + [t])[..|us|] == us;
  }

  lemma ExplicitFundedSnoc(ts: seq<Transaction>, us: seq<Transaction>, t: Transaction, deposit: Transaction)
    requires Explicit(ts, us) && Underfunded(ts, t)
    requires FundingDeposit(deposit, t, Shortfall(Run(ts).value.cash, t))
    ensures Explicit(ts + [t], us + [deposit, t])
  {
    hide Run, Shortfall, FundingDeposit;
    assert (ts + [t])[..|ts|] == ts && (us + [deposit, t])[..|us|] == us;
  }

  /** With distinct identifiers that ledger is in ledger order already. */
  lemma {:induction false} MakeExplicitOrdered(ts: seq<Transaction>)
    requires AllValid(ts) && InLedgerOrder(ts) && DistinctIds(ts) && forall t :: t in ts ==> t.id > 0
    ensures InLedgerOrder(MakeExplicit(ts))
  {
    hide Valid, Run, Shortfall, FundingDeposit;
    if ts != [] {
      var earlier, t := ts[..|ts| - 1], ts[|ts| - 1];
      AllValidPrefix(ts, |ts| - 1);
      MakeExplicitOrdered(earlier);
      MakeExplicitIsExplicit(earlier);
      var us := MakeExplicit(earlier);
      assert t in ts;
      if Underfunded(earlier, t) {
        var deposit := DepositFor(t, Shortfall(Run(earlier).value.cash, t));
        if earlier != [] {
          assert LedgerLe(ts[|ts| - 2], t) && ts[|ts| - 2].id != t.id;
        }
        AppendInOrder(us, deposit);
        AppendInOrder(us + [deposit], t);
      } else {
        if earlier != [] {
          assert LedgerLe(ts[|ts| - 2], t);
        }
        assert MakeExplicit(ts) == us + [t];
        AppendInOrder(us, t);
      }
    }
  }

  lemma AppendInOrder(us: seq<Transaction>, t: Transaction)
    requires InLedgerOrder(us) && (us != [] ==> LedgerLe(us[|us| - 1], t))
    ensures InLedgerOrder(us + [t])
  {
    forall i | 0 <= i < |us| ensures LedgerLe(us[i], t) {
      assert i < |us| - 1 ==> LedgerLe(us[i], us[|us| - 1]);
    }
  }

  /** Explicit funding adds valid rows only. */
  lemma {:induction false} ExplicitValid(ts: seq<Transaction>, us: seq<Transaction>)
    requires Explicit(ts, us) && AllValid(ts)
    ensures AllValid(us)
  {
    hide Valid, Run, Shortfall;
    if ts != [] {
      var earlier, t := ts[..|ts| - 1], ts[|ts| - 1];
      AllValidPrefix(ts, |ts| - 1);
      if Underfunded(earlier, t) {
        ExplicitValid(earlier, us[..|us| - 2]);
        assert us == us[..|us| - 2] + [us[|us| - 2], t];
      } else {
        ExplicitValid(earlier, us[..|us| - 1]);
        SplitLast(us);
      }
    }
  }

  /** So every ledger with distinct positive identifiers has an explicitly funded twin. */
  lemma ExplicitTwinExists(ts: seq<Transaction>, end: Date)
    requires AllValid(ts) && DistinctIds(LedgerSort(Through(ts, end))) && forall t :: t in ts ==> t.id > 0
    ensures var ordered := LedgerSort(Through(ts, end));
            && (forall t :: t in ordered ==> t.id > 0)
            && Explicit(ordered, MakeExplicit(ordered)) && AllValid(MakeExplicit(ordered))
            && LedgerSort(Through(MakeExplicit(ordered), end)) == MakeExplicit(ordered)
  {
    hide Valid, Run, Shortfall, LedgerLe, Explicit, MakeExplicit, DistinctIds;
    var ordered := LedgerSort(Through(ts, end));
    LedgerSortFacts(Through(ts, end));
    ThroughValid(ts, end);
    var us := MakeExplicit(ordered);
    MakeExplicitIsExplicit(ordered);
    MakeExplicitOrdered(ordered);
    ExplicitValid(ordered, us);
    ExplicitDates(ordered, us, end);
    ThroughOfAll(us, end);
    LedgerLeIsTotalPreorder();
    SortOfSorted(us, LedgerLe);
  }

  /**
   * The twin's valuation is the original's, over any prices and start, and its replay needs no
   * implicit contribution at all.
   */
  lemma ExplicitTwinValuation(ts: seq<Transaction>, input: PriceInput, start: Date, end: Date)
    requires AllValid(ts) && DistinctIds(LedgerSort(Through(ts, end))) && forall t :: t in ts ==> t.id > 0
    ensures forall t :: t in LedgerSort(Through(ts, end)) ==> t.id > 0
    ensures var twin := MakeExplicit(LedgerSort(Through(ts, end)));
            && Valuate(twin, input, start, end) == Valuate(ts, input, start, end)
            && LedgerSort(Through(twin, end)) == twin
            && (Run(twin).Ok? ==> ImplicitFunding(twin) == 0.0)
  {
    hide Valid, Run, Explicit, MakeExplicit, DistinctIds, LedgerSort, Through, Valuate, ImplicitFunding;
    ExplicitTwinExists(ts, end);
    var ordered := LedgerSort(Through(ts, end));
    var twin := MakeExplicit(ordered);
    ExplicitFundingPreservesValuation(ts, twin, input, start, end);
    if Run(twin).Ok? {
      ExplicitHasNoImplicitFunding(ordered, twin);
    }
  }
}
