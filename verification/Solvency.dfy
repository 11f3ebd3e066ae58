/** Which ledgers a replay completes, said without carrying cash from row to row, and how the others fail. */
module Solvency {
  import opened Wrappers
  import opened Transactions
  import opened Holdings
  import opened Replay

  /**
   * The stated cash after row k is no less than after some shorter prefix. What the BUYs of that
   * prefix were short of has been contributed, so this is when the cash at hand is not negative.
   */
  ghost predicate Covered(ts: seq<Transaction>, k: nat)
    requires k < |ts|
  {
    exists j :: 0 <= j <= k && StatedCash(ts[..j]) <= StatedCash(ts[..k + 1])
  }

  /** Every row other than a BUY leaves the cash covered; a BUY is funded whatever it costs. */
  ghost predicate CashSuffices(ts: seq<Transaction>) {
    forall k :: 0 <= k < |ts| && !ts[k].kind.BUY? ==> Covered(ts, k)
  }

  lemma CoveredPrefix(ts: seq<Transaction>, m: nat, k: nat)
    requires k < m <= |ts|
    ensures Covered(ts[..m], k) <==> Covered(ts, k)
  {
    hide StatedCash;
    var init := ts[..m];
    assert forall j :: 0 <= j <= k + 1 ==> init[..j] == ts[..j];
    if Covered(ts, k) {
      var j :| 0 <= j <= k && StatedCash(ts[..j]) <= StatedCash(ts[..k + 1]);
      assert StatedCash(init[..j]) <= StatedCash(init[..k + 1]);
    }
  }

  lemma SufficesPrefix(ts: seq<Transaction>)
    requires ts != []
    ensures CashSuffices(ts) <==> CashSuffices(ts[..|ts| - 1]) && (ts[|ts| - 1].kind.BUY? || Covered(ts, |ts| - 1))
  {
    hide Covered;
    var m := |ts| - 1;
    var init := ts[..m];
    forall k | 0 <= k < m ensures Covered(init, k) <==> Covered(ts, k) {
      CoveredPrefix(ts, m, k);
    }
    assert forall k :: 0 <= k < m ==> init[k] == ts[k];
  }

  /** The cash after a row, were it not for the check that it is not negative. */
  lemma CashAfter(ts: seq<Transaction>)
    requires ts != [] && Run(ts[..|ts| - 1]).Ok? && Valid(ts[|ts| - 1])
    ensures var b, t := Run(ts[..|ts| - 1]).value, ts[|ts| - 1];
            var left := StatedCash(ts) + ImplicitFunding(ts[..|ts| - 1]);
            && (t.kind.WITHDRAWAL? ==>
                  CashEffect(b.cash, t) == (if left < 0.0 then Err(WithdrawalExceedsCash) else Ok((left, -Amount(t)))))
            && (t.kind.DEPOSIT? || t.kind.SELL? ==> CashEffect(b.cash, t).Ok? && CashEffect(b.cash, t).value.0 == left)
            && (t.kind.BUY? ==> CashEffect(b.cash, t).Ok? && CashEffect(b.cash, t).value.0 >= 0.0)
  {
    hide Validate;
    Conservation(ts[..|ts| - 1]);
    FlowIsStatedPlusImplicit(ts[..|ts| - 1]);
    ValidFields(ts[|ts| - 1]);
    LastStated(ts);
  }

  /** What one row adds to the stated cash. */
  lemma LastStated(ts: seq<Transaction>)
    requires ts != []
    ensures var t := ts[|ts| - 1];
            StatedCash(ts) == StatedCash(ts[..|ts| - 1]) + StatedFlow(t) + SellIncome(t) - BuySpend(t) - AnyFee(t)
  {}

  lemma FundingCovers(ts: seq<Transaction>)
    requires ts != [] && Run(ts[..|ts| - 1]).Ok?
    ensures StatedCash(ts) + ImplicitFunding(ts[..|ts| - 1]) >= 0.0 <==> Covered(ts, |ts| - 1)
  {
    hide StatedCash, ImplicitFunding, Run;
    var m := |ts| - 1;
    var n := ImplicitFundingIsLargestDeficit(ts[..m]);
    assert ts[..|ts|] == ts && ts[..m][..n] == ts[..n];
    if j :| 0 <= j < |ts| && StatedCash(ts[..j]) <= StatedCash(ts[..|ts|]) {
      assert ts[..m][..j] == ts[..j];
      assert -StatedCash(ts[..m][..j]) <= ImplicitFunding(ts[..m]);
    }
  }

  /**
   * A replay completes exactly when every row is valid, no prefix sells more than it bought, and
   * every row other than a BUY leaves the stated cash at or above that of some earlier prefix.
   */
  lemma {:induction false} RunCompletesIff(ts: seq<Transaction>)
    ensures Run(ts).Ok? <==> AllValid(ts) && NeverOversold(ts) && CashSuffices(ts)
  {
    if ts == [] {
      assert NeverOversold(ts);
    } else {
      hide Valid, NeverOversold, CashSuffices, Covered, StatedCash, Apply;
      var init, t := ts[..|ts| - 1], ts[|ts| - 1];
      RunCompletesIff(init);
      SufficesPrefix(ts);
      ValidLast(ts);
      OversoldLast(ts);
      if Run(init).Ok? && Valid(t) {
        RunPositions(init);
        AppliesIff(ts);
      } else if Run(init).Ok? {
        InvalidRefused(Run(init).value, t);
      }
    }
  }

  lemma ValidLast(ts: seq<Transaction>)
    requires ts != []
    ensures AllValid(ts) <==> AllValid(ts[..|ts| - 1]) && Valid(ts[|ts| - 1])
  {
    hide Valid;
    assert forall i :: 0 <= i < |ts| - 1 ==> ts[i] == ts[..|ts| - 1][i];
  }

  /** Of valid rows, the last oversells exactly when the positions before it do not allow it. */
  lemma OversoldLast(ts: seq<Transaction>)
    requires ts != []
    ensures AllValid(ts) ==>
      (NeverOversold(ts) <==>
         NeverOversold(ts[..|ts| - 1]) && PositionsAfter(ts[..|ts| - 1]).Ok?
         && ApplyPosition(PositionsAfter(ts[..|ts| - 1]).value, ts[|ts| - 1]).Ok?)
  {
    hide Valid, NeverOversold, ApplyPosition;
    if AllValid(ts) {
      ValidLast(ts);
      AcceptedIffNeverOversold(ts);
      AcceptedIffNeverOversold(ts[..|ts| - 1]);
    }
  }

  lemma InvalidRefused(b: Book, t: Transaction)
    requires !Valid(t)
    ensures Apply(b, t).Err?
  {
    hide Validate;
  }

  lemma AppliesIff(ts: seq<Transaction>)
    requires ts != [] && Run(ts[..|ts| - 1]).Ok? && Valid(ts[|ts| - 1])
    ensures var b, t := Run(ts[..|ts| - 1]).value, ts[|ts| - 1];
            Apply(b, t).Ok? <==> ApplyPosition(b.positions, t).Ok? && (t.kind.BUY? || Covered(ts, |ts| - 1))
  {
    hide Validate, ApplyPosition, CashEffect, StatedCash, Covered, ImplicitFunding, Run;
    CashAfter(ts);
    FundingCovers(ts);
  }

  /**
   * How a row fails that is the first to: an invalid row with its own validation error; else a SELL
   * of more than the net; else a withdrawal, or fees, beyond the cash at hand.
   */
  lemma FirstFailure(ts: seq<Transaction>)
    requires ts != [] && Run(ts[..|ts| - 1]).Ok? && Run(ts).Err?
    ensures var t := ts[|ts| - 1];
            && (!Valid(t) ==> Run(ts) == Err(InvalidTransaction(Validate(t).value)))
            && (Valid(t) && t.kind.SELL? && Qty(t) > Net(ts[..|ts| - 1], Sym(t)) ==> Run(ts) == Err(SellExceeds(Sym(t))))
            && (Valid(t) && t.kind.SELL? && Qty(t) <= Net(ts[..|ts| - 1], Sym(t)) ==> Run(ts) == Err(FeesExceedCash))
            && (Valid(t) && t.kind.DEPOSIT? ==> Run(ts) == Err(FeesExceedCash))
            && (Valid(t) && t.kind.WITHDRAWAL? ==> Run(ts) == Err(WithdrawalExceedsCash))
            && (Valid(t) ==> !t.kind.BUY?)
  {
    hide Validate, Net, StatedCash, ImplicitFunding, CashEffect;
    var init, t := ts[..|ts| - 1], ts[|ts| - 1];
    RunPositions(init);
    QuantityIsNet(init, Sym(t));
    if Valid(t) {
      CashAfter(ts);
    }
  }
}
