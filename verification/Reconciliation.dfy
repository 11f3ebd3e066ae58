/** The period returns, the flows and the values of a valuation account for each other exactly. */
module Reconciliation {
  import opened Wrappers
  import opened Transactions
  import opened Replay
  import opened Valuation
  import opened EndState
  import opened Analytics

  lemma {:induction false} GrowthHead(rs: seq<real>)
    requires rs != []
    ensures Growth(rs) == (1.0 + rs[0]) * Growth(rs[1..])
  {
    var n := |rs|;
    if n == 1 {
      assert rs[..0] == [] && rs[1..] == [];
    } else {
      var init := rs[..n - 1];
      GrowthHead(init);
      assert init[1..] == rs[1..][..n - 2];
      Associate(1.0 + rs[0], Growth(init[1..]), 1.0 + rs[n - 1]);
    }
  }

  lemma Associate(a: real, b: real, c: real)
    ensures (a * b) * c == a * (b * c)
  {}

  /** An amount compounded by a sequence of returns. */
  function Compounded(amount: real, rs: seq<real>): real {
    amount * Growth(rs)
  }

  /** The flows of points k, k+1, ..., each compounded by the returns after it. */
  function CompoundedFlows(points: seq<Point>, rs: seq<real>, k: nat): real
    requires |rs| + 1 == |points| && k <= |points|
    decreases |points| - k
  {
    if k == |points| then 0.0
    else Compounded(points[k].netExternalFlow, rs[k..]) + CompoundedFlows(points, rs, k + 1)
  }

  lemma {:induction false} ReturnsExplain(points: seq<Point>, k: nat)
    requires Returns(points).Ok? && 1 <= k < |points|
    requires forall i :: 0 <= i < |points| ==> points[i].totalValue > 0.0
    ensures |Returns(points).value| == |points| - 1
    ensures points[k].totalValue
         == points[k - 1].totalValue * (1.0 + Returns(points).value[k - 1]) + points[k].netExternalFlow
  {
    var n := |points|;
    var init := points[..n - 1];
    ReturnsLength(init);
    if k < n - 1 {
      ReturnsExplain(init, k);
    } else {
      var p, adjusted := points[n - 2].totalValue, points[n - 1].totalValue - points[n - 1].netExternalFlow;
      assert p * (adjusted / p) == adjusted;
    }
  }

  lemma CompoundedStep(before: real, flow: real, after: real, rs: seq<real>)
    requires rs != [] && after == before * (1.0 + rs[0]) + flow
    ensures Compounded(after, rs[1..]) == Compounded(before, rs) + Compounded(flow, rs[1..])
  {
    hide Growth;
    GrowthHead(rs);
    Distribute(before, 1.0 + rs[0], flow, Growth(rs[1..]));
  }

  lemma Distribute(v: real, g: real, f: real, h: real)
    ensures (v * g + f) * h == v * (g * h) + f * h
  {}

  lemma PointStep(points: seq<Point>, rs: seq<real>, k: nat)
    requires Returns(points) == Ok(rs) && |rs| + 1 == |points| && k + 1 < |points|
    requires forall i :: 0 <= i < |points| ==> points[i].totalValue > 0.0
    ensures Compounded(points[k + 1].totalValue, rs[k + 1..])
         == Compounded(points[k].totalValue, rs[k..]) + Compounded(points[k + 1].netExternalFlow, rs[k + 1..])
  {
    hide Compounded, Returns;
    ReturnsExplain(points, k + 1);
    assert rs[k..][1..] == rs[k + 1..];
    CompoundedStep(points[k].totalValue, points[k + 1].netExternalFlow, points[k + 1].totalValue, rs[k..]);
  }

  lemma {:induction false} ReconcileFrom(points: seq<Point>, rs: seq<real>, k: nat)
    requires Returns(points) == Ok(rs) && |rs| + 1 == |points| && k < |points|
    requires forall i :: 0 <= i < |points| ==> points[i].totalValue > 0.0
    ensures points[|points| - 1].totalValue
         == Compounded(points[k].totalValue, rs[k..]) + CompoundedFlows(points, rs, k + 1)
    decreases |points| - k
  {
    if k + 1 == |points| {
      assert rs[k..] == [];
    } else {
      hide Compounded, Returns;
      ReconcileFrom(points, rs, k + 1);
      PointStep(points, rs, k);
    }
  }

  /**
   * The last total value is the first one compounded by every period return, plus each later
   * flow compounded by the returns after it.
   */
  lemma ValuesReconcile(ts: seq<Transaction>, input: PriceInput, start: Date, end: Date)
    requires Valuate(ts, input, start, end).Ok?
    ensures var v := Valuate(ts, input, start, end).value;
            && |v.periodReturns| + 1 == |v.points|
            && v.portfolioValue
               == Compounded(v.points[0].totalValue, v.periodReturns) + CompoundedFlows(v.points, v.periodReturns, 1)
  {
    hide Compounded, CompoundedFlows, Returns, Valuate, Prepare, PointsOn, Run, Through, LatestPrices, WeightsOf;
    CompletedPoints(ts, input, start, end);
    var v := Valuate(ts, input, start, end).value;
    ReturnsLength(v.points);
    ReconcileFrom(v.points, v.periodReturns, 0);
    assert v.periodReturns[0..] == v.periodReturns;
  }

  lemma {:induction false} NoFlowsNoTerm(points: seq<Point>, rs: seq<real>, k: nat)
    requires |rs| + 1 == |points| && k <= |points|
    requires forall i :: k <= i < |points| ==> points[i].netExternalFlow == 0.0
    ensures CompoundedFlows(points, rs, k) == 0.0
    decreases |points| - k
  {
    if k < |points| {
      NoFlowsNoTerm(points, rs, k + 1);
    }
  }

  /** With no flow after the first point the compounded return is last / first - 1. */
  lemma CompoundedReturnWithoutFlows(ts: seq<Transaction>, input: PriceInput, start: Date, end: Date)
    requires Valuate(ts, input, start, end).Ok?
    requires var v := Valuate(ts, input, start, end).value;
             |v.points| > 1 && forall i :: 1 <= i < |v.points| ==> v.points[i].netExternalFlow == 0.0
    ensures var v := Valuate(ts, input, start, end).value;
            v.points[0].totalValue > 0.0
            && CompoundedReturn(v.periodReturns) == Some(v.portfolioValue / v.points[0].totalValue - 1.0)
  {
    hide Compounded, CompoundedFlows, Returns, Valuate, Prepare, PointsOn, Run, Through, LatestPrices, WeightsOf, Growth, AboveMinusOne;
    CompletedPoints(ts, input, start, end);
    ValuesReconcile(ts, input, start, end);
    var v := Valuate(ts, input, start, end).value;
    NoFlowsNoTerm(v.points, v.periodReturns, 1);
    DivideOut(v.points[0].totalValue, v.periodReturns);
  }

  lemma DivideOut(a: real, rs: seq<real>)
    requires a > 0.0
    ensures Compounded(a, rs) / a == Growth(rs)
  {
    hide Growth;
  }

  /** The drawdown of a completed valuation is the worst decline over all pairs of its wealth index, in (-1, 0]. */
  lemma ValuationDrawdown(ts: seq<Transaction>, input: PriceInput, start: Date, end: Date) returns (i: nat, j: nat)
    requires Valuate(ts, input, start, end).Ok?
    ensures var rs := Valuate(ts, input, start, end).value.periodReturns;
            && AboveMinusOne(rs) && i <= j <= |rs| && Drawdown(rs) == Decline(rs, i, j)
            && (forall a, b :: 0 <= a <= b <= |rs| ==> Drawdown(rs) <= Decline(rs, a, b))
            && -1.0 < Drawdown(rs) <= 0.0
  {
    hide Valuate;
    PeriodReturnsExceedMinusOne(ts, input, start, end);
    var rs := Valuate(ts, input, start, end).value.periodReturns;
    assert forall k :: 0 <= k < |rs| ==> rs[k] in rs;
    i, j := DrawdownIsWorstPair(rs);
  }
}
