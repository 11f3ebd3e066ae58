/** Replaying ledger rows into positions, cash and external flow. */
module Replay {
  import opened Wrappers
  import opened Transactions
  import opened Holdings

  /** Everything the valuation can raise, one constructor per message. */
  datatype ValuationError =
    | InvalidTransaction(cause: TransactionError)
    | RangeReversed
    | NoSecurityHoldings
    | BarSymbolMismatch(symbol: string)
    | BarPriceNotPositive(symbol: string)
    | DuplicatePriceDate(symbol: string, date: Date)
    | NoBarsInRange(symbol: string)
    | NoMarketDates
    | WithdrawalExceedsCash
    | FeesExceedCash
    | SellExceeds(symbol: string)
    | NoPositiveBalance
    | NoUsablePrice(symbol: string)
    | PreviousValueNotPositive
    | AdjustedValueNotPositive

  /** Positions and cash, with the external flow accumulated since the first row. */
  datatype Book = Book(positions: Quantities, cash: real, flow: real)

  const EMPTY_BOOK := Book(map[], 0.0, 0.0)

  /** Cash a BUY needs. */
  function Cost(t: Transaction): real {
    Qty(t) * Price(t) + Fee(t)
  }

  /** Cash a SELL brings in before fees. */
  function Proceeds(t: Transaction): real {
    Qty(t) * Price(t)
  }

  function Shortfall(cash: real, t: Transaction): real {
    if t.kind.BUY? && Cost(t) > cash then Cost(t) - cash else 0.0
  }

  /** Cash after the row and the external flow it causes, before the final non-negativity check. */
  function CashEffect(cash: real, t: Transaction): Result<(real, real), ValuationError> {
    match t.kind
    case DEPOSIT => Ok((cash + (Amount(t) - Fee(t)), Amount(t)))
    case WITHDRAWAL =>
      var required := Amount(t) + Fee(t);
      if required > cash then Err(WithdrawalExceedsCash) else Ok((cash - required, -Amount(t)))
    case BUY =>
      var contribution := Shortfall(cash, t);
      Ok((cash + contribution - Cost(t), contribution))
    case SELL => Ok((cash + (Proceeds(t) - Fee(t)), 0.0))
  }

  function Apply(b: Book, t: Transaction): Result<Book, ValuationError> {
    var invalid := Validate(t);
    if invalid.Some? then Err(InvalidTransaction(invalid.value))
    else
      var positions := ApplyPosition(b.positions, t);
      if positions.Err? then Err(SellExceeds(positions.error))
      else
        var effect :- CashEffect(b.cash, t);
        if effect.0 < 0.0 then Err(FeesExceedCash)
        else Ok(Book(positions.value, effect.0, b.flow + effect.1))
  }

  function Run(ts: seq<Transaction>): Result<Book, ValuationError> {
    if ts == [] then Ok(EMPTY_BOOK)
    else
      var b :- Run(ts[..|ts| - 1]);
      Apply(b, ts[|ts| - 1])
  }

  lemma RunOfNone(ts: seq<Transaction>)
    requires ts == []
    ensures Run(ts) == Ok(EMPTY_BOOK)
  {}

  lemma RunAppend(ts: seq<Transaction>, t: Transaction)
    ensures Run(ts + [t]) == if Run(ts).Ok? then Apply(Run(ts).value, t) else Run(ts)
  {
    assert (ts + [t])[..|ts|] == ts;
  }

  lemma {:induction false} RunErrorPrefix(ts: seq<Transaction>, n: nat)
    requires n <= |ts| && Run(ts[..n]).Err?
    ensures Run(ts) == Run(ts[..n])
  {
    if n < |ts| {
      assert ts[..|ts| - 1][..n] == ts[..n];
      RunErrorPrefix(ts[..|ts| - 1], n);
    } else {
      assert ts[..n] == ts;
    }
  }

  lemma {:induction false} RunPositions(ts: seq<Transaction>)
    requires Run(ts).Ok?
    ensures PositionsAfter(ts) == Ok(Run(ts).value.positions)
    ensures AllValid(ts)
  {
    hide Validate, CashEffect, ApplyPosition;
    if ts != [] {
      RunPositions(ts[..|ts| - 1]);
      assert forall i :: 0 <= i < |ts| - 1 ==> ts[i] == ts[..|ts| - 1][i];
    }
  }

  /** A replay can only complain about an oversold position if the positions alone do. */
  lemma {:induction false} AcceptedNeverSellExceeds(ts: seq<Transaction>)
    requires PositionsAfter(ts).Ok?
    ensures Run(ts).Ok? || !Run(ts).error.SellExceeds?
  {
    if ts != [] {
      AcceptedNeverSellExceeds(ts[..|ts| - 1]);
      if Run(ts[..|ts| - 1]).Ok? {
        RunPositions(ts[..|ts| - 1]);
      }
    }
  }

  /** Totals over a ledger, for the conservation law. */
  function Sum(ts: seq<Transaction>, f: Transaction -> real): real {
    if ts == [] then 0.0 else Sum(ts[..|ts| - 1], f) + f(ts[|ts| - 1])
  }

  function BuySpend(t: Transaction): real { if t.kind.BUY? then Qty(t) * Price(t) else 0.0 }
  function SellIncome(t: Transaction): real { if t.kind.SELL? then Proceeds(t) else 0.0 }
  function AnyFee(t: Transaction): real { Fee(t) }

  /**
   * Conservation: after any replayed prefix the cash is the external flow plus what sales
   * brought in, minus what purchases cost, minus every fee; neither cash nor any position
   * is ever negative.
   */
  lemma {:induction false} Conservation(ts: seq<Transaction>)
    requires Run(ts).Ok?
    ensures Run(ts).value.cash == Run(ts).value.flow + Sum(ts, SellIncome) - Sum(ts, BuySpend) - Sum(ts, AnyFee)
    ensures Run(ts).value.cash >= 0.0
    ensures forall s :: s in Run(ts).value.positions ==> Run(ts).value.positions[s] >= 0.0
  {
    if ts != [] {
      hide Validate;
      Conservation(ts[..|ts| - 1]);
      if Valid(ts[|ts| - 1]) {
        ValidFields(ts[|ts| - 1]);
      }
    }
  }

  /** Deposits in, withdrawals out, and what the BUYs could not pay for from cash. */
  function StatedFlow(t: Transaction): real {
    if t.kind.DEPOSIT? then Amount(t) else if t.kind.WITHDRAWAL? then -Amount(t) else 0.0
  }

  function ImplicitFunding(ts: seq<Transaction>): real
    requires Run(ts).Ok?
  {
    if ts == [] then 0.0
    else
      ImplicitFunding(ts[..|ts| - 1]) + Shortfall(Run(ts[..|ts| - 1]).value.cash, ts[|ts| - 1])
  }

  lemma {:induction false} FlowIsStatedPlusImplicit(ts: seq<Transaction>)
    requires Run(ts).Ok?
    ensures Run(ts).value.flow == Sum(ts, StatedFlow) + ImplicitFunding(ts)
    ensures ImplicitFunding(ts) >= 0.0
  {
    if ts != [] {
      FlowIsStatedPlusImplicit(ts[..|ts| - 1]);
    }
  }

  /** The cash there would be with no implicit contribution; below zero it is a deficit. */
  function StatedCash(ts: seq<Transaction>): real {
    Sum(ts, StatedFlow) + Sum(ts, SellIncome) - Sum(ts, BuySpend) - Sum(ts, AnyFee)
  }

  lemma StatedCashPrefix(ts: seq<Transaction>, k: nat)
    requires ts != [] && k < |ts|
    ensures StatedCash(ts[..|ts| - 1][..k]) == StatedCash(ts[..k])
  {
    assert ts[..|ts| - 1][..k] == ts[..k];
  }

  /** One more row raises the funding to that row's deficit, if that is larger. */
  lemma FundingStep(ts: seq<Transaction>)
    requires ts != [] && Run(ts).Ok?
    ensures ImplicitFunding(ts)
         == if -StatedCash(ts) > ImplicitFunding(ts[..|ts| - 1]) then -StatedCash(ts) else ImplicitFunding(ts[..|ts| - 1])
  {
    Conservation(ts);
    Conservation(ts[..|ts| - 1]);
    FlowIsStatedPlusImplicit(ts);
    FlowIsStatedPlusImplicit(ts[..|ts| - 1]);
  }

  /**
   * The implicit contributions of a replay come to exactly the largest deficit that any prefix
   * would have without them: never more outside money than needed, and never less.
   */
  lemma {:induction false} ImplicitFundingIsLargestDeficit(ts: seq<Transaction>) returns (n: nat)
    requires Run(ts).Ok?
    ensures forall k :: 0 <= k <= |ts| ==> -StatedCash(ts[..k]) <= ImplicitFunding(ts)
    ensures n <= |ts| && ImplicitFunding(ts) == -StatedCash(ts[..n])
  {
    hide StatedCash, ImplicitFunding, Apply;
    assert ts[..|ts|] == ts;
    n := |ts|;
    if ts == [] {
      NothingFunded(ts);
    } else {
      var init := ts[..|ts| - 1];
      var m := ImplicitFundingIsLargestDeficit(init);
      FundingStep(ts);
      forall k | 0 <= k < |ts| ensures -StatedCash(ts[..k]) <= ImplicitFunding(init) {
        StatedCashPrefix(ts, k);
      }
      if -StatedCash(ts) <= ImplicitFunding(init) {
        StatedCashPrefix(ts, m);
        n := m;
      }
    }
  }

  lemma NothingFunded(ts: seq<Transaction>)
    requires ts == []
    ensures Run(ts).Ok? && ImplicitFunding(ts) == 0.0 == StatedCash(ts)
  {}
}
