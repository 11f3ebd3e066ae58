/** Admitting transactions to a portfolio's ledger: building a row, idempotent replay and the ledger check. */
module Admission {
  import opened Wrappers
  import opened Sorting
  import opened Text
  import opened Transactions
  import opened Holdings

  datatype NewTransaction = NewTransaction(
    externalId: string,
    kind: TransactionType,
    occurredAt: Moment,
    symbol: Option<string>,
    quantity: Option<Decimal>,
    unitPrice: Option<Decimal>,
    cashAmount: Option<Decimal>,
    fees: Decimal)

  datatype ServiceError =
    | PortfolioNotFound
    | InvalidTransaction(cause: TransactionError)
    | IdempotencyConflict(externalId: string)

  datatype Creation = Creation(transaction: Transaction, created: bool)

  const QUANTITY_SCALE := 1_000_000_000_000.0
  const MONEY_SCALE := 100_000_000.0
  const COEFFICIENT_LIMIT := 10_000_000_000_000_000_000_000_000_000

  /** Round half to even, the rounding of `Decimal.quantize`. */
  function RoundHalfEven(x: real): int {
    var low := x.Floor;
    var rest := x - low as real;
    if rest < 0.5 || (rest == 0.5 && low % 2 == 0) then low else low + 1
  }

  function AtScale(v: real, scale: real): real {
    v * scale
  }

  /** Accepts a value unchanged if it fits the scale and 28 significant digits. */
  function QuantizeExact(value: Option<Decimal>, scale: real, field: string): Result<Option<Decimal>, TransactionError> {
    if value.None? || value.value.NonFinite? then Ok(value)
    else
      var scaled := AtScale(value.value.value, scale);
      var coefficient := RoundHalfEven(scaled);
      if coefficient >= COEFFICIENT_LIMIT || -coefficient >= COEFFICIENT_LIMIT then Err(PrecisionExceeded(field))
      else if coefficient as real != scaled then Err(ScaleExceeded(field))
      else Ok(value)
  }

  /** Ten to the power k: the least number of k + 1 digits. */
  function Power10(k: nat): nat {
    if k == 0 then 1 else 10 * Power10(k - 1)
  }

  lemma LimitIs28Digits()
    ensures COEFFICIENT_LIMIT == Power10(28)
  {
    assert Power10(14) == 100_000_000_000_000;
  }

  /** `v` is the integer `n` at the given scale, in at most 28 digits. */
  predicate Fits(v: real, scale: real, n: int) {
    -COEFFICIENT_LIMIT < n < COEFFICIENT_LIMIT && AtScale(v, scale) == n as real
  }

  lemma RoundOfInteger(x: real, n: int)
    requires x == n as real
    ensures RoundHalfEven(x) == n
  {
    assert x.Floor == n;
  }

  /** A number is accepted exactly when it is an integer of at most 28 digits at the given scale, and is then unchanged. */
  lemma QuantizeExactIff(v: real, scale: real, field: string)
    ensures QuantizeExact(Some(Finite(v)), scale, field).Ok? <==> exists n: int :: Fits(v, scale, n)
    ensures QuantizeExact(Some(Finite(v)), scale, field).Ok? ==> QuantizeExact(Some(Finite(v)), scale, field).value == Some(Finite(v))
  {
    hide RoundHalfEven, AtScale;
    if n: int :| Fits(v, scale, n) {
      RoundOfInteger(AtScale(v, scale), n);
    }
    if QuantizeExact(Some(Finite(v)), scale, field).Ok? {
      assert Fits(v, scale, RoundHalfEven(AtScale(v, scale)));
    }
  }

  function BuildTransaction(portfolioId: nat, n: NewTransaction, id: nat, createdAt: int): Result<Transaction, TransactionError> {
    var quantity :- QuantizeExact(n.quantity, QUANTITY_SCALE, "quantity");
    var unitPrice :- QuantizeExact(n.unitPrice, MONEY_SCALE, "unit_price");
    var cashAmount :- QuantizeExact(n.cashAmount, MONEY_SCALE, "cash_amount");
    var fees :- QuantizeExact(Some(n.fees), MONEY_SCALE, "fees");
    Ok(Transaction(portfolioId, Strip(n.externalId), n.kind, n.occurredAt,
                   if n.symbol.Some? then Some(Normalize(n.symbol.value)) else None,
                   quantity, unitPrice, cashAmount, n.fees, id, Some(Aware(createdAt))))
  }

  /** Build, then `validate_transaction`. */
  function BuildValid(portfolioId: nat, n: NewTransaction, id: nat, createdAt: int): Result<Transaction, TransactionError> {
    var t :- BuildTransaction(portfolioId, n, id, createdAt);
    var invalid := Validate(t);
    if invalid.Some? then Err(invalid.value) else Ok(t)
  }

  /** Everything that identifies the request: all fields but the identifier and the recording time. */
  function Payload(t: Transaction): Transaction {
    t.(id := 0, createdAt := None)
  }

  predicate SamePayload(a: Transaction, b: Transaction) {
    && a.portfolioId == b.portfolioId && a.externalId == b.externalId && a.kind == b.kind
    && a.occurredAt == b.occurredAt && a.symbol == b.symbol && a.quantity == b.quantity
    && a.unitPrice == b.unitPrice && a.cashAmount == b.cashAmount && a.fees == b.fees
  }

  lemma SamePayloadIsPayload(a: Transaction, b: Transaction)
    ensures SamePayload(a, b) <==> Payload(a) == Payload(b)
  {}

  /** The nearest integer, ties to the even one. */
  ghost predicate Nearest(x: real, n: int) {
    && n as real - 0.5 <= x <= n as real + 0.5
    && (x == n as real - 0.5 || x == n as real + 0.5 ==> n % 2 == 0)
  }

  lemma NearestIsRounded(x: real, n: int)
    requires Nearest(x, n)
    ensures RoundHalfEven(x) == n
  {
    assert x.Floor == n || x.Floor == n - 1;
  }

  /** How a number is refused: for its magnitude first, then for its scale. */
  lemma QuantizeRefusal(v: real, scale: real, field: string, n: int)
    requires Nearest(AtScale(v, scale), n)
    ensures QuantizeExact(Some(Finite(v)), scale, field)
         == if !(-COEFFICIENT_LIMIT < n < COEFFICIENT_LIMIT) then Err(PrecisionExceeded(field))
            else if n as real != AtScale(v, scale) then Err(ScaleExceeded(field))
            else Ok(Some(Finite(v)))
  {
    hide RoundHalfEven, AtScale;
    NearestIsRounded(AtScale(v, scale), n);
  }

  /** An absent or non-finite number passes, for validation to judge; a finite one must be exact at the scale. */
  ghost predicate Exact(value: Option<Decimal>, scale: real) {
    value.Some? && value.value.Finite? ==> exists n: int :: Fits(value.value.value, scale, n)
  }

  lemma ExactIff(value: Option<Decimal>, scale: real, field: string)
    ensures QuantizeExact(value, scale, field).Ok? <==> Exact(value, scale)
    ensures QuantizeExact(value, scale, field).Ok? ==> QuantizeExact(value, scale, field).value == value
  {
    hide Fits, AtScale, RoundHalfEven;
    if value.Some? && value.value.Finite? {
      QuantizeExactIff(value.value.value, scale, field);
    }
  }

  /** The row says what the request says, trimmed and upper-cased where that is due, plus what was drawn for it. */
  ghost predicate Carries(t: Transaction, portfolioId: nat, n: NewTransaction, id: nat, at: int) {
    && t.portfolioId == portfolioId && t.id == id && t.createdAt == Some(Aware(at))
    && t.externalId == Strip(n.externalId) && t.kind == n.kind && t.occurredAt == n.occurredAt
    && (n.symbol.None? ==> t.symbol == None)
    && (n.symbol.Some? ==> t.symbol == Some(Normalize(n.symbol.value)))
    && t.quantity == n.quantity && t.unitPrice == n.unitPrice && t.cashAmount == n.cashAmount && t.fees == n.fees
  }

  /** Quantities have twelve decimals, amounts of money eight. */
  ghost predicate NumbersExact(n: NewTransaction) {
    && Exact(n.quantity, 1_000_000_000_000.0) && Exact(n.unitPrice, 100_000_000.0)
    && Exact(n.cashAmount, 100_000_000.0) && Exact(Some(n.fees), 100_000_000.0)
  }

  /**
   * A request builds exactly when its four numbers are exact and the row that carries it is valid;
   * what is built is that row.
   */
  lemma BuildsIff(p: nat, n: NewTransaction, id: nat, at: int)
    ensures BuildValid(p, n, id, at).Ok? <==> NumbersExact(n) && exists t :: Carries(t, p, n, id, at) && Valid(t)
    ensures forall t :: BuildValid(p, n, id, at) == Ok(t) <==> NumbersExact(n) && Carries(t, p, n, id, at) && Valid(t)
  {
    hide Exact, QuantizeExact, Strip, Normalize, Validate;
    ExactIff(n.quantity, QUANTITY_SCALE, "quantity");
    ExactIff(n.unitPrice, MONEY_SCALE, "unit_price");
    ExactIff(n.cashAmount, MONEY_SCALE, "cash_amount");
    ExactIff(Some(n.fees), MONEY_SCALE, "fees");
    if NumbersExact(n) {
      assert Carries(BuildTransaction(p, n, id, at).value, p, n, id, at);
    }
  }

  /** A request that does not build is refused for its first inexact number, else as its row is. */
  lemma BuildRefusal(p: nat, n: NewTransaction, id: nat, at: int)
    requires BuildValid(p, n, id, at).Err?
    ensures var e := BuildValid(p, n, id, at).error;
            if !Exact(n.quantity, 1_000_000_000_000.0) then Err(e) == QuantizeExact(n.quantity, 1_000_000_000_000.0, "quantity")
            else if !Exact(n.unitPrice, 100_000_000.0) then Err(e) == QuantizeExact(n.unitPrice, 100_000_000.0, "unit_price")
            else if !Exact(n.cashAmount, 100_000_000.0) then Err(e) == QuantizeExact(n.cashAmount, 100_000_000.0, "cash_amount")
            else if !Exact(Some(n.fees), 100_000_000.0) then Err(e) == QuantizeExact(Some(n.fees), 100_000_000.0, "fees")
            else forall t :: Carries(t, p, n, id, at) ==> Validate(t) == Some(e)
  {
    hide Exact, QuantizeExact, Strip, Normalize, Validate;
    ExactIff(n.quantity, QUANTITY_SCALE, "quantity");
    ExactIff(n.unitPrice, MONEY_SCALE, "unit_price");
    ExactIff(n.cashAmount, MONEY_SCALE, "cash_amount");
    ExactIff(Some(n.fees), MONEY_SCALE, "fees");
    if NumbersExact(n) {
      assert Carries(BuildTransaction(p, n, id, at).value, p, n, id, at);
    }
  }

  /** Building twice from one request differs in the drawn identifier and time only. */
  lemma BuildDraws(p: nat, n: NewTransaction, id: nat, at: int, id': nat, at': int)
    ensures BuildValid(p, n, id, at).Ok? <==> BuildValid(p, n, id', at').Ok?
    ensures BuildValid(p, n, id, at).Err? ==> BuildValid(p, n, id', at') == BuildValid(p, n, id, at)
    ensures BuildValid(p, n, id, at).Ok? ==>
              SamePayload(BuildValid(p, n, id, at).value, BuildValid(p, n, id', at').value)
    ensures BuildValid(p, n, id, at).Ok? ==>
              var t := BuildValid(p, n, id, at).value;
              Valid(t) && t.portfolioId == p && t.id == id && t.createdAt == Some(Aware(at)) && t.externalId == Strip(n.externalId)
  {
    hide QuantizeExact, Strip, Normalize;
  }

  /** The first row, in insertion order, with the external id. */
  function Find(ledger: seq<Transaction>, externalId: string): (r: Option<Transaction>)
    ensures r.Some? ==> r.value in ledger && r.value.externalId == externalId
    ensures r.None? <==> forall t :: t in ledger ==> t.externalId != externalId
  {
    if ledger == [] then None
    else if ledger[0].externalId == externalId then Some(ledger[0])
    else Find(ledger[1..], externalId)
  }

  lemma {:induction false} FindAppend(ledger: seq<Transaction>, more: seq<Transaction>, externalId: string)
    requires Find(ledger, externalId).Some?
    ensures Find(ledger + more, externalId) == Find(ledger, externalId)
  {
    if ledger[0].externalId != externalId {
      assert (ledger + more)[1..] == ledger[1..] + more;
      FindAppend(ledger[1..], more, externalId);
    }
  }

  /** What `create` answers once the portfolio row is locked and owned; `ledger` is in insertion order. */
  function Admit(ledger: seq<Transaction>, portfolioId: nat, n: NewTransaction, id: nat, now: int): Result<Creation, ServiceError> {
    var built := BuildValid(portfolioId, n, id, now);
    if built.Err? then Err(InvalidTransaction(built.error))
    else
      var t := built.value;
      var existing := Find(ledger, t.externalId);
      if existing.Some? then
        if SamePayload(existing.value, t) then Ok(Creation(existing.value, false))
        else Err(IdempotencyConflict(t.externalId))
      else
        var positions := DerivePositions(LedgerSort(ledger) + [t]);
        if positions.Err? then Err(InvalidTransaction(positions.error)) else Ok(Creation(t, true))
  }

  /** The ledger with one more row is acceptable: valid rows that never oversell in ledger order. */
  ghost predicate Acceptable(ledger: seq<Transaction>, t: Transaction) {
    AllValid(ledger) && Valid(t) && NeverOversold(LedgerSort(ledger + [t]))
  }

  /**
   * What `create` answers, over a ledger whose external ids are unique. A request that does not
   * build is invalid. A known external id replays the stored row if the payload is the same and
   * conflicts otherwise, whatever the ledger. A new one is created exactly when the ledger with it
   * is acceptable, and is else invalid; over valid rows, for the symbol it oversells.
   */
  lemma AdmitAnswers(ledger: seq<Transaction>, p: nat, n: NewTransaction, id: nat, now: int)
    requires UniqueExternalIds(ledger)
    ensures var answer, built := Admit(ledger, p, n, id, now), BuildValid(p, n, id, now);
            && (built.Err? ==> answer == Err(InvalidTransaction(built.error)))
            && (forall t, stored :: built == Ok(t) && stored in ledger && stored.externalId == t.externalId ==>
                  answer == if Payload(stored) == Payload(t) then Ok(Creation(stored, false))
                            else Err(IdempotencyConflict(t.externalId)))
            && (forall t :: built == Ok(t) && (forall stored :: stored in ledger ==> stored.externalId != t.externalId) ==>
                  && (Acceptable(ledger, t) ==> answer == Ok(Creation(t, true)))
                  && (!Acceptable(ledger, t) ==> answer.Err? && answer.error.InvalidTransaction?)
                  && (!Acceptable(ledger, t) && AllValid(ledger) ==> answer.error.cause.SellExceedsPosition?))
  {
    hide BuildValid, Find, DerivePositions, LedgerSort, Valid, NeverOversold, SamePayload, Payload, AllValid;
    var built := BuildValid(p, n, id, now);
    if built.Ok? {
      var t := built.value;
      BuildDraws(p, n, id, now, id, now);
      AcceptableIff(ledger, t);
      forall stored | stored in ledger && stored.externalId == t.externalId ensures Find(ledger, t.externalId) == Some(stored) {
        FindIs(ledger, stored);
      }
      forall stored {
        SamePayloadIsPayload(stored, t);
      }
    }
  }

  lemma FindIs(ledger: seq<Transaction>, stored: Transaction)
    requires UniqueExternalIds(ledger) && stored in ledger
    ensures Find(ledger, stored.externalId) == Some(stored)
  {
    hide Find;
    var found := Find(ledger, stored.externalId);
    var i :| 0 <= i < |ledger| && ledger[i] == stored;
    var j :| 0 <= j < |ledger| && ledger[j] == found.value;
    assert !(i < j) && !(j < i);
  }

  lemma AcceptableIff(ledger: seq<Transaction>, t: Transaction)
    requires Valid(t)
    ensures Acceptable(ledger, t) <==> DerivePositions(LedgerSort(ledger) + [t]).Ok?
    ensures AllValid(ledger) && !Acceptable(ledger, t) ==> DerivePositions(LedgerSort(ledger) + [t]).error.SellExceedsPosition?
  {
    hide LedgerSort, Valid, NeverOversold, PositionsAfter, Report;
    CheckedLedger(ledger, t);
    DeriveAcceptsIff(ledger + [t]);
    AllValidAppend(ledger, t);
    LedgerSortFacts(ledger);
    AllValidAppend(LedgerSort(ledger), t);
  }

  /** The committed ledger afterwards. */
  function Committed(ledger: seq<Transaction>, answer: Result<Creation, ServiceError>): seq<Transaction> {
    if answer.Ok? && answer.value.created then ledger + [answer.value.transaction] else ledger
  }

  ghost predicate UniqueExternalIds(ledger: seq<Transaction>) {
    forall i, j :: 0 <= i < j < |ledger| ==> ledger[i].externalId != ledger[j].externalId
  }

  /** The ledger invariant: valid rows of one portfolio, unique external ids, never oversold. */
  ghost predicate GoodLedger(ledger: seq<Transaction>, portfolioId: nat) {
    && UniqueExternalIds(ledger)
    && (forall i :: 0 <= i < |ledger| ==> ledger[i].portfolioId == portfolioId)
    && DerivePositions(ledger).Ok?
  }

  /** The check runs on the sorted ledger plus the row; that is the same as the row appended. */
  lemma CheckedLedger(ledger: seq<Transaction>, t: Transaction)
    ensures DerivePositions(LedgerSort(ledger) + [t]).Ok? <==> DerivePositions(ledger + [t]).Ok?
  {
    hide PositionsAfter, LedgerLe, Valid;
    LedgerLeIsTotalPreorder();
    SortAppend(ledger, t, LedgerLe);
    LedgerSortFacts(ledger);
    AllValidAppend(ledger, t);
    AllValidAppend(LedgerSort(ledger), t);
    assert LedgerSort(LedgerSort(ledger) + [t]) == LedgerSort(ledger + [t]);
  }

  lemma AllValidAppend(ts: seq<Transaction>, t: Transaction)
    ensures AllValid(ts + [t]) <==> AllValid(ts) && Valid(t)
  {
    hide Valid;
    if AllValid(ts + [t]) {
      assert ts == (ts + [t])[..|ts|];
      AllValidPrefix(ts + [t], |ts|);
      assert Valid((ts + [t])[|ts|]);
    }
  }

  lemma UniqueAppend(ledger: seq<Transaction>, t: Transaction)
    requires UniqueExternalIds(ledger) && Find(ledger, t.externalId).None?
    ensures UniqueExternalIds(ledger + [t])
  {
    forall i | 0 <= i < |ledger| ensures ledger[i].externalId != t.externalId {
      assert ledger[i] in ledger;
    }
  }

  /** Admission keeps the ledger invariant, whatever is asked. */
  lemma AdmitKeepsGood(ledger: seq<Transaction>, portfolioId: nat, n: NewTransaction, id: nat, now: int)
    requires GoodLedger(ledger, portfolioId)
    ensures GoodLedger(Committed(ledger, Admit(ledger, portfolioId, n, id, now)), portfolioId)
  {
    hide BuildValid, DerivePositions, LedgerSort, SamePayload;
    BuildDraws(portfolioId, n, id, now, id, now);
    var answer := Admit(ledger, portfolioId, n, id, now);
    if answer.Ok? && answer.value.created {
      var t := answer.value.transaction;
      CheckedLedger(ledger, t);
      UniqueAppend(ledger, t);
    }
  }

  /** Once an external id is stored, the same request is answered with the stored row, forever after. */
  lemma AdmitReplays(ledger: seq<Transaction>, more: seq<Transaction>, portfolioId: nat, n: NewTransaction,
                     id: nat, now: int, id': nat, now': int)
    requires Admit(ledger, portfolioId, n, id, now).Ok?
    ensures var first := Admit(ledger, portfolioId, n, id, now);
            Admit(Committed(ledger, first) + more, portfolioId, n, id', now') == Ok(Creation(first.value.transaction, false))
  {
    hide BuildValid, DerivePositions, LedgerSort;
    BuildDraws(portfolioId, n, id, now, id', now');
    var first := Admit(ledger, portfolioId, n, id, now);
    var t := first.value.transaction;
    var e := Strip(n.externalId);
    var after := Committed(ledger, first);
    if first.value.created {
      FindNew(ledger, t);
    }
    assert Find(after, e) == Some(t);
    FindAppend(after, more, e);
  }

  lemma {:induction false} FindNew(ledger: seq<Transaction>, t: Transaction)
    requires Find(ledger, t.externalId).None?
    ensures Find(ledger + [t], t.externalId) == Some(t)
  {
    if ledger != [] {
      assert (ledger + [t])[1..] == ledger[1..] + [t];
      FindNew(ledger[1..], t);
    }
  }

  /** An external id that is stored can never be created again. */
  lemma AdmitNeverRecreates(ledger: seq<Transaction>, portfolioId: nat, n: NewTransaction, id: nat, now: int)
    requires exists t :: t in ledger && t.externalId == Strip(n.externalId)
    ensures Committed(ledger, Admit(ledger, portfolioId, n, id, now)) == ledger
  {
    hide BuildValid, DerivePositions, LedgerSort;
    BuildDraws(portfolioId, n, id, now, id, now);
  }

  predicate OfPortfolio(t: Transaction, portfolioId: nat) {
    t.portfolioId == portfolioId
  }

  /** A portfolio's rows, in insertion order. */
  function RowsOf(transactions: seq<Transaction>, portfolioId: nat): seq<Transaction> {
    Filter(transactions, (t: Transaction) => OfPortfolio(t, portfolioId))
  }
}
