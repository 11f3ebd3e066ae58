/** The transaction record, its validation rules and the ledger order. */
module Transactions {
  import opened Wrappers
  import opened Sorting
  import opened Text

  /** A Decimal: an exact number, or NaN / an infinity. */
  datatype Decimal = Finite(value: real) | NonFinite

  /** A datetime in microseconds: timezone-aware (held as its UTC instant) or naive. */
  datatype Moment = Aware(instant: int) | Naive(instant: int)

  datatype TransactionType = BUY | SELL | DEPOSIT | WITHDRAWAL

  datatype Transaction = Transaction(
    portfolioId: nat,
    externalId: string,
    kind: TransactionType,
    occurredAt: Moment,
    symbol: Option<string>,
    quantity: Option<Decimal>,
    unitPrice: Option<Decimal>,
    cashAmount: Option<Decimal>,
    fees: Decimal,
    id: nat,
    createdAt: Option<Moment>)
  {
    predicate IsTrade() {
      kind.BUY? || kind.SELL?
    }
  }

  /** InvalidTransactionError, one constructor per message. */
  datatype TransactionError =
    | BlankExternalId
    | NaiveOccurredAt
    | NaiveCreatedAt
    | FeesNotNonNegative
    | MissingSymbol
    | SymbolNotNormalized
    | QuantityNotPositive
    | UnitPriceNotPositive
    | TradeWithCashAmount
    | TransferWithTradeFields
    | CashAmountNotPositive
    | SellExceedsPosition(symbol: string)
    | PrecisionExceeded(field: string)
    | ScaleExceeded(field: string)

  type Date = int

  const MICROSECONDS_PER_DAY := 86_400_000_000

  predicate IsPositive(value: Option<Decimal>) {
    value.Some? && value.value.Finite? && value.value.value > 0.0
  }

  function Validate(t: Transaction): Option<TransactionError> {
    if Strip(t.externalId) == [] then Some(BlankExternalId)
    else if t.occurredAt.Naive? then Some(NaiveOccurredAt)
    else if t.createdAt.Some? && t.createdAt.value.Naive? then Some(NaiveCreatedAt)
    else if !t.fees.Finite? || t.fees.value < 0.0 then Some(FeesNotNonNegative)
    else if t.IsTrade() then
      if t.symbol.None? || Strip(t.symbol.value) == [] then Some(MissingSymbol)
      else if t.symbol.value != Normalize(t.symbol.value) then Some(SymbolNotNormalized)
      else if !IsPositive(t.quantity) then Some(QuantityNotPositive)
      else if !IsPositive(t.unitPrice) then Some(UnitPriceNotPositive)
      else if t.cashAmount.Some? then Some(TradeWithCashAmount)
      else None
    else
      if t.symbol.Some? || t.quantity.Some? || t.unitPrice.Some? then Some(TransferWithTradeFields)
      else if !IsPositive(t.cashAmount) then Some(CashAmountNotPositive)
      else None
  }

  predicate Valid(t: Transaction) {
    Validate(t).None?
  }

  /** Field readers for rows that passed validation; 0 or the empty symbol where a field is absent. */
  function Number(value: Option<Decimal>): real {
    if value.Some? && value.value.Finite? then value.value.value else 0.0
  }

  function Qty(t: Transaction): real { Number(t.quantity) }
  function Price(t: Transaction): real { Number(t.unitPrice) }
  function Amount(t: Transaction): real { Number(t.cashAmount) }
  function Fee(t: Transaction): real { Number(Some(t.fees)) }
  function Sym(t: Transaction): string { if t.symbol.Some? then t.symbol.value else "" }

  function Occurred(t: Transaction): int { t.occurredAt.instant }

  /** `created_at or occurred_at` */
  function Recorded(t: Transaction): int {
    if t.createdAt.Some? then t.createdAt.value.instant else t.occurredAt.instant
  }

  /** The UTC calendar date, in days since the epoch (floor division). */
  function DateOf(t: Transaction): Date {
    Occurred(t) / MICROSECONDS_PER_DAY
  }

  /** The ledger order: occurred_at, then created_at, then id. */
  predicate LedgerLe(a: Transaction, b: Transaction) {
    Occurred(a) < Occurred(b)
    || (Occurred(a) == Occurred(b)
        && (Recorded(a) < Recorded(b) || (Recorded(a) == Recorded(b) && a.id <= b.id)))
  }

  function LedgerSort(ts: seq<Transaction>): seq<Transaction> {
    Sort(ts, LedgerLe)
  }

  lemma LedgerLeIsTotalPreorder()
    ensures TotalPreorder(LedgerLe)
  {}

  /** The earlier row is the one that occurred earlier, else was recorded earlier, else has the smaller id. */
  lemma LedgerOrderIs(a: Transaction, b: Transaction)
    requires a.occurredAt.Aware? && b.occurredAt.Aware?
    ensures a.occurredAt.instant != b.occurredAt.instant ==> (LedgerLe(a, b) <==> a.occurredAt.instant < b.occurredAt.instant)
    ensures a.occurredAt == b.occurredAt && a.createdAt.None? && b.createdAt.None? ==> (LedgerLe(a, b) <==> a.id <= b.id)
    ensures a.occurredAt == b.occurredAt && a.createdAt.Some? && b.createdAt.Some?
            && a.createdAt.value.instant != b.createdAt.value.instant ==>
              (LedgerLe(a, b) <==> a.createdAt.value.instant < b.createdAt.value.instant)
    ensures a.occurredAt == b.occurredAt && a.createdAt.None? && b.createdAt.Some? && b.createdAt.value.instant != a.occurredAt.instant ==>
              (LedgerLe(a, b) <==> a.occurredAt.instant < b.createdAt.value.instant)
    ensures a.occurredAt == b.occurredAt && a.createdAt == b.createdAt ==> (LedgerLe(a, b) <==> a.id <= b.id)
  {}

  predicate InLedgerOrder(ts: seq<Transaction>) {
    forall i, j :: 0 <= i < j < |ts| ==> LedgerLe(ts[i], ts[j])
  }

  predicate DistinctIds(ts: seq<Transaction>) {
    forall i, j :: 0 <= i < j < |ts| ==> ts[i].id != ts[j].id
  }

  predicate AllValid(ts: seq<Transaction>) {
    forall i :: 0 <= i < |ts| ==> Valid(ts[i])
  }

  /** A number that is there, finite and positive. */
  ghost predicate PositiveNumber(value: Option<Decimal>) {
    exists v: real :: v > 0.0 && value == Some(Finite(v))
  }

  /** A row of the ledger, by its fields: whoever builds it knows whether it is one. */
  ghost predicate WellFormedRow(t: Transaction) {
    && (exists i :: 0 <= i < |t.externalId| && !IsSpace(t.externalId[i]))
    && t.occurredAt.Aware? && (t.createdAt.Some? ==> t.createdAt.value.Aware?)
    && (exists fee: real :: fee >= 0.0 && t.fees == Finite(fee))
    && match t.kind
       case BUY => TradeFields(t)
       case SELL => TradeFields(t)
       case DEPOSIT => TransferFields(t)
       case WITHDRAWAL => TransferFields(t)
  }

  ghost predicate TradeFields(t: Transaction) {
    && t.symbol.Some? && t.symbol.value != "" && Normalize(t.symbol.value) == t.symbol.value
    && PositiveNumber(t.quantity) && PositiveNumber(t.unitPrice) && t.cashAmount == None
  }

  ghost predicate TransferFields(t: Transaction) {
    t.symbol == None && t.quantity == None && t.unitPrice == None && PositiveNumber(t.cashAmount)
  }

  lemma PositiveIff(value: Option<Decimal>)
    ensures IsPositive(value) <==> PositiveNumber(value)
  {
    if IsPositive(value) {
      assert value == Some(Finite(value.value.value));
    }
  }

  /** Validation accepts exactly those rows. */
  lemma ValidIff(t: Transaction)
    ensures Valid(t) <==> WellFormedRow(t)
  {
    hide IsPositive, PositiveNumber, Normalize, Strip, IsSpace;
    PositiveIff(t.quantity);
    PositiveIff(t.unitPrice);
    PositiveIff(t.cashAmount);
    StripIsEmptyIff(t.externalId);
    if t.symbol.Some? {
      if Normalize(t.symbol.value) == t.symbol.value {
        NormalizedBlank(t.symbol.value);
      }
    }
    if t.fees.Finite? && t.fees.value >= 0.0 {
      assert t.fees == Finite(t.fees.value);
    }
  }

  /** What a row must satisfy, in the order in which it is asked, with what is said of it otherwise. */
  ghost function Demands(t: Transaction): seq<(bool, TransactionError)> {
    [(Strip(t.externalId) != "", BlankExternalId),
     (t.occurredAt.Aware?, NaiveOccurredAt),
     (t.createdAt.Some? ==> t.createdAt.value.Aware?, NaiveCreatedAt),
     (t.fees.Finite? && t.fees.value >= 0.0, FeesNotNonNegative)]
    + match t.kind
      case BUY => TradeDemands(t)
      case SELL => TradeDemands(t)
      case DEPOSIT => TransferDemands(t)
      case WITHDRAWAL => TransferDemands(t)
  }

  ghost function TradeDemands(t: Transaction): seq<(bool, TransactionError)> {
    [(t.symbol.Some? && Strip(t.symbol.value) != "", MissingSymbol),
     (t.symbol.Some? && Normalize(t.symbol.value) == t.symbol.value, SymbolNotNormalized),
     (PositiveNumber(t.quantity), QuantityNotPositive),
     (PositiveNumber(t.unitPrice), UnitPriceNotPositive),
     (t.cashAmount == None, TradeWithCashAmount)]
  }

  ghost function TransferDemands(t: Transaction): seq<(bool, TransactionError)> {
    [(t.symbol == None && t.quantity == None && t.unitPrice == None, TransferWithTradeFields),
     (PositiveNumber(t.cashAmount), CashAmountNotPositive)]
  }

  /** An invalid row is refused for the first demand it does not meet. */
  lemma RefusedForFirst(t: Transaction) returns (k: nat)
    requires !Valid(t)
    ensures k < |Demands(t)| && !Demands(t)[k].0 && Validate(t) == Some(Demands(t)[k].1)
    ensures forall j :: 0 <= j < k ==> Demands(t)[j].0
  {
    hide IsPositive, PositiveNumber, Normalize, Strip;
    PositiveIff(t.quantity);
    PositiveIff(t.unitPrice);
    PositiveIff(t.cashAmount);
    k := match Validate(t).value
         case BlankExternalId => 0
         case NaiveOccurredAt => 1
         case NaiveCreatedAt => 2
         case FeesNotNonNegative => 3
         case MissingSymbol => 4
         case TransferWithTradeFields => 4
         case SymbolNotNormalized => 5
         case CashAmountNotPositive => 5
         case QuantityNotPositive => 6
         case UnitPriceNotPositive => 7
         case _ => 8;
  }

  /** A day contains the instants of its rows; instants before the epoch round down. */
  lemma DateContains(t: Transaction)
    ensures var day := 24 * 60 * 60 * 1_000_000;
            DateOf(t) * day <= t.occurredAt.instant < (DateOf(t) + 1) * day
  {}

  /** What a validated row guarantees about its fields. */
  lemma ValidFields(t: Transaction)
    requires Valid(t)
    ensures t.occurredAt.Aware? && Fee(t) >= 0.0
    ensures t.symbol.Some? <==> t.IsTrade()
    ensures t.IsTrade() ==> Qty(t) > 0.0 && Price(t) > 0.0 && Sym(t) == Normalize(Sym(t))
    ensures !t.IsTrade() ==> Amount(t) > 0.0
  {}

  lemma AllValidPrefix(ts: seq<Transaction>, n: nat)
    requires AllValid(ts) && n <= |ts|
    ensures AllValid(ts[..n])
  {
    hide Valid;
  }

  /** The first validation error in the given order. */
  function FirstInvalid(ts: seq<Transaction>): (r: Option<TransactionError>)
    ensures r.None? <==> AllValid(ts)
  {
    if ts == [] then None
    else
      var earlier := FirstInvalid(ts[..|ts| - 1]);
      if earlier.Some? then earlier
      else
        assert forall i :: 0 <= i < |ts| - 1 ==> ts[i] == ts[..|ts| - 1][i];
        Validate(ts[|ts| - 1])
  }

  /** An error found in a prefix is the error of the whole. */
  lemma {:induction false} FirstInvalidPrefix(ts: seq<Transaction>, n: nat)
    requires n <= |ts| && FirstInvalid(ts[..n]).Some?
    ensures FirstInvalid(ts) == FirstInvalid(ts[..n])
  {
    if n < |ts| {
      assert ts[..|ts| - 1][..n] == ts[..n];
      FirstInvalidPrefix(ts[..|ts| - 1], n);
    } else {
      assert ts[..n] == ts;
    }
  }

  predicate OnOrBefore(t: Transaction, d: Date) {
    DateOf(t) <= d
  }

  /** The rows dated on or before `d`, in the order given. */
  function Through(ts: seq<Transaction>, d: Date): (r: seq<Transaction>)
    ensures forall t :: t in r <==> t in ts && DateOf(t) <= d
  {
    Filter(ts, (t: Transaction) => OnOrBefore(t, d))
  }

  /** In ledger order those rows are a prefix. */
  lemma {:induction false} ThroughIsPrefix(ts: seq<Transaction>, d: Date, n: nat)
    requires InLedgerOrder(ts) && n <= |ts|
    requires forall i :: 0 <= i < n ==> DateOf(ts[i]) <= d
    requires n < |ts| ==> DateOf(ts[n]) > d
    ensures Through(ts, d) == ts[..n]
  {
    if |ts| == n {
      AllThrough(ts, d);
      assert ts[..n] == ts;
    } else {
      var init := ts[..|ts| - 1];
      assert DateOf(ts[|ts| - 1]) > d by {
        DateMonotone(ts[n], ts[|ts| - 1]);
      }
      assert init[..n] == ts[..n];
      ThroughIsPrefix(init, d, n);
    }
  }

  lemma DateMonotone(a: Transaction, b: Transaction)
    requires LedgerLe(a, b) || a == b
    ensures DateOf(a) <= DateOf(b)
  {}

  lemma {:induction false} AllThrough(ts: seq<Transaction>, d: Date)
    requires forall i :: 0 <= i < |ts| ==> DateOf(ts[i]) <= d
    ensures Through(ts, d) == ts
  {
    if ts != [] {
      AllThrough(ts[..|ts| - 1], d);
    }
  }

  /** Cutting a ledger at a date commutes with putting it in ledger order. */
  lemma ThroughSort(ts: seq<Transaction>, d: Date)
    ensures Through(LedgerSort(ts), d) == LedgerSort(Through(ts, d))
  {
    FilterSort(ts, (t: Transaction) => OnOrBefore(t, d), LedgerLe);
  }

  lemma ThroughThrough(ts: seq<Transaction>, d: Date, e: Date)
    requires d <= e
    ensures Through(Through(ts, e), d) == Through(ts, d)
  {
    FilterFilter(ts, (t: Transaction) => OnOrBefore(t, e), (t: Transaction) => OnOrBefore(t, d));
  }

  lemma ThroughAppend(ts: seq<Transaction>, t: Transaction, d: Date)
    ensures Through(ts + [t], d) == if DateOf(t) <= d then Through(ts, d) + [t] else Through(ts, d)
  {
    FilterAppend(ts, t, (t: Transaction) => OnOrBefore(t, d));
  }

  /** In ledger order, the rows up to `d` are a prefix of the rows up to any later `e`. */
  lemma ThroughPrefix(ts: seq<Transaction>, d: Date) returns (n: nat)
    requires InLedgerOrder(ts)
    ensures n <= |ts| && Through(ts, d) == ts[..n]
    ensures forall i :: n <= i < |ts| ==> DateOf(ts[i]) > d
    ensures forall i :: 0 <= i < n ==> DateOf(ts[i]) <= d
  {
    n := 0;
    while n < |ts| && DateOf(ts[n]) <= d
      invariant n <= |ts|
      invariant forall i :: 0 <= i < n ==> DateOf(ts[i]) <= d
    {
      n := n + 1;
    }
    ThroughIsPrefix(ts, d, n);
    forall i | n <= i < |ts| ensures DateOf(ts[i]) > d {
      DateMonotone(ts[n], ts[i]);
    }
  }

  /** The cuts at two dates, the earlier one first. */
  lemma TwoCuts(ts: seq<Transaction>, d: Date, e: Date) returns (n: nat, m: nat)
    requires InLedgerOrder(ts) && d <= e
    ensures n <= m <= |ts| && Through(ts, d) == ts[..n] && Through(ts, e) == ts[..m]
    ensures Through(ts, d) == Through(ts, e)[..n]
    ensures forall i :: n <= i < m ==> d < DateOf(ts[i]) <= e
  {
    hide LedgerLe, DateOf, Through;
    m := ThroughPrefix(ts, e);
    n := ThroughPrefix(ts[..m], d);
    ThroughThrough(ts, d, e);
    assert ts[..m][..n] == ts[..n];
    assert forall i :: n <= i < m ==> ts[i] == ts[..m][i];
  }

  lemma LedgerSortFacts(ts: seq<Transaction>)
    ensures InLedgerOrder(LedgerSort(ts))
    ensures multiset(LedgerSort(ts)) == multiset(ts)
    ensures |LedgerSort(ts)| == |ts|
    ensures forall t :: t in LedgerSort(ts) <==> t in ts
    ensures AllValid(ts) <==> AllValid(LedgerSort(ts))
  {
    SortSorts(ts, LedgerLe);
    SortPermutes(ts, LedgerLe);
    var us := LedgerSort(ts);
    if AllValid(ts) {
      forall i | 0 <= i < |us| ensures Valid(us[i]) {
        assert us[i] in ts;
      }
    }
    if AllValid(us) {
      forall i | 0 <= i < |ts| ensures Valid(ts[i]) {
        assert ts[i] in us;
      }
    }
  }
}
