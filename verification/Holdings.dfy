/** Positions derived from a ledger: `derive_positions` and what makes a ledger acceptable. */
module Holdings {
  import opened Wrappers
  import opened Sorting
  import opened Text
  import opened Transactions

  datatype Position = Position(symbol: string, quantity: real)

  type Quantities = map<string, real>

  function Held(q: Quantities, s: string): real {
    if s in q then q[s] else 0.0
  }

  /** One row applied to the quantities; the error names the symbol that is oversold. */
  function ApplyPosition(q: Quantities, t: Transaction): Result<Quantities, string> {
    match t.kind
    case DEPOSIT => Ok(q)
    case WITHDRAWAL => Ok(q)
    case BUY => Ok(q[Sym(t) := Held(q, Sym(t)) + Qty(t)])
    case SELL =>
      var updated := Held(q, Sym(t)) - Qty(t);
      if updated < 0.0 then Err(Sym(t)) else Ok(q[Sym(t) := updated])
  }

  function PositionsAfter(ts: seq<Transaction>): Result<Quantities, string> {
    if ts == [] then Ok(map[])
    else
      var q :- PositionsAfter(ts[..|ts| - 1]);
      ApplyPosition(q, ts[|ts| - 1])
  }

  function Nonzero(q: Quantities): Quantities {
    map s | s in q && q[s] != 0.0 :: q[s]
  }

  /** Sorted by symbol, zero quantities dropped. */
  function Report(q: Quantities): seq<Position> {
    var symbols := SortedTexts(Nonzero(q).Keys);
    seq(|symbols|, i requires 0 <= i < |symbols| => Position(symbols[i], Held(q, symbols[i])))
  }

  function DerivePositions(ts: seq<Transaction>): Result<seq<Position>, TransactionError> {
    var invalid := FirstInvalid(ts);
    if invalid.Some? then Err(invalid.value)
    else
      match PositionsAfter(LedgerSort(ts))
      case Err(s) => Err(SellExceedsPosition(s))
      case Ok(q) => Ok(Report(q))
  }

  lemma FirstInvalidOfNone(ts: seq<Transaction>)
    requires ts == []
    ensures FirstInvalid(ts).None?
  {}

  lemma FirstInvalidStep(ts: seq<Transaction>, i: nat)
    requires i < |ts| && FirstInvalid(ts[..i]).None?
    ensures FirstInvalid(ts[..i + 1]) == Validate(ts[i])
    ensures Validate(ts[i]).Some? ==> FirstInvalid(ts) == Validate(ts[i])
  {
    assert ts[..i + 1][..i] == ts[..i];
    if Validate(ts[i]).Some? {
      FirstInvalidPrefix(ts, i + 1);
    }
  }

  lemma PositionsOfNone(ts: seq<Transaction>)
    requires ts == []
    ensures PositionsAfter(ts) == Ok(map[])
  {}

  lemma PositionsStep(ts: seq<Transaction>, i: nat)
    requires i < |ts| && PositionsAfter(ts[..i]).Ok?
    ensures PositionsAfter(ts[..i + 1]) == ApplyPosition(PositionsAfter(ts[..i]).value, ts[i])
    ensures PositionsAfter(ts[..i + 1]).Err? ==> PositionsAfter(ts) == PositionsAfter(ts[..i + 1])
  {
    assert ts[..i + 1][..i] == ts[..i];
    if PositionsAfter(ts[..i + 1]).Err? {
      OversoldPrefix(ts, i + 1);
    }
  }

  lemma {:induction false} OversoldPrefix(ts: seq<Transaction>, n: nat)
    requires n <= |ts| && PositionsAfter(ts[..n]).Err?
    ensures PositionsAfter(ts) == PositionsAfter(ts[..n])
  {
    if n < |ts| {
      assert ts[..|ts| - 1][..n] == ts[..n];
      OversoldPrefix(ts[..|ts| - 1], n);
    } else {
      assert ts[..n] == ts;
    }
  }

  /** The loop over the ordered rows, updating the quantities dict. */
  method DerivePositionsLoop(ts: seq<Transaction>) returns (r: Result<seq<Position>, TransactionError>)
    ensures r == DerivePositions(ts)
  {
    hide FirstInvalid, Validate, LedgerSort, Report;
    FirstInvalidOfNone(ts[..0]);
    for i := 0 to |ts|
      invariant FirstInvalid(ts[..i]).None?
    {
      var error := Validate(ts[i]);
      FirstInvalidStep(ts, i);
      if error.Some? {
        return Err(error.value);
      }
    }
    assert ts[..|ts|] == ts;
    var ordered := LedgerSort(ts);
    var quantities: Quantities := map[];
    for i := 0 to |ordered|
      invariant PositionsAfter(ordered[..i]) == Ok(quantities)
    {
      var t := ordered[i];
      PositionsStep(ordered, i);
      if !t.IsTrade() {
        continue;
      }
      var current := if Sym(t) in quantities then quantities[Sym(t)] else 0.0;
      var updated;
      if t.kind.BUY? {
        updated := current + Qty(t);
      } else {
        updated := current - Qty(t);
        if updated < 0.0 {
          return Err(SellExceedsPosition(Sym(t)));
        }
      }
      quantities := quantities[Sym(t) := updated];
    }
    assert ordered[..|ordered|] == ordered;
    return Ok(Report(quantities));
  }

  /** Shares bought minus shares sold. */
  function Net(ts: seq<Transaction>, s: string): real {
    if ts == [] then 0.0
    else Net(ts[..|ts| - 1], s) + Delta(ts[|ts| - 1], s)
  }

  function Delta(t: Transaction, s: string): real {
    if !t.IsTrade() || Sym(t) != s then 0.0 else if t.kind.BUY? then Qty(t) else -Qty(t)
  }

  ghost predicate NeverOversold(ts: seq<Transaction>) {
    forall n: nat, s: string :: n <= |ts| ==> Net(ts[..n], s) >= 0.0
  }

  /** The replayed quantities are the net bought shares, and never negative. */
  lemma {:induction false} QuantityIsNet(ts: seq<Transaction>, s: string)
    requires PositionsAfter(ts).Ok? && AllValid(ts)
    ensures Held(PositionsAfter(ts).value, s) == Net(ts, s) >= 0.0
  {
    hide Validate;
    if ts != [] {
      AllValidPrefix(ts, |ts| - 1);
      ValidFields(ts[|ts| - 1]);
      QuantityIsNet(ts[..|ts| - 1], s);
      QuantityIsNet(ts[..|ts| - 1], Sym(ts[|ts| - 1]));
    }
  }

  /** A replay of valid rows succeeds exactly when no prefix sells more of a symbol than it bought. */
  lemma {:induction false} AcceptedIffNeverOversold(ts: seq<Transaction>)
    requires AllValid(ts)
    ensures PositionsAfter(ts).Ok? <==> NeverOversold(ts)
  {
    if PositionsAfter(ts).Ok? {
      forall n: nat, s: string | n <= |ts| ensures Net(ts[..n], s) >= 0.0 {
        if PositionsAfter(ts[..n]).Err? {
          OversoldPrefix(ts, n);
        }
        QuantityIsNet(ts[..n], s);
      }
    } else {
      var init, last := ts[..|ts| - 1], ts[|ts| - 1];
      AcceptedIffNeverOversold(init);
      if PositionsAfter(init).Ok? {
        QuantityIsNet(init, Sym(last));
        assert ts[..|ts|] == ts;
        assert Net(ts, Sym(last)) < 0.0;
      } else {
        var n: nat, s: string :| n <= |init| && Net(init[..n], s) < 0.0;
        assert ts[..n] == init[..n];
      }
    }
  }

  /** `derive_positions` accepts exactly the valid ledgers whose ledger-order prefixes never oversell. */
  lemma DeriveAcceptsIff(ts: seq<Transaction>)
    ensures DerivePositions(ts).Ok? <==> AllValid(ts) && NeverOversold(LedgerSort(ts))
  {
    LedgerSortFacts(ts);
    if AllValid(ts) {
      AcceptedIffNeverOversold(LedgerSort(ts));
    }
  }

  /** The reported positions are exactly the symbols with a nonzero net, with that net. */
  lemma DeriveReportsNet(ts: seq<Transaction>, s: string)
    requires DerivePositions(ts).Ok?
    ensures forall p :: p in DerivePositions(ts).value ==> p.quantity == Net(LedgerSort(ts), p.symbol) > 0.0
    ensures Net(LedgerSort(ts), s) != 0.0 ==> Position(s, Net(LedgerSort(ts), s)) in DerivePositions(ts).value
  {
    var us := LedgerSort(ts);
    LedgerSortFacts(ts);
    var q := PositionsAfter(us).value;
    var report := DerivePositions(ts).value;
    var symbols := SortedTexts(Nonzero(q).Keys);
    forall p | p in report ensures p.quantity == Net(us, p.symbol) > 0.0 {
      var i :| 0 <= i < |report| && report[i] == p;
      assert symbols[i] in symbols;
      QuantityIsNet(us, p.symbol);
    }
    QuantityIsNet(us, s);
    if Net(us, s) != 0.0 {
      assert s in symbols;
      var i :| 0 <= i < |symbols| && symbols[i] == s;
      assert report[i] == Position(s, Net(us, s));
    }
  }

  /** A list of positions: each symbol with a nonzero net once, in text order, with its net. */
  ghost predicate ListsNets(ps: seq<Position>, us: seq<Transaction>) {
    && (forall i, j :: 0 <= i < j < |ps| ==> ps[i].symbol != ps[j].symbol && TextLe(ps[i].symbol, ps[j].symbol))
    && (forall p :: p in ps ==> p.quantity == Net(us, p.symbol) != 0.0)
    && (forall s :: Net(us, s) != 0.0 ==> Position(s, Net(us, s)) in ps)
  }

  lemma ReportLists(q: Quantities, i: nat)
    requires i < |Report(q)|
    ensures |Report(q)| == |SortedTexts(Nonzero(q).Keys)|
    ensures Report(q)[i].symbol == SortedTexts(Nonzero(q).Keys)[i]
  {}

  /** What `derive_positions` reports is such a list. */
  lemma DeriveListsNets(ts: seq<Transaction>)
    requires DerivePositions(ts).Ok?
    ensures ListsNets(DerivePositions(ts).value, LedgerSort(ts))
  {
    hide Net, TextLe, LedgerSort, FirstInvalid, PositionsAfter, Report;
    var ps := DerivePositions(ts).value;
    var q := PositionsAfter(LedgerSort(ts)).value;
    forall s {
      DeriveReportsNet(ts, s);
    }
    forall i, j | 0 <= i < j < |ps| ensures ps[i].symbol != ps[j].symbol && TextLe(ps[i].symbol, ps[j].symbol) {
      ReportLists(q, i);
      ReportLists(q, j);
    }
  }

  /** There is only one such list, so those clauses determine the report. */
  lemma ListsNetsUnique(ps: seq<Position>, rs: seq<Position>, us: seq<Transaction>)
    requires ListsNets(ps, us) && ListsNets(rs, us)
    ensures ps == rs
  {
    hide Net, TextLe;
    PositionLeIsTotalOrder();
    forall p ensures p in ps <==> p in rs {
      assert p in ps ==> p == Position(p.symbol, Net(us, p.symbol));
      assert p in rs ==> p == Position(p.symbol, Net(us, p.symbol));
    }
    ListsAscend(ps, us);
    ListsAscend(rs, us);
    AscendingUnique(ps, rs, PositionLe);
  }

  predicate PositionLe(a: Position, b: Position) {
    TextLe(a.symbol, b.symbol) && (a.symbol == b.symbol ==> a.quantity <= b.quantity)
  }

  lemma PositionLeIsTotalOrder()
    ensures TotalOrder(PositionLe)
  {
    TextLeIsTotalOrder();
    hide TextLe;
    TextTransitive();
  }

  lemma TextTransitive()
    ensures forall a, b, c :: TextLe(a, b) && TextLe(b, c) ==> TextLe(a, c)
    ensures forall a, b :: TextLe(a, b) || TextLe(b, a)
    ensures forall a, b :: TextLe(a, b) && TextLe(b, a) ==> a == b
  {
    TextLeIsTotalOrder();
  }

  lemma ListsAscend(ps: seq<Position>, us: seq<Transaction>)
    requires ListsNets(ps, us)
    ensures Ascending(ps, PositionLe)
  {
    hide Net, TextLe;
  }

  lemma DistinctIdsNoTies(ts: seq<Transaction>)
    requires DistinctIds(ts)
    ensures forall x, y :: x in ts && y in ts && LedgerLe(x, y) && LedgerLe(y, x) ==> x == y
  {}

  /** With distinct ids the outcome does not depend on the order the ledger is handed over in. */
  lemma DeriveOrderIndependent(ts: seq<Transaction>, us: seq<Transaction>)
    requires multiset(ts) == multiset(us) && DistinctIds(ts)
    ensures DerivePositions(ts).Ok? <==> DerivePositions(us).Ok?
    ensures AllValid(ts) ==> DerivePositions(ts) == DerivePositions(us)
  {
    LedgerLeIsTotalPreorder();
    DistinctIdsNoTies(ts);
    SortInsensitive(ts, us, LedgerLe);
    LedgerSortFacts(ts);
    LedgerSortFacts(us);
  }

  lemma ValidInsert(ts: seq<Transaction>, t: Transaction)
    requires AllValid(ts) && Valid(t)
    ensures AllValid(Insert(ts, t, LedgerLe))
  {
    hide Valid;
    InsertPermutes(ts, t, LedgerLe);
    var us := Insert(ts, t, LedgerLe);
    forall i | 0 <= i < |us| ensures Valid(us[i]) {
      assert us[i] in us;
    }
  }

  lemma {:induction false} NetInsert(ts: seq<Transaction>, t: Transaction, s: string)
    ensures Net(Insert(ts, t, LedgerLe), s) == Net(ts, s) + Delta(t, s)
  {
    hide LedgerLe, Delta;
    var us := Insert(ts, t, LedgerLe);
    if ts == [] || LedgerLe(ts[|ts| - 1], t) {
      assert us[..|us| - 1] == ts;
    } else {
      NetInsert(ts[..|ts| - 1], t, s);
      assert us[..|us| - 1] == Insert(ts[..|ts| - 1], t, LedgerLe);
    }
  }

  lemma MoreHeldStillAccepted(q: Quantities, more: Quantities, t: Transaction)
    requires ApplyPosition(q, t).Ok? && Held(q, Sym(t)) <= Held(more, Sym(t))
    ensures ApplyPosition(more, t).Ok?
  {}

  /** Inserting a row that sells nothing keeps the replay going. */
  lemma {:induction false} InsertKeepsAccepted(ts: seq<Transaction>, t: Transaction)
    requires AllValid(ts) && Valid(t) && !t.kind.SELL?
    requires PositionsAfter(ts).Ok?
    ensures PositionsAfter(Insert(ts, t, LedgerLe)).Ok?
  {
    hide Validate, LedgerLe, AllValid, ApplyPosition, Held, Net;
    var us := Insert(ts, t, LedgerLe);
    if ts == [] || LedgerLe(ts[|ts| - 1], t) {
      assert us[..|us| - 1] == ts;
      NonSellAccepted(PositionsAfter(ts).value, t);
    } else {
      var init, last := ts[..|ts| - 1], ts[|ts| - 1];
      AllValidPrefix(ts, |ts| - 1);
      InsertKeepsAccepted(init, t);
      ValidInsert(init, t);
      var vs := Insert(init, t, LedgerLe);
      assert us[..|us| - 1] == vs;
      NetInsert(init, t, Sym(last));
      QuantityIsNet(vs, Sym(last));
      QuantityIsNet(init, Sym(last));
      NonSellDelta(t, Sym(last));
      MoreHeldStillAccepted(PositionsAfter(init).value, PositionsAfter(vs).value, last);
    }
  }

  lemma NonSellAccepted(q: Quantities, t: Transaction)
    requires !t.kind.SELL?
    ensures ApplyPosition(q, t).Ok?
  {}

  lemma NonSellDelta(t: Transaction, s: string)
    requires Valid(t) && !t.kind.SELL?
    ensures Delta(t, s) >= 0.0
  {
    hide Validate;
    ValidFields(t);
  }

  /** Adding a valid BUY, DEPOSIT or WITHDRAWAL, at any instant, never breaks an accepted ledger. */
  lemma AddingNonSellAccepted(ts: seq<Transaction>, t: Transaction)
    requires DerivePositions(ts).Ok? && Valid(t) && !t.kind.SELL?
    ensures DerivePositions(ts + [t]).Ok?
  {
    hide LedgerLe, Valid, PositionsAfter, Report;
    LedgerLeIsTotalPreorder();
    SortAppend(ts, t, LedgerLe);
    LedgerSortFacts(ts);
    InsertKeepsAccepted(LedgerSort(ts), t);
    assert AllValid(ts + [t]);
  }
}
