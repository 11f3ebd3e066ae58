/** The in-memory store, its transaction repository and `TransactionService.create`. */
module Store {
  import opened Wrappers
  import opened Sorting
  import opened Transactions
  import opened Holdings
  import opened Admission

  class InMemoryStore {
    /** Portfolio id to owner id. */
    var portfolios: map<nat, nat>
    var transactions: seq<Transaction>

    constructor ()
      ensures portfolios == map[] && transactions == []
    {
      portfolios := map[];
      transactions := [];
    }
  }

  class InMemoryTransactionRepository {
    const store: InMemoryStore

    constructor (store: InMemoryStore)
      ensures this.store == store
    {
      this.store := store;
    }

    method Add(t: Transaction)
      modifies store`transactions
      ensures store.transactions == old(store.transactions) + [t]
    {
      store.transactions := store.transactions + [t];
    }

    /** The first matching row in insertion order. */
    method GetByExternalId(portfolioId: nat, externalId: string) returns (r: Option<Transaction>)
      ensures r == Find(RowsOf(store.transactions, portfolioId), externalId)
    {
      hide Find, RowsOf;
      var rows := store.transactions;
      FindNothing(rows[..0], portfolioId, externalId);
      for i := 0 to |store.transactions|
        invariant Find(RowsOf(rows[..i], portfolioId), externalId).None?
      {
        var t := rows[i];
        FindStep(rows, i, portfolioId, externalId);
        if t.portfolioId == portfolioId && t.externalId == externalId {
          return Some(t);
        }
      }
      assert rows[..|rows|] == rows;
      return None;
    }

    /** The portfolio's own rows, none lost or invented, in ledger order; ties stay in insertion order. */
    method ListForPortfolio(portfolioId: nat) returns (r: seq<Transaction>)
      ensures InLedgerOrder(r)
      ensures forall t: Transaction :: multiset(r)[t] == if t.portfolioId == portfolioId then multiset(store.transactions)[t] else 0
      ensures r == LedgerSort(RowsOf(store.transactions, portfolioId))
    {
      hide RowsOf, LedgerSort, LedgerLe;
      var stored := store.transactions;
      var rows := [];
      RowsOfNone(stored[..0], portfolioId);
      for i := 0 to |stored|
        invariant rows == RowsOf(stored[..i], portfolioId)
        invariant forall t: Transaction :: multiset(rows)[t] == if t.portfolioId == portfolioId then multiset(stored[..i])[t] else 0
      {
        RowsOfStep(stored, i, portfolioId);
        assert stored[..i + 1] == stored[..i] + [stored[i]];
        if stored[i].portfolioId == portfolioId {
          rows := rows + [stored[i]];
        }
      }
      assert stored[..|stored|] == stored;
      LedgerSortFacts(rows);
      r := LedgerSort(rows);
    }
  }

  lemma RowsOfNone(rows: seq<Transaction>, portfolioId: nat)
    requires rows == []
    ensures RowsOf(rows, portfolioId) == []
  {}

  lemma FindNothing(rows: seq<Transaction>, portfolioId: nat, externalId: string)
    requires rows == []
    ensures Find(RowsOf(rows, portfolioId), externalId).None?
  {}

  lemma RowsOfStep(rows: seq<Transaction>, i: nat, portfolioId: nat)
    requires i < |rows|
    ensures RowsOf(rows[..i + 1], portfolioId)
         == RowsOf(rows[..i], portfolioId) + (if rows[i].portfolioId == portfolioId then [rows[i]] else [])
    ensures RowsOf(rows, portfolioId) == RowsOf(rows[..i + 1], portfolioId) + RowsOf(rows[i + 1..], portfolioId)
  {
    hide RowsOf;
    assert rows[..i + 1] == rows[..i] + [rows[i]];
    RowsOfAppend(rows[..i], [rows[i]], portfolioId);
    RowsOfOne(rows[i], portfolioId);
    assert rows == rows[..i + 1] + rows[i + 1..];
    RowsOfAppend(rows[..i + 1], rows[i + 1..], portfolioId);
  }

  lemma FindStep(rows: seq<Transaction>, i: nat, portfolioId: nat, externalId: string)
    requires i < |rows| && Find(RowsOf(rows[..i], portfolioId), externalId).None?
    ensures var hit := rows[i].portfolioId == portfolioId && rows[i].externalId == externalId;
            && (hit ==> Find(RowsOf(rows, portfolioId), externalId) == Some(rows[i]))
            && (!hit ==> Find(RowsOf(rows[..i + 1], portfolioId), externalId).None?)
  {
    hide Find, RowsOf;
    var t := rows[i];
    RowsOfStep(rows, i, portfolioId);
    if t.portfolioId == portfolioId && t.externalId == externalId {
      FindNew(RowsOf(rows[..i], portfolioId), t);
      FindAppend(RowsOf(rows[..i + 1], portfolioId), RowsOf(rows[i + 1..], portfolioId), externalId);
    }
  }

  lemma RowsOfOne(t: Transaction, portfolioId: nat)
    ensures RowsOf([t], portfolioId) == if t.portfolioId == portfolioId then [t] else []
  {
    assert [] + [t] == [t];
    FilterAppend([], t, (x: Transaction) => OfPortfolio(x, portfolioId));
  }

  lemma {:induction false} RowsOfAppend(a: seq<Transaction>, b: seq<Transaction>, portfolioId: nat)
    ensures RowsOf(a + b, portfolioId) == RowsOf(a, portfolioId) + RowsOf(b, portfolioId)
  {
    if b == [] {
      assert a + b == a;
    } else {
      var init, t := b[..|b| - 1], b[|b| - 1];
      assert (a + b)[..|a + b| - 1] == a + init;
      RowsOfAppend(a, init, portfolioId);
    }
  }

  /** The answer of `create` on a store. */
  ghost function CreateAnswer(portfolios: map<nat, nat>, transactions: seq<Transaction>, owner: nat, portfolioId: nat,
                              n: NewTransaction, id: nat, now: int): Result<Creation, ServiceError>
  {
    if portfolioId !in portfolios || portfolios[portfolioId] != owner then Err(PortfolioNotFound)
    else Admit(RowsOf(transactions, portfolioId), portfolioId, n, id, now)
  }

  class TransactionService {
    const store: InMemoryStore

    constructor (store: InMemoryStore)
      ensures this.store == store
    {
      this.store := store;
    }

    /** `id` and `now` are the values drawn from the id factory and the clock. */
    method Create(owner: nat, portfolioId: nat, n: NewTransaction, id: nat, now: int)
      returns (r: Result<Creation, ServiceError>)
      modifies store`transactions
      ensures r == CreateAnswer(store.portfolios, old(store.transactions), owner, portfolioId, n, id, now)
      ensures r == Err(PortfolioNotFound) <==> portfolioId !in store.portfolios || store.portfolios[portfolioId] != owner
      ensures r.Ok? && r.value.created ==> Carries(r.value.transaction, portfolioId, n, id, now) && Valid(r.value.transaction)
      ensures store.transactions
           == if r.Ok? && r.value.created then old(store.transactions) + [r.value.transaction] else old(store.transactions)
    {
      hide BuildTransaction, Validate, Find, DerivePositions, LedgerSort, RowsOf;
      var repository := new InMemoryTransactionRepository(store);
      if portfolioId !in store.portfolios || store.portfolios[portfolioId] != owner {
        return Err(PortfolioNotFound);
      }
      var built := BuildTransaction(portfolioId, n, id, now);
      if built.Err? {
        return Err(InvalidTransaction(built.error));
      }
      var t := built.value;
      BuildsIff(portfolioId, n, id, now);
      var invalid := Validate(t);
      if invalid.Some? {
        return Err(InvalidTransaction(invalid.value));
      }
      var existing := repository.GetByExternalId(portfolioId, t.externalId);
      if existing.Some? {
        if SamePayload(existing.value, t) {
          return Ok(Creation(existing.value, false));
        }
        return Err(IdempotencyConflict(t.externalId));
      }
      var ledger := repository.ListForPortfolio(portfolioId);
      var positions := DerivePositionsLoop(ledger + [t]);
      if positions.Err? {
        return Err(InvalidTransaction(positions.error));
      }
      repository.Add(t);
      return Ok(Creation(t, true));
    }
  }

  /** A create changes the rows of its own portfolio as `Committed` says, and no other portfolio's rows. */
  lemma CreateIsLocal(portfolios: map<nat, nat>, transactions: seq<Transaction>, owner: nat, portfolioId: nat,
                      n: NewTransaction, id: nat, now: int, other: nat)
    ensures var r := CreateAnswer(portfolios, transactions, owner, portfolioId, n, id, now);
            var after := if r.Ok? && r.value.created then transactions + [r.value.transaction] else transactions;
            && RowsOf(after, portfolioId) == Committed(RowsOf(transactions, portfolioId), r)
            && (other != portfolioId ==> RowsOf(after, other) == RowsOf(transactions, other))
  {
    hide BuildValid, Find, DerivePositions, LedgerSort, RowsOf;
    var r := CreateAnswer(portfolios, transactions, owner, portfolioId, n, id, now);
    if r.Ok? && r.value.created {
      var t := r.value.transaction;
      BuildDraws(portfolioId, n, id, now, id, now);
      RowsOfAppend(transactions, [t], portfolioId);
      RowsOfAppend(transactions, [t], other);
      RowsOfOne(t, portfolioId);
      RowsOfOne(t, other);
    }
  }
}
