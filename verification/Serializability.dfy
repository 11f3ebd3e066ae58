/**
 * Concurrent `create` requests as a state machine. A request locks its portfolio row, builds and
 * validates its row, looks the external id up, replays the ledger, inserts and commits; it may
 * also fail at any point. Steps of different requests interleave freely. Reads made under the
 * lock see the committed ledger; the commit is atomic and releases the lock, and so does any exit.
 */
module Serializability {
  import opened Wrappers
  import opened Transactions
  import opened Holdings
  import opened Admission

  /** A request with the identifier and clock reading it will draw. */
  datatype Request = Request(owner: nat, portfolio: nat, payload: NewTransaction, drawnId: nat, drawnAt: int)

  /** The requests and the portfolio rows (portfolio id to owner id). */
  datatype Config = Config(requests: seq<Request>, owners: map<nat, nat>)

  datatype Answer = Created(row: Transaction) | Replayed(row: Transaction) | Rejected(error: ServiceError) | Aborted

  datatype Phase =
    | Waiting
    | Locked
    | Built(t: Transaction)
    | Missed(t: Transaction)
    | Checked(t: Transaction)
    | Inserted(t: Transaction)
    | Done(answer: Answer)

  /** Committed ledgers, lock holders, request phases, and the order in which requests were let in. */
  datatype World = World(ledgers: map<nat, seq<Transaction>>, holder: map<nat, nat>, phases: seq<Phase>, order: seq<nat>)

  predicate Active(phase: Phase) {
    !phase.Waiting? && !phase.Done?
  }

  predicate Settled(phase: Phase) {
    phase.Done? && !phase.answer.Aborted?
  }

  function Rows(w: World, p: nat): seq<Transaction> {
    if p in w.ledgers then w.ledgers[p] else []
  }

  predicate Fits(c: Config, w: World) {
    |w.phases| == |c.requests| && w.ledgers.Keys == c.owners.Keys
  }

  predicate Owned(c: Config, i: nat)
    requires i < |c.requests|
  {
    c.requests[i].portfolio in c.owners && c.owners[c.requests[i].portfolio] == c.requests[i].owner
  }

  function Release(holder: map<nat, nat>, p: nat, i: nat): map<nat, nat> {
    if p in holder && holder[p] == i then holder - {p} else holder
  }

  function Finish(c: Config, w: World, i: nat, answer: Answer): World
    requires Fits(c, w) && i < |c.requests|
  {
    w.(phases := w.phases[i := Done(answer)], holder := Release(w.holder, c.requests[i].portfolio, i))
  }

  function Advance(w: World, i: nat, phase: Phase): World
    requires i < |w.phases|
  {
    w.(phases := w.phases[i := phase])
  }

  /** `get_for_update`: waits for the row lock; without a row there is nothing to lock. */
  predicate CanStart(c: Config, w: World, i: nat)
    requires Fits(c, w) && i < |c.requests|
  {
    w.phases[i].Waiting? && c.requests[i].portfolio !in w.holder
  }

  function Start(c: Config, w: World, i: nat): World
    requires Fits(c, w) && i < |c.requests|
  {
    var p := c.requests[i].portfolio;
    if p !in c.owners then Finish(c, w, i, Rejected(PortfolioNotFound)).(order := w.order + [i])
    else World(w.ledgers, w.holder[p := i], w.phases[i := Locked], w.order + [i])
  }

  /** The next step of a request that holds the lock. */
  function Work(c: Config, w: World, i: nat): World
    requires Fits(c, w) && i < |c.requests| && Active(w.phases[i])
  {
    var r := c.requests[i];
    var ledger := Rows(w, r.portfolio);
    match w.phases[i]
    case Locked =>
      if !Owned(c, i) then Finish(c, w, i, Rejected(PortfolioNotFound))
      else
        var built := BuildValid(r.portfolio, r.payload, r.drawnId, r.drawnAt);
        if built.Err? then Finish(c, w, i, Rejected(InvalidTransaction(built.error))) else Advance(w, i, Built(built.value))
    case Built(t) =>
      var existing := Find(ledger, t.externalId);
      if existing.None? then Advance(w, i, Missed(t))
      else if SamePayload(existing.value, t) then Finish(c, w, i, Replayed(existing.value))
      else Finish(c, w, i, Rejected(IdempotencyConflict(t.externalId)))
    case Missed(t) =>
      var positions := DerivePositions(LedgerSort(ledger) + [t]);
      if positions.Err? then Finish(c, w, i, Rejected(InvalidTransaction(positions.error))) else Advance(w, i, Checked(t))
    case Checked(t) =>
      // The unique constraint on (portfolio, external id) rejects a duplicate insert.
      if Find(ledger, t.externalId).Some? then Finish(c, w, i, Aborted) else Advance(w, i, Inserted(t))
    case Inserted(t) =>
      Finish(c, w, i, Created(t)).(ledgers := w.ledgers[r.portfolio := ledger + [t]])
  }

  /** A request may fail before it has committed or answered. */
  function Abort(c: Config, w: World, i: nat): World
    requires Fits(c, w) && i < |c.requests|
  {
    Finish(c, w, i, Aborted)
  }

  ghost predicate Step(c: Config, w: World, w': World, i: nat) {
    && Fits(c, w) && i < |c.requests|
    && ((CanStart(c, w, i) && w' == Start(c, w, i))
        || (Active(w.phases[i]) && w' == Work(c, w, i))
        || (!w.phases[i].Done? && w' == Abort(c, w, i)))
  }

  ghost predicate Next(c: Config, w: World, w': World) {
    exists i :: Step(c, w, w', i)
  }

  ghost predicate Initial(c: Config, w: World) {
    Fits(c, w) && w.holder == map[] && w.order == [] && forall i :: 0 <= i < |w.phases| ==> w.phases[i] == Waiting
  }

  /** Any interleaving: a finite sequence of states related by steps. */
  ghost predicate IsRun(c: Config, run: seq<World>) {
    run != [] && Initial(c, run[0]) && forall k, l :: 0 <= k && k + 1 == l < |run| ==> Next(c, run[k], run[l])
  }

  /** The sequential service: one request served alone on a ledger. */
  function Serve(c: Config, ledger: seq<Transaction>, i: nat): Answer
    requires i < |c.requests|
  {
    var r := c.requests[i];
    if !Owned(c, i) then Rejected(PortfolioNotFound)
    else
      match Admit(ledger, r.portfolio, r.payload, r.drawnId, r.drawnAt)
      case Ok(Creation(t, created)) => if created then Created(t) else Replayed(t)
      case Err(e) => Rejected(e)
  }

  function ServedLedger(c: Config, ledger: seq<Transaction>, i: nat): seq<Transaction>
    requires i < |c.requests|
  {
    var answer := Serve(c, ledger, i);
    if answer.Created? then ledger + [answer.row] else ledger
  }

  predicate Indices(c: Config, served: seq<nat>) {
    forall k :: 0 <= k < |served| ==> served[k] < |c.requests|
  }

  /** The ledger after serving requests one after another. */
  function SerialLedger(c: Config, ledger: seq<Transaction>, served: seq<nat>): seq<Transaction>
    requires Indices(c, served)
  {
    if served == [] then ledger
    else ServedLedger(c, SerialLedger(c, ledger, served[..|served| - 1]), served[|served| - 1])
  }

  /** Portfolio p's answered requests, in the order in which they acquired the lock. */
  function Served(c: Config, phases: seq<Phase>, order: seq<nat>, p: nat): (r: seq<nat>)
    requires |phases| == |c.requests| && Indices(c, order)
    ensures Indices(c, r)
    ensures forall i :: i in r <==> i in order && c.requests[i].portfolio == p && Settled(phases[i])
  {
    if order == [] then []
    else
      var i := order[|order| - 1];
      var earlier := Served(c, phases, order[..|order| - 1], p);
      if c.requests[i].portfolio == p && Settled(phases[i]) then earlier + [i] else earlier
  }

  function LastFor(c: Config, order: seq<nat>, p: nat): Option<nat>
    requires Indices(c, order)
  {
    if order == [] then None
    else if c.requests[order[|order| - 1]].portfolio == p then Some(order[|order| - 1])
    else LastFor(c, order[..|order| - 1], p)
  }

  ghost predicate WellFormed(c: Config, w: World) {
    && Fits(c, w) && Indices(c, w.order)
    && (forall k, l :: 0 <= k < l < |w.order| ==> w.order[k] != w.order[l])
    && (forall i :: i in w.order ==> !w.phases[i].Waiting?)
    && (forall i: nat :: i < |w.phases| && (Active(w.phases[i]) || Settled(w.phases[i])) ==> i in w.order)
    && (forall i: nat :: i < |w.phases| && Active(w.phases[i]) ==>
          c.requests[i].portfolio in w.holder && w.holder[c.requests[i].portfolio] == i)
    && (forall p :: p in w.holder ==>
          && p in c.owners && w.holder[p] < |w.phases| && Active(w.phases[w.holder[p]])
          && c.requests[w.holder[p]].portfolio == p && LastFor(c, w.order, p) == Some(w.holder[p]))
  }

  /** What a request in progress has established about the committed ledger. */
  ghost predicate Established(c: Config, w: World, i: nat)
    requires Fits(c, w) && i < |c.requests|
  {
    var r := c.requests[i];
    var ledger := Rows(w, r.portfolio);
    match w.phases[i]
    case Waiting => true
    case Locked => true
    case Done(_) => true
    case Built(t) => Owned(c, i) && BuildValid(r.portfolio, r.payload, r.drawnId, r.drawnAt) == Ok(t)
    case Missed(t) =>
      && Owned(c, i) && BuildValid(r.portfolio, r.payload, r.drawnId, r.drawnAt) == Ok(t)
      && Find(ledger, t.externalId).None?
    case Checked(t) =>
      && Owned(c, i) && BuildValid(r.portfolio, r.payload, r.drawnId, r.drawnAt) == Ok(t)
      && Find(ledger, t.externalId).None? && DerivePositions(LedgerSort(ledger) + [t]).Ok?
    case Inserted(t) =>
      && Owned(c, i) && BuildValid(r.portfolio, r.payload, r.drawnId, r.drawnAt) == Ok(t)
      && Find(ledger, t.externalId).None? && DerivePositions(LedgerSort(ledger) + [t]).Ok?
  }

  /** Ledger and answers are those of the sequential run over `served`. */
  ghost predicate Explains(c: Config, before: seq<Transaction>, after: seq<Transaction>, phases: seq<Phase>, served: seq<nat>)
    requires |phases| == |c.requests| && Indices(c, served)
  {
    && after == SerialLedger(c, before, served)
    && forall k :: 0 <= k < |served| ==> phases[served[k]] == Done(Serve(c, SerialLedger(c, before, served[..k]), served[k]))
  }

  ghost predicate Invariant(c: Config, first: World, w: World) {
    && WellFormed(c, w)
    && (forall i: nat :: i < |c.requests| ==> Established(c, w, i))
    && (forall p :: Explains(c, Rows(first, p), Rows(w, p), w.phases, Served(c, w.phases, w.order, p)))
  }

  lemma {:induction false} ServedFrame(c: Config, phases: seq<Phase>, phases': seq<Phase>, order: seq<nat>, p: nat)
    requires |phases| == |phases'| == |c.requests| && Indices(c, order)
    requires forall i :: i in order && c.requests[i].portfolio == p ==> (Settled(phases[i]) <==> Settled(phases'[i]))
    ensures Served(c, phases, order, p) == Served(c, phases', order, p)
  {
    if order != [] {
      SplitLastIndex(order);
      ServedFrame(c, phases, phases', order[..|order| - 1], p);
    }
  }

  lemma SplitLastIndex(order: seq<nat>)
    requires order != []
    ensures order[|order| - 1] in order && forall i :: i in order[..|order| - 1] ==> i in order
  {}

  /** The last request let in for p goes to the end of the serial order when it is answered. */
  lemma {:induction false} ServedFinish(c: Config, phases: seq<Phase>, i: nat, answer: Answer, order: seq<nat>)
    requires |phases| == |c.requests| && Indices(c, order) && i < |phases|
    requires forall k, l :: 0 <= k < l < |order| ==> order[k] != order[l]
    requires LastFor(c, order, c.requests[i].portfolio) == Some(i) && !phases[i].Done? && !answer.Aborted?
    ensures Served(c, phases[i := Done(answer)], order, c.requests[i].portfolio)
         == Served(c, phases, order, c.requests[i].portfolio) + [i]
  {
    var p, after := c.requests[i].portfolio, phases[i := Done(answer)];
    var init, j := order[..|order| - 1], order[|order| - 1];
    if j == i {
      forall k | k in init ensures k != i {}
      ServedFrame(c, phases, after, init, p);
    } else {
      ServedFinish(c, phases, i, answer, init);
    }
  }

  lemma {:induction false} LastForOther(c: Config, order: seq<nat>, i: nat, p: nat)
    requires Indices(c, order) && i < |c.requests|
    ensures LastFor(c, order + [i], p) == if c.requests[i].portfolio == p then Some(i) else LastFor(c, order, p)
  {
    assert (order + [i])[..|order|] == order;
  }

  lemma ServedStart(c: Config, phases: seq<Phase>, order: seq<nat>, i: nat, p: nat)
    requires |phases| == |c.requests| && Indices(c, order) && i < |phases|
    ensures Served(c, phases, order + [i], p)
         == if c.requests[i].portfolio == p && Settled(phases[i]) then Served(c, phases, order, p) + [i]
            else Served(c, phases, order, p)
  {
    assert (order + [i])[..|order|] == order;
  }

  /** Changing the phase of an unanswered request does not disturb earlier answers. */
  lemma ExplainsFrame(c: Config, before: seq<Transaction>, after: seq<Transaction>, phases: seq<Phase>, phases': seq<Phase>, served: seq<nat>)
    requires |phases| == |phases'| == |c.requests| && Indices(c, served)
    requires Explains(c, before, after, phases, served)
    requires forall i :: i in served ==> phases'[i] == phases[i]
    ensures Explains(c, before, after, phases', served)
  {
    hide SerialLedger, Serve;
    forall k | 0 <= k < |served| ensures phases'[served[k]] == phases[served[k]] {
      assert served[k] in served;
    }
  }

  lemma ExplainsAppend(c: Config, before: seq<Transaction>, after: seq<Transaction>, phases: seq<Phase>, served: seq<nat>, i: nat)
    requires |phases| == |c.requests| && Indices(c, served) && i < |phases|
    requires Explains(c, before, after, phases, served)
    requires phases[i] == Done(Serve(c, after, i))
    ensures Explains(c, before, ServedLedger(c, after, i), phases, served + [i])
  {
    hide Serve, ServedLedger;
    var more := served + [i];
    assert more[..|served|] == served;
    forall k | 0 <= k < |more| ensures phases[more[k]] == Done(Serve(c, SerialLedger(c, before, more[..k]), more[k])) {
      if k < |served| {
        assert more[..k] == served[..k];
      }
    }
  }

  lemma AdvanceWellFormed(c: Config, w: World, i: nat, phase: Phase)
    requires WellFormed(c, w) && i < |c.requests| && i < |w.phases| && Active(w.phases[i]) && Active(phase)
    ensures WellFormed(c, Advance(w, i, phase))
  {
    hide LastFor;
  }

  /** A step inside the critical section: the serial explanation is untouched. */
  lemma AdvanceKeeps(c: Config, first: World, w: World, i: nat, phase: Phase)
    requires Invariant(c, first, w) && i < |c.requests| && Active(w.phases[i]) && Active(phase)
    requires Established(c, Advance(w, i, phase), i)
    ensures Invariant(c, first, Advance(w, i, phase))
  {
    hide SerialLedger, Serve, LastFor, BuildValid, Find, DerivePositions, WellFormed;
    OrderFacts(c, w);
    var w' := Advance(w, i, phase);
    AdvanceWellFormed(c, w, i, phase);
    forall j: nat | j < |c.requests| ensures Established(c, w', j) {
      assert Established(c, w, j);
    }
    forall p ensures Explains(c, Rows(first, p), Rows(w', p), w'.phases, Served(c, w'.phases, w'.order, p)) {
      assert Explains(c, Rows(first, p), Rows(w, p), w.phases, Served(c, w.phases, w.order, p));
      ServedFrame(c, w.phases, w'.phases, w.order, p);
      ExplainsFrame(c, Rows(first, p), Rows(w, p), w.phases, w'.phases, Served(c, w.phases, w.order, p));
    }
  }

  /** Leaving the critical section keeps the bookkeeping in order. */
  lemma FinishWellFormed(c: Config, w: World, i: nat, answer: Answer)
    requires WellFormed(c, w) && i < |c.requests| && !w.phases[i].Done?
    requires Active(w.phases[i]) || answer.Aborted?
    ensures WellFormed(c, Finish(c, w, i, answer))
  {
    hide LastFor;
  }

  /** A failure, before or inside the critical section, leaves no trace in the serial order. */
  lemma AbortKeeps(c: Config, first: World, w: World, i: nat)
    requires Invariant(c, first, w) && i < |c.requests| && !w.phases[i].Done?
    ensures Invariant(c, first, Abort(c, w, i))
  {
    hide SerialLedger, Serve, LastFor, BuildValid, Find, DerivePositions, WellFormed;
    OrderFacts(c, w);
    var w' := Abort(c, w, i);
    FinishWellFormed(c, w, i, Aborted);
    forall j: nat | j < |c.requests| ensures Established(c, w', j) {
      assert Established(c, w, j);
    }
    forall p ensures Explains(c, Rows(first, p), Rows(w', p), w'.phases, Served(c, w'.phases, w'.order, p)) {
      assert Explains(c, Rows(first, p), Rows(w, p), w.phases, Served(c, w.phases, w.order, p));
      ServedFrame(c, w.phases, w'.phases, w.order, p);
      ExplainsFrame(c, Rows(first, p), Rows(w, p), w.phases, w'.phases, Served(c, w.phases, w.order, p));
    }
  }

  lemma OrderFacts(c: Config, w: World)
    requires WellFormed(c, w)
    ensures Fits(c, w) && Indices(c, w.order)
    ensures forall k, l :: 0 <= k < l < |w.order| ==> w.order[k] != w.order[l]
  {}

  lemma HolderFacts(c: Config, w: World, i: nat)
    requires WellFormed(c, w) && i < |c.requests| && i < |w.phases| && Active(w.phases[i])
    ensures Fits(c, w) && Indices(c, w.order)
    ensures c.requests[i].portfolio in c.owners && LastFor(c, w.order, c.requests[i].portfolio) == Some(i)
    ensures forall j: nat :: (j < |w.phases| && j != i && Active(w.phases[j])) ==> c.requests[j].portfolio != c.requests[i].portfolio
  {
    hide LastFor;
    assert w.holder[c.requests[i].portfolio] == i;
  }

  /** An answer given under the lock is the sequential answer, and the ledger moves as the sequential one. */
  lemma FinishKeeps(c: Config, first: World, w: World, i: nat, answer: Answer)
    requires Invariant(c, first, w) && i < |c.requests| && Active(w.phases[i]) && !answer.Aborted?
    requires answer == Serve(c, Rows(w, c.requests[i].portfolio), i)
    ensures var p := c.requests[i].portfolio;
            Invariant(c, first, Finish(c, w, i, answer).(ledgers := w.ledgers[p := ServedLedger(c, Rows(w, p), i)]))
  {
    hide SerialLedger, Serve, ServedLedger, LastFor, BuildValid, Find, DerivePositions, WellFormed, Explains;
    OrderFacts(c, w);
    HolderFacts(c, w, i);
    var q := c.requests[i].portfolio;
    var w' := Finish(c, w, i, answer).(ledgers := w.ledgers[q := ServedLedger(c, Rows(w, q), i)]);
    FinishWellFormed(c, w, i, answer);
    WellFormedLedgers(c, Finish(c, w, i, answer), w'.ledgers);
    forall j: nat | j < |c.requests| ensures Established(c, w', j) {
      assert Established(c, w, j);
      if j != i && Active(w.phases[j]) {
        assert c.requests[j].portfolio != q;
        assert Rows(w', c.requests[j].portfolio) == Rows(w, c.requests[j].portfolio);
      }
    }
    forall p ensures Explains(c, Rows(first, p), Rows(w', p), w'.phases, Served(c, w'.phases, w'.order, p)) {
      var served := Served(c, w.phases, w.order, p);
      assert Explains(c, Rows(first, p), Rows(w, p), w.phases, served);
      ExplainsFrame(c, Rows(first, p), Rows(w, p), w.phases, w'.phases, served);
      if p == q {
        ServedFinish(c, w.phases, i, answer, w.order);
        ExplainsAppend(c, Rows(first, p), Rows(w, p), w'.phases, served, i);
      } else {
        ServedFrame(c, w.phases, w'.phases, w.order, p);
      }
    }
  }

  lemma WellFormedLedgers(c: Config, w: World, ledgers: map<nat, seq<Transaction>>)
    requires WellFormed(c, w) && ledgers.Keys == w.ledgers.Keys
    ensures WellFormed(c, w.(ledgers := ledgers))
  {
    hide LastFor;
  }

  /** Letting a request in. */
  lemma StartKeeps(c: Config, first: World, w: World, i: nat)
    requires Invariant(c, first, w) && Fits(c, first) && i < |c.requests| && CanStart(c, w, i)
    ensures Invariant(c, first, Start(c, w, i))
  {
    hide SerialLedger, ServedLedger, BuildValid, Find, DerivePositions, WellFormed, Explains, Admit, Served;
    OrderFacts(c, w);
    var w' := Start(c, w, i);
    StartWellFormed(c, w, i);
    assert i !in w.order by { WaitingNotIn(c, w, i); }
    forall j: nat | j < |c.requests| ensures Established(c, w', j) {
      assert Established(c, w, j);
    }
    forall p ensures Explains(c, Rows(first, p), Rows(w', p), w'.phases, Served(c, w'.phases, w'.order, p)) {
      var served := Served(c, w.phases, w.order, p);
      assert Explains(c, Rows(first, p), Rows(w, p), w.phases, served);
      ServedFrame(c, w.phases, w'.phases, w.order, p);
      ServedStart(c, w'.phases, w.order, i, p);
      ExplainsFrame(c, Rows(first, p), Rows(w, p), w.phases, w'.phases, served);
      if c.requests[i].portfolio == p && p !in c.owners {
        ExplainsAppend(c, Rows(first, p), Rows(w, p), w'.phases, served, i);
        NotFoundKeepsLedger(c, Rows(w, p), i);
      }
    }
  }

  lemma NotFoundKeepsLedger(c: Config, ledger: seq<Transaction>, i: nat)
    requires i < |c.requests| && !Owned(c, i)
    ensures ServedLedger(c, ledger, i) == ledger
  {}

  lemma WaitingNotIn(c: Config, w: World, i: nat)
    requires WellFormed(c, w) && i < |c.requests| && w.phases[i].Waiting?
    ensures i !in w.order
  {}

  lemma StartWellFormed(c: Config, w: World, i: nat)
    requires WellFormed(c, w) && i < |c.requests| && CanStart(c, w, i)
    ensures WellFormed(c, Start(c, w, i))
  {
    hide LastFor, WellFormed;
    if c.requests[i].portfolio in c.owners {
      LockWellFormed(c, w, i);
    } else {
      UnknownWellFormed(c, w, i);
    }
  }

  lemma LockWellFormed(c: Config, w: World, i: nat)
    requires WellFormed(c, w) && i < |c.requests| && CanStart(c, w, i) && c.requests[i].portfolio in c.owners
    ensures WellFormed(c, Start(c, w, i))
  {
    hide LastFor;
    forall p {
      LastForOther(c, w.order, i, p);
    }
  }

  lemma UnknownWellFormed(c: Config, w: World, i: nat)
    requires WellFormed(c, w) && i < |c.requests| && CanStart(c, w, i) && c.requests[i].portfolio !in c.owners
    ensures WellFormed(c, Start(c, w, i))
  {
    hide LastFor;
    forall p {
      LastForOther(c, w.order, i, p);
    }
  }

  /** Working under the lock. */
  lemma WorkKeeps(c: Config, first: World, w: World, i: nat)
    requires Invariant(c, first, w) && i < |c.requests| && Active(w.phases[i])
    ensures Invariant(c, first, Work(c, w, i))
  {
    hide Invariant, BuildValid, Find, DerivePositions, LedgerSort, SamePayload;
    assert Established(c, w, i) && Fits(c, w) && c.requests[i].portfolio in c.owners by { Unpack(c, first, w, i); }
    var p := c.requests[i].portfolio;
    var w' := Work(c, w, i);
    if Active(w'.phases[i]) {
      assert w' == Advance(w, i, w'.phases[i]);
      AdvanceKeeps(c, first, w, i, w'.phases[i]);
    } else if w'.phases[i].answer.Aborted? {
      AbortKeeps(c, first, w, i);
    } else {
      var answer := w'.phases[i].answer;
      assert answer == Serve(c, Rows(w, p), i);
      FinishKeeps(c, first, w, i, answer);
      assert w'.ledgers == w.ledgers[p := ServedLedger(c, Rows(w, p), i)];
    }
  }

  lemma Unpack(c: Config, first: World, w: World, i: nat)
    requires Invariant(c, first, w) && i < |c.requests| && Active(w.phases[i])
    ensures Established(c, w, i) && Fits(c, w) && c.requests[i].portfolio in c.owners
  {
    hide Explains, Served, LastFor;
  }

  lemma InitialInvariant(c: Config, w: World)
    requires Initial(c, w)
    ensures Invariant(c, w, w)
  {}

  lemma StepKeeps(c: Config, first: World, w: World, w': World, i: nat)
    requires Fits(c, first) && Invariant(c, first, w) && Step(c, w, w', i)
    ensures Invariant(c, first, w')
  {
    hide Invariant, Start, Work, Abort, CanStart;
    if CanStart(c, w, i) && w' == Start(c, w, i) {
      StartKeeps(c, first, w, i);
    } else if Active(w.phases[i]) && w' == Work(c, w, i) {
      WorkKeeps(c, first, w, i);
    } else {
      AbortKeeps(c, first, w, i);
    }
  }

  lemma {:induction false} RunInvariant(c: Config, run: seq<World>, k: nat)
    requires IsRun(c, run) && k < |run|
    ensures Invariant(c, run[0], run[k])
  {
    hide Invariant, Step;
    if k == 0 {
      InitialInvariant(c, run[0]);
    } else {
      RunInvariant(c, run, k - 1);
      assert Next(c, run[k - 1], run[k]);
      var i :| Step(c, run[k - 1], run[k], i);
      StepKeeps(c, run[0], run[k - 1], run[k], i);
    }
  }

  /**
   * Serializability: in every state of every interleaving, each portfolio's committed ledger and
   * the answers given so far are exactly those of serving its answered requests one at a time,
   * in the order in which they acquired the row lock.
   */
  lemma Serializable(c: Config, run: seq<World>, k: nat, p: nat)
    requires IsRun(c, run) && k < |run|
    ensures Fits(c, run[k]) && Indices(c, run[k].order)
    ensures Explains(c, Rows(run[0], p), Rows(run[k], p), run[k].phases, Served(c, run[k].phases, run[k].order, p))
    ensures forall i: nat :: i < |c.requests| && Settled(run[k].phases[i]) && c.requests[i].portfolio == p
              ==> i in Served(c, run[k].phases, run[k].order, p)
  {
    hide Explains, Served, LastFor;
    RunInvariant(c, run, k);
  }

  lemma {:induction false} SerialKeepsGood(c: Config, ledger: seq<Transaction>, served: seq<nat>, p: nat)
    requires Indices(c, served) && GoodLedger(ledger, p)
    requires forall i :: i in served ==> c.requests[i].portfolio == p
    ensures GoodLedger(SerialLedger(c, ledger, served), p) && ledger <= SerialLedger(c, ledger, served)
  {
    hide GoodLedger, Admit;
    if served != [] {
      var init, i := served[..|served| - 1], served[|served| - 1];
      SplitLastIndex(served);
      SerialKeepsGood(c, ledger, init, p);
      var r := c.requests[i];
      AdmitKeepsGood(SerialLedger(c, ledger, init), p, r.payload, r.drawnId, r.drawnAt);
    }
  }

  /**
   * Safety in every reachable state: from a good ledger, every portfolio keeps valid rows with
   * unique external ids that never oversell, and the ledger only grows.
   */
  lemma ReachableLedgersGood(c: Config, run: seq<World>, k: nat, p: nat)
    requires IsRun(c, run) && k < |run| && GoodLedger(Rows(run[0], p), p)
    ensures GoodLedger(Rows(run[k], p), p) && Rows(run[0], p) <= Rows(run[k], p)
  {
    hide GoodLedger, SerialLedger, Serve, IsRun;
    Serializable(c, run, k, p);
    SerialKeepsGood(c, Rows(run[0], p), Served(c, run[k].phases, run[k].order, p), p);
  }

  /** What the service answers to request i over a ledger with unique external ids. */
  ghost predicate AnswersOver(c: Config, ledger: seq<Transaction>, i: nat, answer: Answer)
    requires i < |c.requests|
  {
    var r := c.requests[i];
    if r.portfolio !in c.owners || c.owners[r.portfolio] != r.owner then answer == Rejected(PortfolioNotFound)
    else
      var built := BuildValid(r.portfolio, r.payload, r.drawnId, r.drawnAt);
      && (built.Err? ==> answer == Rejected(InvalidTransaction(built.error)))
      && (forall t, stored :: built == Ok(t) && stored in ledger && stored.externalId == t.externalId ==>
            answer == if Payload(stored) == Payload(t) then Replayed(stored) else Rejected(IdempotencyConflict(t.externalId)))
      && (forall t :: built == Ok(t) && (forall stored :: stored in ledger ==> stored.externalId != t.externalId) ==>
            && (Acceptable(ledger, t) ==> answer == Created(t))
            && (!Acceptable(ledger, t) ==> answer.Rejected? && answer.error.InvalidTransaction?))
  }

  lemma ServeAnswers(c: Config, ledger: seq<Transaction>, i: nat)
    requires i < |c.requests| && UniqueExternalIds(ledger)
    ensures AnswersOver(c, ledger, i, Serve(c, ledger, i))
  {
    hide BuildValid, Admit, Acceptable, Payload, UniqueExternalIds;
    var r := c.requests[i];
    AdmitAnswers(ledger, r.portfolio, r.payload, r.drawnId, r.drawnAt);
  }

  lemma {:induction false} SerialPrefix(c: Config, ledger: seq<Transaction>, served: seq<nat>, n: nat)
    requires Indices(c, served) && n <= |served|
    ensures Indices(c, served[..n]) && SerialLedger(c, ledger, served[..n]) <= SerialLedger(c, ledger, served)
  {
    hide Serve;
    if n < |served| {
      var init := served[..|served| - 1];
      assert init[..n] == served[..n];
      SerialPrefix(c, ledger, init, n);
    } else {
      assert served[..n] == served;
    }
  }

  /** The ledger a request met, between the first and the present one; a created row follows it. */
  ghost predicate MetBy(first: seq<Transaction>, before: seq<Transaction>, now: seq<Transaction>, answer: Answer) {
    && first <= before <= now
    && (answer.Created? ==> before + [answer.row] <= now)
  }

  lemma ServedMeets(c: Config, first: seq<Transaction>, served: seq<nat>, k: nat, p: nat) returns (before: seq<Transaction>)
    requires Indices(c, served) && k < |served| && GoodLedger(first, p)
    requires forall i :: i in served ==> c.requests[i].portfolio == p
    ensures Indices(c, served[..k]) && before == SerialLedger(c, first, served[..k])
    ensures GoodLedger(before, p) && MetBy(first, before, SerialLedger(c, first, served), Serve(c, before, served[k]))
  {
    hide Serve, GoodLedger;
    before := SerialLedger(c, first, served[..k]);
    SerialKeepsGood(c, first, served[..k], p);
    assert served[..k + 1][..k] == served[..k];
    SerialPrefix(c, first, served, k);
    SerialPrefix(c, first, served, k + 1);
  }

  /**
   * Every answer given in a reachable state is the right one for a good ledger that the request
   * met: what was stored at first, then more, and all of it still there now. A created row comes
   * next after it. So the owner is always checked, a known external id is never created again and
   * nobody is told of a conflict or an oversold position that was not there.
   */
  lemma AnswersAreRight(c: Config, run: seq<World>, k: nat, i: nat) returns (before: seq<Transaction>)
    requires IsRun(c, run) && k < |run| && i < |c.requests| && |run[k].phases| == |c.requests|
    requires Settled(run[k].phases[i])
    requires GoodLedger(Rows(run[0], c.requests[i].portfolio), c.requests[i].portfolio)
    ensures GoodLedger(before, c.requests[i].portfolio)
    ensures AnswersOver(c, before, i, run[k].phases[i].answer)
    ensures MetBy(Rows(run[0], c.requests[i].portfolio), before, Rows(run[k], c.requests[i].portfolio), run[k].phases[i].answer)
  {
    hide IsRun, Serve, AnswersOver, MetBy, SerialLedger, DerivePositions;
    var p := c.requests[i].portfolio;
    Serializable(c, run, k, p);
    var served := Served(c, run[k].phases, run[k].order, p);
    var n :| 0 <= n < |served| && served[n] == i;
    before := ServedMeets(c, Rows(run[0], p), served, n, p);
    ServeAnswers(c, before, i);
  }

  /** The unique constraint never fires: the check under the lock still holds at the insert. */
  lemma UniqueConstraintNeverFires(c: Config, run: seq<World>, k: nat, i: nat)
    requires IsRun(c, run) && k < |run| && i < |c.requests| && |run[k].phases| == |c.requests|
    requires run[k].phases[i].Checked?
    ensures Find(Rows(run[k], c.requests[i].portfolio), run[k].phases[i].t.externalId).None?
  {
    hide DerivePositions, LedgerSort, BuildValid;
    hide Invariant, IsRun;
    RunInvariant(c, run, k);
    Unpack(c, run[0], run[k], i);
  }

  /** Mutual exclusion: two requests inside the critical section belong to different portfolios. */
  lemma MutualExclusion(c: Config, run: seq<World>, k: nat, i: nat, j: nat)
    requires IsRun(c, run) && k < |run| && i < |c.requests| && j < |c.requests| && i != j && |run[k].phases| == |c.requests|
    requires Active(run[k].phases[i]) && Active(run[k].phases[j])
    ensures c.requests[i].portfolio != c.requests[j].portfolio
  {
    hide Explains, Served, Established, IsRun;
    RunInvariant(c, run, k);
    HolderFacts(c, run[k], i);
  }

  lemma StepGrows(c: Config, w: World, w': World, i: nat, p: nat)
    requires Step(c, w, w', i)
    ensures Rows(w, p) <= Rows(w', p)
  {
    hide BuildValid, Find, DerivePositions, LedgerSort;
  }

  /** Committed rows are never changed or lost between any two states of a run. */
  lemma {:induction false} LedgersGrow(c: Config, run: seq<World>, k: nat, l: nat, p: nat)
    requires IsRun(c, run) && k <= l < |run|
    ensures Rows(run[k], p) <= Rows(run[l], p)
    decreases l - k
  {
    hide Step;
    if k < l {
      LedgersGrow(c, run, k, l - 1, p);
      assert Next(c, run[l - 1], run[l]);
      var i :| Step(c, run[l - 1], run[l], i);
      StepGrows(c, run[l - 1], run[l], i, p);
    }
  }

  /** Steps a request has at most left. */
  function StepsLeft(phase: Phase): nat {
    match phase
    case Waiting => 6
    case Locked => 5
    case Built(_) => 4
    case Missed(_) => 3
    case Checked(_) => 2
    case Inserted(_) => 1
    case Done(_) => 0
  }

  function AllStepsLeft(phases: seq<Phase>): nat {
    if phases == [] then 0 else AllStepsLeft(phases[..|phases| - 1]) + StepsLeft(phases[|phases| - 1])
  }

  lemma {:induction false} StepsLeftUpdate(phases: seq<Phase>, i: nat, phase: Phase)
    requires i < |phases|
    ensures AllStepsLeft(phases[i := phase]) == AllStepsLeft(phases) - StepsLeft(phases[i]) + StepsLeft(phase)
  {
    var n := |phases| - 1;
    if i < n {
      StepsLeftUpdate(phases[..n], i, phase);
      assert phases[i := phase][..n] == phases[..n][i := phase];
    } else {
      assert phases[i := phase][..n] == phases[..n];
    }
  }

  lemma {:induction false} StepsLeftBound(phases: seq<Phase>)
    ensures AllStepsLeft(phases) <= 6 * |phases|
  {
    if phases != [] {
      StepsLeftBound(phases[..|phases| - 1]);
    }
  }

  lemma StartMoves(c: Config, w: World, i: nat)
    requires Fits(c, w) && i < |c.requests| && CanStart(c, w, i)
    ensures var w' := Start(c, w, i);
            && |w'.phases| == |w.phases| && w'.phases == w.phases[i := w'.phases[i]]
            && StepsLeft(w'.phases[i]) < StepsLeft(w.phases[i])
  {}

  /** The lock holder's next phase, and when it would abort by itself. */
  lemma WorkMoves(c: Config, w: World, i: nat)
    requires Fits(c, w) && i < |c.requests| && Active(w.phases[i])
    ensures var w' := Work(c, w, i);
            && |w'.phases| == |w.phases| && w'.phases == w.phases[i := w'.phases[i]]
            && StepsLeft(w'.phases[i]) < StepsLeft(w.phases[i])
            && (w'.phases[i] == Done(Aborted) ==>
                 w.phases[i].Checked? && Find(Rows(w, c.requests[i].portfolio), w.phases[i].t.externalId).Some?)
  {
    hide BuildValid, Find, DerivePositions, SamePayload, LedgerSort, Release, Rows, Owned;
  }

  lemma StepMovesOne(c: Config, w: World, w': World, i: nat)
    requires Step(c, w, w', i)
    ensures i < |w.phases| && |w'.phases| == |w.phases| && w'.phases == w.phases[i := w'.phases[i]]
    ensures StepsLeft(w'.phases[i]) < StepsLeft(w.phases[i])
  {
    hide Work, Start;
    if Active(w.phases[i]) {
      WorkMoves(c, w, i);
    }
    if CanStart(c, w, i) {
      StartMoves(c, w, i);
    }
  }

  /** No request goes on forever: a run of n requests has at most 6 n steps. */
  lemma {:induction false} RunsEnd(c: Config, run: seq<World>, k: nat)
    requires IsRun(c, run) && k < |run|
    ensures |run[0].phases| == |c.requests|
    ensures k + AllStepsLeft(run[k].phases) <= AllStepsLeft(run[0].phases) <= 6 * |c.requests|
  {
    hide Step;
    RunInvariant(c, run, 0);
    StepsLeftBound(run[0].phases);
    if k > 0 {
      RunsEnd(c, run, k - 1);
      assert Next(c, run[k - 1], run[k]);
      var i: nat :| Step(c, run[k - 1], run[k], i);
      StepMovesOne(c, run[k - 1], run[k], i);
      StepsLeftUpdate(run[k - 1].phases, i, run[k].phases[i]);
    }
  }

  /** No deadlock: while a request is unanswered, some request can start or go on. */
  lemma NoDeadlock(c: Config, run: seq<World>, k: nat, i: nat) returns (j: nat)
    requires IsRun(c, run) && k < |run| && i < |c.requests| && |run[k].phases| == |c.requests| && !run[k].phases[i].Done?
    ensures Fits(c, run[k]) && j < |c.requests| && (CanStart(c, run[k], j) || Active(run[k].phases[j]))
  {
    RunInvariant(c, run, k);
    hide LastFor, Explains, Served, Established;
    var w := run[k];
    var p := c.requests[i].portfolio;
    j := if w.phases[i].Waiting? && p in w.holder then w.holder[p] else i;
  }

  /**
   * A request under the lock goes on without failing by itself: its step leaves it with fewer to
   * go and never aborts it, so it ends with the answer of the sequential service unless something
   * else fails.
   */
  lemma WorkNeverAborts(c: Config, run: seq<World>, k: nat, i: nat)
    requires IsRun(c, run) && k < |run| && i < |c.requests| && |run[k].phases| == |c.requests| && Active(run[k].phases[i])
    ensures Fits(c, run[k])
    ensures var w' := Work(c, run[k], i);
            && i < |w'.phases| && w'.phases[i] != Done(Aborted)
            && StepsLeft(w'.phases[i]) < StepsLeft(run[k].phases[i])
  {
    hide Work, Find, Invariant, IsRun;
    RunInvariant(c, run, k);
    Unpack(c, run[0], run[k], i);
    WorkMoves(c, run[k], i);
    if run[k].phases[i].Checked? {
      UniqueConstraintNeverFires(c, run, k, i);
    }
  }
}
