/** `CachedMarketDataProvider.get_price_bars` as one worker executes it, and its place in the cache state machine. */
module CachedProvider {
  import opened Wrappers
  import opened Text
  import opened CacheCodec
  import opened Retry
  import opened CacheProtocol

  /** The shared store; every operation happens at its current time. */
  class TtlStore {
    var entries: map<string, Entry>
    var now: int

    constructor ()
      ensures entries == map[] && now == 0
    {
      entries, now := map[], 0;
    }

    method Wait(seconds: nat)
      modifies this`now
      ensures now == old(now) + seconds
    {
      now := now + seconds;
    }

    method Get(name: string) returns (r: Option<Entry>)
      ensures r == Read(entries, now, name)
    {
      if name in entries && now < entries[name].expires {
        return Some(entries[name]);
      }
      return None;
    }

    /** `source` names the provider answer being stored, `chosen` the instant its lifetime was chosen. */
    method Set(name: string, payload: Payload, ttl: nat, source: nat, chosen: int, result: WriteResult)
      modifies this`entries
      ensures entries == if result.FailedUnstored? then old(entries)
                         else old(entries)[name := Entry(payload, now + ttl, source, now, ttl, chosen)]
    {
      if !result.FailedUnstored? {
        entries := entries[name := Entry(payload, now + ttl, source, now, ttl, chosen)];
      }
    }
  }

  /** What the environment decides during one call: failures, replies and the waits between the steps. */
  datatype Choices = Choices(
    readFails: bool,
    script: seq<Reply<seq<Bar>>>,
    staleReadFails: bool,
    freshWrite: WriteResult,
    shadowWrite: WriteResult,
    askAfter: nat,
    thenAfter: nat,
    writeAfter: nat,
    shadowAfter: nat)

  function After(w: World, seconds: nat): World {
    w.(now := w.now + seconds)
  }

  ghost predicate GoodChoices(c: Config, ch: Choices, q: Query) {
    GoodScript(c, ch.script, q) && ch.script != []
  }

  /** A call in progress with a printable query and, when it is about to write, a printable answer. */
  ghost predicate InProgress(w: World, id: nat) {
    && id in w.calls && IsQuery(w.calls[id].query)
    && (w.calls[id].phase.Writing? ==>
          && w.calls[id].phase.source < |w.log| && Writable(w.log[w.calls[id].phase.source])
          && w.log[w.calls[id].phase.source].at <= w.now)
  }

  /** The two writes of an answered call; the clock is read before the first. */
  ghost function Written(c: Config, w: World, id: nat, ch: Choices): World
    requires InProgress(w, id) && w.calls[id].phase.Writing?
  {
    var source := w.calls[id].phase.source;
    var first := WriteFresh(c, After(w, ch.thenAfter + ch.writeAfter), id, source, w.now + ch.thenAfter, ch.freshWrite);
    if ch.freshWrite.Stored? then WriteShadow(c, After(first, ch.shadowAfter), id, source, ch.shadowWrite) else first
  }

  /** What follows the provider's reply. */
  ghost function Concluded(c: Config, w: World, id: nat, ch: Choices): World
    requires InProgress(w, id)
  {
    match w.calls[id].phase
    case Falling => FallBack(c, After(w, ch.thenAfter), id, ch.staleReadFails)
    case Writing(_) => Written(c, w, id, ch)
    case _ => w
  }

  ghost function Asked(w: World, id: nat, ch: Choices): World
    requires InProgress(w, id) && w.calls[id].phase.Asking? && ch.script != []
  {
    Ask(After(w, ch.askAfter), id, w.calls[id].phase.cacheAvailable, ch.script)
  }

  lemma AskedInProgress(c: Config, w: World, id: nat, ch: Choices)
    requires InProgress(w, id) && w.calls[id].phase.Asking? && GoodChoices(c, ch, w.calls[id].query)
    ensures InProgress(Asked(w, id, ch), id)
    ensures var phase := Asked(w, id, ch).calls[id].phase;
            phase.Answered? || phase.Falling? || phase.Writing?
    ensures Asked(w, id, ch).calls[id].query == w.calls[id].query
  {
    hide Calls;
    AnswerDays(c, ch, w.calls[id].query);
  }

  /** A call that has its reply: answered at once, or about to read the stale copy or to write. */
  ghost predicate Pending(call: Call, q: Query, reply: Reply<seq<Bar>>, available: bool, log: seq<Said>) {
    && call.query == q
    && match reply
       case Permanent => call.phase == Answered(Failed(false))
       case Retryable => call.phase == if available then Falling else Answered(Failed(true))
       case Answer(bars) =>
         && |log| > 0 && log[|log| - 1].query == q && log[|log| - 1].bars == bars
         && call.phase == if available then Writing(|log| - 1) else Answered(Fresh(bars, |log| - 1))
  }

  /** The world once the provider has replied to the only call. */
  lemma AskedWorld(w: World, q: Query, available: bool, ch: Choices)
    requires w.calls == map[0 := Call(q, Asking(available), None, 0)] && IsQuery(q) && ch.script != []
    ensures var asked, k := Asked(w, 0, ch), Calls(ch.script);
            var reply := ch.script[k - 1];
            && asked.entries == w.entries && asked.now == w.now + ch.askAfter
            && asked.log == (if reply.Answer? then w.log + [Said(q, reply.value, asked.now)] else w.log)
            && asked.calls == map[0 := Call(q, match reply
                                               case Permanent => Answered(Failed(false))
                                               case Retryable => if available then Falling else Answered(Failed(true))
                                               case Answer(bars) => if available then Writing(|w.log|) else Answered(Fresh(bars, |w.log|)),
                                            Some(reply), k)]
  {
    hide Calls;
  }

  /** The state in which one call, run from start to end, leaves the world. */
  ghost function CallEnd(c: Config, w: World, id: nat, symbol: string, start: Day, end: Day, ch: Choices): World
    requires IsDay(start) && IsDay(end) && id !in w.calls && GoodChoices(c, ch, Query(Normalize(symbol), start, end))
  {
    var looked := Look(c, Begin(w, id, symbol, start, end), id, ch.readFails);
    if looked.calls[id].phase.Answered? then looked
    else
      AskedInProgress(c, looked, id, ch);
      Concluded(c, Asked(looked, id, ch), id, ch)
  }

  lemma AnswerDays(c: Config, ch: Choices, q: Query)
    requires GoodChoices(c, ch, q)
    ensures var reply := ch.script[Calls(ch.script) - 1];
            reply.Answer? ==> forall i :: 0 <= i < |reply.value| ==> IsDay(reply.value[i].date)
  {
    hide Calls;
  }

  ghost predicate Path(c: Config, path: seq<World>, w: World, w': World) {
    && path != [] && path[0] == w && path[|path| - 1] == w'
    && forall k, l :: 0 <= k && k + 1 == l < |path| ==> Next(c, path[k], path[l])
  }

  /** Finitely many steps of the state machine lead from one state to the other. */
  ghost predicate Reaches(c: Config, w: World, w': World) {
    exists path: seq<World> :: Path(c, path, w, w')
  }

  lemma ReachesNext(c: Config, w: World, w': World)
    requires Next(c, w, w')
    ensures Reaches(c, w, w')
  {
    hide Next;
    assert Path(c, [w, w'], w, w');
  }

  lemma ReachesTransitive(c: Config, a: World, b: World, d: World)
    requires Reaches(c, a, b) && Reaches(c, b, d)
    ensures Reaches(c, a, d)
  {
    hide Next;
    var p: seq<World> :| Path(c, p, a, b);
    var q: seq<World> :| Path(c, q, b, d);
    var r := p + q[1..];
    assert forall k :: 0 <= k < |q| ==> r[|p| - 1 + k] == q[k];
    forall k, l | 0 <= k && k + 1 == l < |r| ensures Next(c, r[k], r[l]) {
      if l < |p| {
        assert r[k] == p[k] && r[l] == p[l];
      } else {
        assert r[k] == q[k - (|p| - 1)] && r[l] == q[l - (|p| - 1)];
      }
    }
    assert Path(c, r, a, d);
  }

  lemma ReachesAfter(c: Config, w: World, seconds: nat)
    ensures Reaches(c, w, After(w, seconds))
  {
    assert After(w, seconds) == w.(now := w.now + seconds);
    assert EnvironmentStep(w, After(w, seconds));
    ReachesNext(c, w, After(w, seconds));
  }

  /** A wait and then a step of the call. */
  lemma ReachesStep(c: Config, w: World, seconds: nat, w': World, id: nat)
    requires CallStep(c, After(w, seconds), w', id)
    ensures Reaches(c, w, w')
  {
    hide CallStep;
    ReachesAfter(c, w, seconds);
    ReachesNext(c, After(w, seconds), w');
    ReachesTransitive(c, w, After(w, seconds), w');
  }

  lemma WrittenReached(c: Config, w: World, id: nat, ch: Choices)
    requires InProgress(w, id) && w.calls[id].phase.Writing?
    ensures Reaches(c, w, Written(c, w, id, ch))
    ensures id in Written(c, w, id, ch).calls && Written(c, w, id, ch).calls[id].phase.Answered?
    ensures Written(c, w, id, ch).calls[id].query == w.calls[id].query
  {
    hide Key, StaleKey, Encode, FreshTtl, Reaches, Writable, Put;
    var source := w.calls[id].phase.source;
    var first := WriteFresh(c, After(w, ch.thenAfter + ch.writeAfter), id, source, w.now + ch.thenAfter, ch.freshWrite);
    assert CallStep(c, After(w, ch.thenAfter + ch.writeAfter), first, id);
    ReachesStep(c, w, ch.thenAfter + ch.writeAfter, first, id);
    if ch.freshWrite.Stored? {
      var shadow := WriteShadow(c, After(first, ch.shadowAfter), id, source, ch.shadowWrite);
      assert CallStep(c, After(first, ch.shadowAfter), shadow, id);
      ReachesStep(c, first, ch.shadowAfter, shadow, id);
      ReachesTransitive(c, w, first, shadow);
    }
  }

  lemma ConcludedReached(c: Config, w: World, id: nat, ch: Choices)
    requires InProgress(w, id)
    requires w.calls[id].phase.Answered? || w.calls[id].phase.Falling? || w.calls[id].phase.Writing?
    ensures Reaches(c, w, Concluded(c, w, id, ch))
    ensures id in Concluded(c, w, id, ch).calls && Concluded(c, w, id, ch).calls[id].phase.Answered?
    ensures Concluded(c, w, id, ch).calls[id].query == w.calls[id].query
  {
    hide Key, StaleKey, Decode, Reaches, Writable, Written;
    match w.calls[id].phase
    case Falling =>
      var end := Concluded(c, w, id, ch);
      assert CallStep(c, After(w, ch.thenAfter), end, id);
      ReachesStep(c, w, ch.thenAfter, end, id);
    case Writing(_) => WrittenReached(c, w, id, ch);
    case Answered(_) =>
      ReachesAfter(c, w, 0);
      assert After(w, 0) == w;
  }

  /**
   * One call, run from start to end with other workers idle, is a path of the state machine that
   * ends with the call answered.
   */
  lemma CallEndReached(c: Config, w: World, id: nat, symbol: string, start: Day, end: Day, ch: Choices)
    requires IsDay(start) && IsDay(end) && id !in w.calls && GoodChoices(c, ch, Query(Normalize(symbol), start, end))
    ensures var w' := CallEnd(c, w, id, symbol, start, end, ch);
            && Reaches(c, w, w') && id in w'.calls && w'.calls[id].phase.Answered?
            && w'.calls[id].query == Query(Normalize(symbol), start, end)
  {
    hide Normalize, Decode, Key, Reaches, Calls, GoodScript, Writable, Concluded, Ask;
    var began := Begin(w, id, symbol, start, end);
    var looked := Look(c, began, id, ch.readFails);
    assert CallStep(c, w, began, id);
    ReachesNext(c, w, began);
    assert CallStep(c, began, looked, id);
    ReachesNext(c, began, looked);
    ReachesTransitive(c, w, began, looked);
    if !looked.calls[id].phase.Answered? {
      AskedInProgress(c, looked, id, ch);
      var asked := Asked(looked, id, ch);
      assert CallStep(c, After(looked, ch.askAfter), asked, id);
      ReachesStep(c, looked, ch.askAfter, asked, id);
      ReachesTransitive(c, w, looked, asked);
      ConcludedReached(c, asked, id, ch);
      ReachesTransitive(c, w, asked, Concluded(c, asked, id, ch));
    }
  }

  lemma {:induction false} PathKeeps(c: Config, path: seq<World>, w: World, w': World, k: nat)
    requires Path(c, path, w, w') && Invariant(c, w) && k < |path|
    ensures Invariant(c, path[k])
  {
    hide Invariant, Next;
    if k > 0 {
      PathKeeps(c, path, w, w', k - 1);
      NextKeeps(c, path[k - 1], path[k]);
    }
  }

  lemma ReachesKeeps(c: Config, w: World, w': World)
    requires Reaches(c, w, w') && Invariant(c, w)
    ensures Invariant(c, w')
  {
    hide Invariant, Next;
    var path: seq<World> :| Path(c, path, w, w');
    PathKeeps(c, path, w, w', |path| - 1);
  }

  /**
   * A call made in a state that satisfies the invariant of the state machine ends in one, with an
   * outcome that is what the machine's laws say: a hit is an earlier answer to this query within
   * its lifetime, a stale answer follows this call's own transient failure, and so on.
   */
  lemma CallEndKeeps(c: Config, w: World, id: nat, symbol: string, start: Day, end: Day, ch: Choices)
    requires IsDay(start) && IsDay(end) && id !in w.calls && GoodChoices(c, ch, Query(Normalize(symbol), start, end))
    requires Invariant(c, w)
    ensures var w' := CallEnd(c, w, id, symbol, start, end, ch);
            && Invariant(c, w') && id in w'.calls && w'.calls[id].phase.Answered?
            && w'.calls[id].query == Query(Normalize(symbol), start, end)
            && GoodOutcome(c, w', w'.calls[id], w'.calls[id].phase.outcome)
  {
    hide CallEnd, Reaches, Normalize, GoodScript, GoodOutcome, GoodEntry, GoodLog;
    var w' := CallEnd(c, w, id, symbol, start, end, ch);
    CallEndReached(c, w, id, symbol, start, end, ch);
    ReachesKeeps(c, w, w');
    assert GoodCall(c, w', w'.calls[id]);
  }

  /** Between calls only the entries and the log matter. */
  lemma ForgetCalls(c: Config, w: World)
    requires Invariant(c, w)
    ensures Invariant(c, w.(calls := map[]))
  {
    hide GoodCall;
    var w' := w.(calls := map[]);
    LogStaysGood(w, w');
    hide GoodLog;
    forall key | key in w'.entries ensures GoodEntry(c, w', key, w'.entries[key]) {
      EntryStaysGood(c, w, w', key, w.entries[key]);
    }
  }

  /** An unexpired entry whose text has not been spoiled. */
  predicate Intact(entries: map<string, Entry>, now: int, name: string) {
    name in entries && now < entries[name].expires && !entries[name].payload.NotJson?
  }

  /** The entry stands for these bars until its lifetime ends. */
  ghost predicate Holds(entries: map<string, Entry>, name: string, q: Query, bars: seq<Bar>, source: nat, written: int, ttl: nat)
    requires IsQuery(q)
  {
    && name in entries && entries[name].source == source && entries[name].expires == written + ttl
    && Decode(entries[name].payload, q) == Ok(bars) && !entries[name].payload.NotJson?
  }

  /** What the store holds after an answer: the fresh copy unless its write is lost, then the shadow copy unless that is. */
  ghost predicate Keeps(c: Config, w: World, q: Query, ch: Choices, bars: seq<Bar>, entries: map<string, Entry>)
    requires IsQuery(q)
  {
    var key, shadow, read := Key(c.prefix, q), StaleKey(Key(c.prefix, q)), w.now + ch.askAfter + ch.thenAfter;
    var ttl := if DayLe(c.clock(read), q.end) then c.mutableTtl else c.historicalTtl;
    && (forall name :: name != key && name != shadow ==>
          (name in entries <==> name in w.entries) && (name in entries ==> entries[name] == w.entries[name]))
    && (if ch.readFails || ch.freshWrite.FailedUnstored?
        then (key in entries <==> key in w.entries) && (key in entries ==> entries[key] == w.entries[key])
        else Holds(entries, key, q, bars, |w.log|, read + ch.writeAfter, ttl))
    && (if ch.readFails || !ch.freshWrite.Stored? || ch.shadowWrite.FailedUnstored?
        then (shadow in entries <==> shadow in w.entries) && (shadow in entries ==> entries[shadow] == w.entries[shadow])
        else Holds(entries, shadow, q, bars, |w.log|, read + ch.writeAfter + ch.shadowAfter, c.staleTtl))
  }

  /**
   * What one call must do. A readable, intact fresh copy is served and the provider left alone.
   * Otherwise the provider is asked: its answer is returned and stored; a permanent failure is
   * passed on; after a transient one a readable, intact stale copy is served, and only without one
   * is the failure passed on.
   */
  ghost predicate Serves(c: Config, w: World, q: Query, ch: Choices, outcome: Outcome, w': World, asked: int)
    requires IsQuery(q) && ch.script != []
  {
    var key := Key(c.prefix, q);
    && w.now <= w'.now <= w.now + ch.askAfter + ch.thenAfter + ch.writeAfter + ch.shadowAfter
    && if !ch.readFails && Intact(w.entries, w.now, key) then
      && w.entries[key].source < |w.log|
      && outcome == Hit(w.log[w.entries[key].source].bars, w.entries[key], w.now)
      && asked == 0 && w'.entries == w.entries && w'.now == w.now && w'.log == w.log
    else
      && asked == Calls(ch.script)
      && match ch.script[asked - 1]
         case Permanent => outcome == Failed(false) && w'.entries == w.entries && w'.log == w.log
         case Retryable =>
           var shadow, later := StaleKey(key), w.now + ch.askAfter + ch.thenAfter;
           && w'.entries == w.entries && w'.log == w.log
           && (if !ch.readFails && !ch.staleReadFails && Intact(w.entries, later, shadow)
               then w.entries[shadow].source < |w.log|
                    && outcome == Stale(w.log[w.entries[shadow].source].bars, w.entries[shadow], later)
               else outcome == Failed(true))
         case Answer(bars) =>
           && outcome == Fresh(bars, |w.log|) && w'.log == w.log + [Said(q, bars, w.now + ch.askAfter)]
           && Keeps(c, w, q, ch, bars, w'.entries)
  }

  lemma IntactFresh(c: Config, w: World, q: Query, e: Entry)
    requires IsQuery(q) && GoodEntry(c, w, Key(c.prefix, q), e)
    ensures e.source < |w.log|
    ensures e.payload.NotJson? ==> Decode(e.payload, q).Err?
    ensures !e.payload.NotJson? ==> Decode(e.payload, q) == Ok(w.log[e.source].bars)
  {
    var said := w.log[e.source];
    FreshIsNeverStale(c.prefix, q, said.query);
    if !e.payload.NotJson? {
      KeyInjective(c.prefix, q, said.query);
      CodecRoundTrip(said.query, said.bars);
    }
    hide Key, StaleKey, Encode, GoodSeries, FreshTtl, MetadataMatches, DecodeBars;
  }

  lemma IntactStale(c: Config, w: World, q: Query, e: Entry)
    requires IsQuery(q) && GoodEntry(c, w, StaleKey(Key(c.prefix, q)), e)
    ensures e.source < |w.log|
    ensures e.payload.NotJson? ==> Decode(e.payload, q).Err?
    ensures !e.payload.NotJson? ==> Decode(e.payload, q) == Ok(w.log[e.source].bars)
  {
    var said := w.log[e.source];
    FreshIsNeverStale(c.prefix, said.query, q);
    if !e.payload.NotJson? {
      StaleKeyInjective(c.prefix, q, said.query);
      CodecRoundTrip(said.query, said.bars);
    }
    hide Key, StaleKey, Encode, GoodSeries, FreshTtl, MetadataMatches, DecodeBars;
  }

  /** The look-up of a call that is alone. */
  lemma LookedUp(c: Config, w: World, q: Query, readFails: bool)
    requires Invariant(c, w) && w.calls == map[] && IsQuery(q)
    ensures var looked := Look(c, w.(calls := map[0 := Call(q, Looking, None, 0)]), 0, readFails);
            var key := Key(c.prefix, q);
            if !readFails && Intact(w.entries, w.now, key)
            then w.entries[key].source < |w.log|
                 && looked == w.(calls := map[0 := Call(q, Answered(Hit(w.log[w.entries[key].source].bars, w.entries[key], w.now)), None, 0)])
            else looked == w.(calls := map[0 := Call(q, Asking(!readFails), None, 0)])
  {
    hide Key, Decode, GoodEntry, GoodCall, GoodLog;
    var key := Key(c.prefix, q);
    if key in w.entries {
      IntactFresh(c, w, q, w.entries[key]);
    }
  }

  /** The stale copy, or none. */
  lemma FellBack(c: Config, w: World, q: Query, call: Call, seconds: nat, readFails: bool)
    requires Invariant(c, w.(calls := map[])) && w.calls == map[0 := call] && IsQuery(q) && call.query == q
    ensures var later := w.now + seconds;
            var after := FallBack(c, After(w, seconds), 0, readFails);
            var shadow := StaleKey(Key(c.prefix, q));
            && after.entries == w.entries && after.log == w.log && after.now == later
            && 0 in after.calls && after.calls[0].attempts == call.attempts
            && if !readFails && Intact(w.entries, later, shadow)
               then w.entries[shadow].source < |w.log|
                    && after.calls[0].phase == Answered(Stale(w.log[w.entries[shadow].source].bars, w.entries[shadow], later))
               else after.calls[0].phase == Answered(Failed(true))
  {
    hide Key, StaleKey, Decode, GoodEntry, GoodCall, GoodLog;
    var shadow := StaleKey(Key(c.prefix, q));
    if shadow in w.entries {
      assert GoodEntry(c, w.(calls := map[]), shadow, w.entries[shadow]);
      IntactStale(c, w.(calls := map[]), q, w.entries[shadow]);
    }
  }

  lemma KeysDiffer(c: Config, q: Query)
    requires IsQuery(q)
    ensures Key(c.prefix, q) != StaleKey(Key(c.prefix, q))
  {
    FreshIsNeverStale(c.prefix, q, q);
  }

  lemma EncodedHolds(q: Query, bars: seq<Bar>)
    requires IsQuery(q) && GoodSeries(bars, q)
    ensures (forall i :: 0 <= i < |bars| ==> IsDay(bars[i].date))
    ensures Decode(Encode(q, bars), q) == Ok(bars) && !Encode(q, bars).NotJson?
  {
    CodecRoundTrip(q, bars);
  }

  lemma PutHolds(w: World, key: string, q: Query, bars: seq<Bar>, source: nat, ttl: nat, chosen: int, result: WriteResult)
    requires source < |w.log| && w.log[source].query == q && w.log[source].bars == bars && IsQuery(q) && GoodSeries(bars, q)
    ensures Writable(w.log[source])
    ensures var entries := Put(w, key, source, ttl, chosen, result);
            && (forall name :: name != key ==>
                  (name in entries <==> name in w.entries) && (name in entries ==> entries[name] == w.entries[name]))
            && if result.FailedUnstored? then entries == w.entries else Holds(entries, key, q, bars, source, w.now, ttl)
  {
    hide Decode, Encode, GoodSeries;
    EncodedHolds(q, bars);
  }

  lemma WroteFresh(c: Config, w: World, chosen: int, result: WriteResult)
    requires 0 in w.calls && w.calls[0].phase.Writing? && w.calls[0].phase.source < |w.log| && Writable(w.log[w.calls[0].phase.source])
    ensures var source := w.calls[0].phase.source;
            var q, bars, w' := w.log[source].query, w.log[source].bars, WriteFresh(c, w, 0, source, chosen, result);
            var ttl := if DayLe(c.clock(chosen), q.end) then c.mutableTtl else c.historicalTtl;
            && w' == w.(entries := Put(w, Key(c.prefix, q), source, ttl, chosen, result), calls := w'.calls)
            && 0 in w'.calls && w'.calls[0].attempts == w.calls[0].attempts
            && w'.calls[0].phase == if result.Stored? then WritingStale(source) else Answered(Fresh(bars, source))
  {
    hide Put, Key, DayLe;
  }

  lemma WroteShadow(c: Config, w: World, source: nat, result: WriteResult)
    requires 0 in w.calls && source < |w.log| && Writable(w.log[source])
    ensures var q, bars, w' := w.log[source].query, w.log[source].bars, WriteShadow(c, w, 0, source, result);
            && w' == w.(entries := Put(w, StaleKey(Key(c.prefix, q)), source, c.staleTtl, w.now, result), calls := w'.calls)
            && 0 in w'.calls && w'.calls[0].attempts == w.calls[0].attempts
            && w'.calls[0].phase == Answered(Fresh(bars, source))
  {
    hide Put, Key, StaleKey;
  }

  /** The two writes; `w` is the world before the provider was asked. */
  lemma WroteBoth(c: Config, w: World, asked: World, q: Query, bars: seq<Bar>, ch: Choices)
    requires IsQuery(q) && GoodSeries(bars, q) && !ch.readFails
    requires asked.entries == w.entries && asked.now == w.now + ch.askAfter && asked.log == w.log + [Said(q, bars, asked.now)]
    requires InProgress(asked, 0) && asked.calls[0].phase == Writing(|w.log|)
    ensures var after := Written(c, asked, 0, ch);
            && after.log == asked.log && asked.now <= after.now <= asked.now + ch.thenAfter + ch.writeAfter + ch.shadowAfter
            && 0 in after.calls && after.calls[0].attempts == asked.calls[0].attempts
            && after.calls[0].phase == Answered(Fresh(bars, |w.log|))
            && Keeps(c, w, q, ch, bars, after.entries)
  {
    hide Key, StaleKey, Decode, Encode, GoodSeries, Put, DayLe, Holds, WriteFresh, WriteShadow;
    KeysDiffer(c, q);
    var key, source, chosen := Key(c.prefix, q), |w.log|, asked.now + ch.thenAfter;
    var ttl := if DayLe(c.clock(chosen), q.end) then c.mutableTtl else c.historicalTtl;
    var first := After(asked, ch.thenAfter + ch.writeAfter);
    PutHolds(first, key, q, bars, source, ttl, chosen, ch.freshWrite);
    WroteFresh(c, first, chosen, ch.freshWrite);
    if ch.freshWrite.Stored? {
      var second := After(WriteFresh(c, first, 0, source, chosen, ch.freshWrite), ch.shadowAfter);
      PutHolds(second, StaleKey(key), q, bars, source, c.staleTtl, second.now, ch.shadowWrite);
      WroteShadow(c, second, source, ch.shadowWrite);
      HoldsStill(second.entries, WriteShadow(c, second, 0, source, ch.shadowWrite).entries, key, q, bars, source, first.now, ttl);
    }
  }

  lemma HoldsStill(before: map<string, Entry>, entries: map<string, Entry>, name: string, q: Query, bars: seq<Bar>, source: nat, written: int,
                   ttl: nat)
    requires IsQuery(q) && (name in before <==> name in entries) && (name in before ==> before[name] == entries[name])
    ensures Holds(before, name, q, bars, source, written, ttl) == Holds(entries, name, q, bars, source, written, ttl)
  {
    hide Decode;
  }

  /** A call made alone, from a state that satisfies the invariant, serves as it must. */
  lemma CallServes(c: Config, w: World, symbol: string, start: Day, end: Day, ch: Choices)
    requires IsDay(start) && IsDay(end) && GoodChoices(c, ch, Query(Normalize(symbol), start, end))
    requires Invariant(c, w) && w.calls == map[]
    ensures var w' := CallEnd(c, w, 0, symbol, start, end, ch);
            && 0 in w'.calls && w'.calls[0].phase.Answered?
            && Serves(c, w, Query(Normalize(symbol), start, end), ch, w'.calls[0].phase.outcome, w', w'.calls[0].attempts)
  {
    hide Key, StaleKey, Decode, Encode, FreshTtl, Calls, Normalize, GoodSeries, Written, FallBack, Look, Ask, Invariant, Keeps, Intact,
      Writable, Asked;
    var q := Query(Normalize(symbol), start, end);
    LookedUp(c, w, q, ch.readFails);
    var looked := Look(c, Begin(w, 0, symbol, start, end), 0, ch.readFails);
    assert Begin(w, 0, symbol, start, end) == w.(calls := map[0 := Call(q, Looking, None, 0)]);
    if !looked.calls[0].phase.Answered? {
      AskedInProgress(c, looked, 0, ch);
      AskedWorld(looked, q, !ch.readFails, ch);
      AskedServes(c, w, looked, q, ch);
    }
  }

  lemma AnswerGood(c: Config, ch: Choices, q: Query)
    requires GoodChoices(c, ch, q)
    ensures var reply := ch.script[Calls(ch.script) - 1]; reply.Answer? ==> GoodSeries(reply.value, q)
  {
    hide Calls, GoodSeries;
  }

  lemma ServesFailure(c: Config, w: World, asked: World, q: Query, ch: Choices)
    requires IsQuery(q) && ch.script != [] && Invariant(c, w) && w.calls == map[]
    requires ch.readFails || !Intact(w.entries, w.now, Key(c.prefix, q))
    requires asked.entries == w.entries && asked.now == w.now + ch.askAfter && InProgress(asked, 0)
    requires asked.calls == map[0 := asked.calls[0]] && asked.calls[0].query == q && asked.calls[0].attempts == Calls(ch.script)
    requires asked.log == w.log
    requires var reply := ch.script[Calls(ch.script) - 1];
             || (reply == Permanent && asked.calls[0].phase == Answered(Failed(false)))
             || (reply == Retryable && asked.calls[0].phase == if ch.readFails then Answered(Failed(true)) else Falling)
    ensures var w' := Concluded(c, asked, 0, ch);
            && 0 in w'.calls && w'.calls[0].phase.Answered?
            && Serves(c, w, q, ch, w'.calls[0].phase.outcome, w', w'.calls[0].attempts)
  {
    hide Key, StaleKey, Decode, Encode, Calls, Written, FallBack, Invariant, Intact, Writable, Keeps, IsQuery;
    if asked.calls[0].phase.Falling? {
      StillInvariant(c, w, asked);
      FellBack(c, asked, q, asked.calls[0], ch.thenAfter, ch.staleReadFails);
    }
  }

  lemma ServesAnswer(c: Config, w: World, asked: World, q: Query, ch: Choices, bars: seq<Bar>)
    requires IsQuery(q) && ch.script != [] && Invariant(c, w) && w.calls == map[]
    requires ch.readFails || !Intact(w.entries, w.now, Key(c.prefix, q))
    requires asked.entries == w.entries && asked.now == w.now + ch.askAfter && InProgress(asked, 0)
    requires asked.calls == map[0 := asked.calls[0]] && asked.calls[0].query == q && asked.calls[0].attempts == Calls(ch.script)
    requires ch.script[Calls(ch.script) - 1] == Reply.Answer(bars) && GoodSeries(bars, q)
    requires asked.log == w.log + [Said(q, bars, asked.now)]
    requires asked.calls[0].phase == if ch.readFails then Answered(Fresh(bars, |w.log|)) else Writing(|w.log|)
    ensures var w' := Concluded(c, asked, 0, ch);
            && 0 in w'.calls && w'.calls[0].phase.Answered?
            && Serves(c, w, q, ch, w'.calls[0].phase.outcome, w', w'.calls[0].attempts)
  {
    hide Key, StaleKey, Decode, Encode, Calls, GoodSeries, Written, FallBack, Invariant, Intact, Writable, Keeps, IsQuery;
    if ch.readFails {
      KeepsNothing(c, w, q, ch, bars);
    } else {
      WroteBoth(c, w, asked, q, bars, ch);
    }
  }

  lemma AskedServes(c: Config, w: World, looked: World, q: Query, ch: Choices)
    requires IsQuery(q) && GoodChoices(c, ch, q) && Invariant(c, w) && w.calls == map[]
    requires ch.readFails || !Intact(w.entries, w.now, Key(c.prefix, q))
    requires looked == w.(calls := map[0 := Call(q, Asking(!ch.readFails), None, 0)])
    ensures InProgress(Asked(looked, 0, ch), 0)
    ensures var w' := Concluded(c, Asked(looked, 0, ch), 0, ch);
            && 0 in w'.calls && w'.calls[0].phase.Answered?
            && Serves(c, w, q, ch, w'.calls[0].phase.outcome, w', w'.calls[0].attempts)
  {
    AskedInProgress(c, looked, 0, ch);
    AskedWorld(looked, q, !ch.readFails, ch);
    AnswerGood(c, ch, q);
    hide Key, Calls, GoodSeries, Concluded, Serves, Invariant, Intact, Asked, GoodScript, InProgress;
    var asked := Asked(looked, 0, ch);
    match ch.script[Calls(ch.script) - 1]
    case Answer(bars) => ServesAnswer(c, w, asked, q, ch, bars);
    case _ => ServesFailure(c, w, asked, q, ch);
  }

  lemma StillInvariant(c: Config, w: World, asked: World)
    requires Invariant(c, w) && asked.entries == w.entries && asked.log == w.log && asked.now >= w.now && w.calls == map[]
    ensures Invariant(c, asked.(calls := map[]))
  {
    hide GoodEntry;
    var later := asked.(calls := map[]);
    LogStaysGood(w, later);
    hide GoodLog;
    forall key | key in later.entries ensures GoodEntry(c, later, key, later.entries[key]) {
      EntryStaysGood(c, w, later, key, w.entries[key]);
    }
  }

  lemma KeepsNothing(c: Config, w: World, q: Query, ch: Choices, bars: seq<Bar>)
    requires IsQuery(q) && ch.readFails
    ensures Keeps(c, w, q, ch, bars, w.entries)
  {
    hide Key, StaleKey, Decode;
  }

  class CachedMarketDataProvider {
    const config: Config
    const store: TtlStore
    const provider: RetryingMarketDataProvider<seq<Bar>>
    /** Every answer the provider has given, a history. */
    var log: seq<Said>

    /** What is stored is what the provider has said, as the state machine's invariant has it. */
    ghost predicate Valid()
      reads this, store
    {
      Invariant(config, World(store.entries, store.now, log, map[]))
    }

    constructor (config: Config, store: TtlStore, provider: RetryingMarketDataProvider<seq<Bar>>)
      requires IsConfig(config) && provider.maxAttempts == config.maxAttempts
      ensures this.config == config && this.store == store && this.provider == provider && log == []
      ensures store.entries == map[] ==> Valid()
    {
      this.config, this.store, this.provider := config, store, provider;
      log := [];
    }

    /** From a valid state the call leaves a valid one, and its outcome obeys the laws of the machine's runs. */
    method GetPriceBars(symbol: string, start: Day, end: Day, ch: Choices) returns (outcome: Outcome)
      requires IsConfig(config) && provider.maxAttempts == config.maxAttempts
      requires IsDay(start) && IsDay(end) && GoodChoices(config, ch, Query(Normalize(symbol), start, end))
      modifies store, provider, `log
      ensures var w := CallEnd(config, World(old(store.entries), old(store.now), old(log), map[]), 0, symbol, start, end, ch);
              && 0 in w.calls && w.calls[0].phase == Answered(outcome)
              && w.entries == store.entries && w.now == store.now && w.log == log
              && provider.calls == old(provider.calls) + w.calls[0].attempts
              && (old(Valid()) ==>
                   && Valid() && w.calls[0].query == Query(Normalize(symbol), start, end)
                   && GoodOutcome(config, w, w.calls[0], outcome)
                   && Serves(config, World(old(store.entries), old(store.now), old(log), map[]), Query(Normalize(symbol), start, end), ch,
                             outcome, World(store.entries, store.now, log, map[]), provider.calls - old(provider.calls)))
      ensures outcome.Hit? ==> provider.delays == old(provider.delays)
    {
      ghost var before := World(store.entries, store.now, log, map[]);
      outcome := LookAndConclude(symbol, start, end, ch);
      hide CallEnd, Invariant, GoodOutcome, GoodScript, Normalize, Key, StaleKey, Keeps, Intact;
      if old(Valid()) {
        CallEndKeeps(config, before, 0, symbol, start, end, ch);
        CallServes(config, before, symbol, start, end, ch);
        ForgetCalls(config, CallEnd(config, before, 0, symbol, start, end, ch));
      }
    }

    /** The body of the call. */
    method LookAndConclude(symbol: string, start: Day, end: Day, ch: Choices) returns (outcome: Outcome)
      requires IsConfig(config) && provider.maxAttempts == config.maxAttempts
      requires IsDay(start) && IsDay(end) && GoodChoices(config, ch, Query(Normalize(symbol), start, end))
      modifies store, provider, `log
      ensures var w := CallEnd(config, World(old(store.entries), old(store.now), old(log), map[]), 0, symbol, start, end, ch);
              && 0 in w.calls && w.calls[0].phase == Answered(outcome)
              && w.entries == store.entries && w.now == store.now && w.log == log
              && provider.calls == old(provider.calls) + w.calls[0].attempts
      ensures outcome.Hit? ==> provider.delays == old(provider.delays)
    {
      hide Decode, Key, StaleKey, Encode, FreshTtl, Calls, Normalize, GoodSeries, Concluded, Asked;
      var q := Query(Normalize(symbol), start, end);
      var key := Key(config.prefix, q);
      var available := !ch.readFails;
      if available {
        var cached := store.Get(key);
        if cached.Some? {
          var bars := DeserializePriceBars(cached.value.payload, q);
          if bars.Ok? {
            return Hit(bars.value, cached.value, store.now);
          }
        }
      }
      ghost var looked := Look(config, Begin(World(store.entries, store.now, log, map[]), 0, symbol, start, end), 0, ch.readFails);
      AskedInProgress(config, looked, 0, ch);
      outcome := AskAndConclude(q, available, ch, looked);
    }

    /** The part after an unsuccessful lookup. */
    method AskAndConclude(q: Query, available: bool, ch: Choices, ghost looked: World) returns (outcome: Outcome)
      requires IsConfig(config) && provider.maxAttempts == config.maxAttempts
      requires IsQuery(q) && GoodChoices(config, ch, q)
      requires looked == World(store.entries, store.now, log, map[0 := Call(q, Asking(available), None, 0)])
      modifies store, provider, `log
      ensures InProgress(Asked(looked, 0, ch), 0)
      ensures var w := Concluded(config, Asked(looked, 0, ch), 0, ch);
              && 0 in w.calls && w.calls[0].phase == Answered(outcome)
              && w.entries == store.entries && w.now == store.now && w.log == log
              && provider.calls == old(provider.calls) + w.calls[0].attempts
      ensures !outcome.Hit?
    {
      hide Asked, Concluded, GoodScript, Calls, IsConfig, Writable;
      AskedInProgress(config, looked, 0, ch);
      var reply := AskProvider(q, available, ch, looked);
      outcome := Conclude(q, reply, available, ch, Asked(looked, 0, ch));
    }

    /** The provider call with its retries. */
    method AskProvider(q: Query, available: bool, ch: Choices, ghost looked: World) returns (reply: Reply<seq<Bar>>)
      requires IsConfig(config) && provider.maxAttempts == config.maxAttempts
      requires IsQuery(q) && GoodChoices(config, ch, q)
      requires looked == World(store.entries, store.now, log, map[0 := Call(q, Asking(available), None, 0)])
      modifies store`now, provider, `log
      ensures var asked := Asked(looked, 0, ch);
              && 0 in asked.calls && Pending(asked.calls[0], q, reply, available, asked.log)
              && asked.entries == store.entries && asked.now == store.now && asked.log == log
              && provider.calls == old(provider.calls) + asked.calls[0].attempts
    {
      AskedWorld(looked, q, available, ch);
      hide Asked, Calls, GoodScript, Delays, Total, Power2;
      store.Wait(ch.askAfter);
      reply := provider.Attempt(ch.script);
      if reply.Answer? {
        log := log + [Said(q, reply.value, store.now)];
      }
    }

    /** What the call does with the reply. */
    method Conclude(q: Query, reply: Reply<seq<Bar>>, available: bool, ch: Choices, ghost asked: World) returns (outcome: Outcome)
      requires IsQuery(q) && InProgress(asked, 0) && Pending(asked.calls[0], q, reply, available, asked.log)
      requires asked.entries == store.entries && asked.now == store.now && asked.log == log
      modifies store
      ensures var w := Concluded(config, asked, 0, ch);
              && 0 in w.calls && w.calls[0].phase == Answered(outcome) && w.calls[0].attempts == asked.calls[0].attempts
              && w.entries == store.entries && w.now == store.now && w.log == log
      ensures !outcome.Hit?
    {
      hide Writable, Written, FallBack, IsDay;
      match reply {
        case Permanent =>
          return Failed(false);
        case Retryable =>
          if !available {
            return Failed(true);
          }
          store.Wait(ch.thenAfter);
          outcome := ReadStale(q, ch.staleReadFails, After(asked, ch.thenAfter));
          return;
        case Answer(bars) =>
          if !available {
            return Fresh(bars, |log| - 1);
          }
          StoreBoth(q, bars, ch, asked);
          return Fresh(bars, |log| - 1);
      }
    }

    /** The stale copy, or the transient failure when there is none to be had. */
    method ReadStale(q: Query, readFails: bool, ghost w: World) returns (outcome: Outcome)
      requires 0 in w.calls && w.calls[0].query == q && IsQuery(q)
      requires w.entries == store.entries && w.now == store.now
      ensures 0 in FallBack(config, w, 0, readFails).calls
      ensures FallBack(config, w, 0, readFails) == Settle(w, 0, outcome)
      ensures !outcome.Hit?
    {
      hide Decode, Key, StaleKey;
      if readFails {
        return Failed(true);
      }
      var shadow := store.Get(StaleKey(Key(config.prefix, q)));
      if shadow.None? {
        return Failed(true);
      }
      var bars := DeserializePriceBars(shadow.value.payload, q);
      if bars.Err? {
        return Failed(true);
      }
      return Stale(bars.value, shadow.value, store.now);
    }

    /** The two writes; the second is attempted only if the first succeeded. */
    method StoreBoth(q: Query, bars: seq<Bar>, ch: Choices, ghost w: World)
      requires InProgress(w, 0) && w.calls[0].phase.Writing? && |log| > 0
      requires w.entries == store.entries && w.now == store.now && w.log == log
      requires w.calls[0].phase.source == |log| - 1 && log[|log| - 1].query == q && log[|log| - 1].bars == bars
      modifies store
      ensures var w' := Written(config, w, 0, ch);
              && w'.entries == store.entries && w'.now == store.now && w'.log == log
              && 0 in w'.calls && w'.calls[0] == w.calls[0].(phase := Answered(Fresh(bars, |log| - 1)))
    {
      hide Key, StaleKey, Encode, FreshTtl;
      var source := |log| - 1;
      var key := Key(config.prefix, q);
      var payload := Encode(q, bars);
      store.Wait(ch.thenAfter);
      var chosen := store.now;
      var freshTtl := FreshTtl(config, q, config.clock(chosen));
      store.Wait(ch.writeAfter);
      store.Set(key, payload, freshTtl, source, chosen, ch.freshWrite);
      if !ch.freshWrite.Stored? {
        return;
      }
      store.Wait(ch.shadowAfter);
      store.Set(StaleKey(key), payload, config.staleTtl, source, store.now, ch.shadowWrite);
    }
  }

  /**
   * Two calls for one query: when the first is answered and its fresh copy stored, and the second
   * comes within both lifetimes and can read the store, the second is served that answer and the
   * provider is not asked again, whatever it would have said.
   */
  method AskTwice(p: CachedMarketDataProvider, symbol: string, start: Day, end: Day, first: Choices, gap: nat, second: Choices,
                  ghost bars: seq<Bar>)
    returns (a: Outcome, b: Outcome)
    requires p.Valid() && IsConfig(p.config) && p.provider.maxAttempts == p.config.maxAttempts && IsDay(start) && IsDay(end)
    requires GoodChoices(p.config, first, Query(Normalize(symbol), start, end))
    requires GoodChoices(p.config, second, Query(Normalize(symbol), start, end))
    requires !Intact(p.store.entries, p.store.now, Key(p.config.prefix, Query(Normalize(symbol), start, end)))
    requires first.script[Calls(first.script) - 1] == Reply.Answer(bars) && !first.readFails && !first.freshWrite.FailedUnstored?
    requires first.shadowAfter + gap < p.config.mutableTtl && first.shadowAfter + gap < p.config.historicalTtl && !second.readFails
    modifies p.store, p.provider, p`log
    ensures a.Fresh? && a.bars == bars
    ensures b.Hit? && b.bars == bars
    ensures p.provider.calls == old(p.provider.calls) + Calls(first.script)
    ensures p.Valid()
  {
    hide Key, StaleKey, Decode, CallEnd, Normalize, GoodScript, Calls, GoodOutcome, Invariant;
    a := p.GetPriceBars(symbol, start, end, first);
    assert p.Valid();
    p.store.Wait(gap);
    WaitKeepsValid(p.config, p.store.entries, p.store.now - gap, gap, p.log);
    b := p.GetPriceBars(symbol, start, end, second);
  }

  lemma WaitKeepsValid(c: Config, entries: map<string, Entry>, now: int, seconds: nat, log: seq<Said>)
    requires Invariant(c, World(entries, now, log, map[]))
    ensures Invariant(c, World(entries, now + seconds, log, map[]))
  {
    StillInvariant(c, World(entries, now, log, map[]), World(entries, now + seconds, log, map[]));
  }
}
