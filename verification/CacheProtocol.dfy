/**
 * The market-data cache as a state machine over a shared TTL store. Calls of many workers
 * interleave step by step; the clock ticks, entries expire, are evicted or get corrupted, reads
 * and writes fail (a failed write may still have been applied), and the two writes of a call may
 * be half completed. Nobody else writes well-formed payloads, and providers answer with series
 * that honour the bar contract.
 */
module CacheProtocol {
  import opened Wrappers
  import opened Text
  import opened CacheCodec
  import opened Retry

  /**
   * Lifetimes in seconds, the key prefix `{namespace}:v1:{provider}`, the retry bound, and the
   * date that the workers' clock shows at each instant.
   */
  datatype Config = Config(mutableTtl: nat, historicalTtl: nat, staleTtl: nat, prefix: string, maxAttempts: nat, clock: int -> Day)

  predicate IsConfig(c: Config) {
    c.mutableTtl > 0 && c.historicalTtl > 0 && c.staleTtl > 0 && c.maxAttempts >= 1
  }

  /** The lifetime chosen for a fresh copy: short while the range reaches today, long afterwards. */
  function FreshTtl(c: Config, q: Query, today: Day): nat {
    if DayLe(today, q.end) then c.mutableTtl else c.historicalTtl
  }

  /** Something the provider said: which query, which bars, when. */
  datatype Said = Said(query: Query, bars: seq<Bar>, at: int)

  /** A stored value; `source`, `written`, `ttl` and `chosen`, the instant its lifetime was chosen, record where it came from. */
  datatype Entry = Entry(payload: Payload, expires: int, source: nat, written: int, ttl: nat, chosen: int)

  datatype Outcome =
    | Hit(bars: seq<Bar>, entry: Entry, at: int)
    | Fresh(bars: seq<Bar>, source: nat)
    | Stale(bars: seq<Bar>, entry: Entry, at: int)
    | Failed(transient: bool)

  datatype Phase =
    | Looking
    | Asking(cacheAvailable: bool)
    | Falling
    | Writing(source: nat)
    | WritingStale(source: nat)
    | Answered(outcome: Outcome)

  /** `replied` is this call's reply from the retrying provider, after `attempts` provider calls. */
  datatype Call = Call(query: Query, phase: Phase, replied: Option<Reply<seq<Bar>>>, attempts: nat)

  datatype World = World(entries: map<string, Entry>, now: int, log: seq<Said>, calls: map<nat, Call>)

  datatype WriteResult = Stored | FailedUnstored | FailedStored

  /** A read at the current time: expired entries are gone. */
  function Read(entries: map<string, Entry>, now: int, key: string): Option<Entry> {
    if key in entries && now < entries[key].expires then Some(entries[key]) else None
  }

  function Settle(w: World, id: nat, outcome: Outcome): World
    requires id in w.calls
  {
    w.(calls := w.calls[id := w.calls[id].(phase := Answered(outcome))])
  }

  function Move(w: World, id: nat, phase: Phase): World
    requires id in w.calls
  {
    w.(calls := w.calls[id := w.calls[id].(phase := phase)])
  }

  /** A call arrives; the symbol is normalised. */
  function Begin(w: World, id: nat, symbol: string, start: Day, end: Day): World {
    w.(calls := w.calls[id := Call(Query(Normalize(symbol), start, end), Looking, None, 0)])
  }

  /** Looks the fresh key up. */
  function Look(c: Config, w: World, id: nat, readFails: bool): World
    requires id in w.calls && IsQuery(w.calls[id].query)
  {
    var q := w.calls[id].query;
    var cached := Read(w.entries, w.now, Key(c.prefix, q));
    if readFails then Move(w, id, Asking(false))
    else if cached.None? then Move(w, id, Asking(true))
    else
      var bars := Decode(cached.value.payload, q);
      if bars.Ok? then Settle(w, id, Hit(bars.value, cached.value, w.now)) else Move(w, id, Asking(true))
  }

  /** Asks the provider, with retries; `script` holds its replies. */
  function Ask(w: World, id: nat, available: bool, script: seq<Reply<seq<Bar>>>): World
    requires id in w.calls && script != []
  {
    var k := Calls(script);
    var reply := script[k - 1];
    var asked := w.(calls := w.calls[id := w.calls[id].(replied := Some(reply), attempts := k)]);
    match reply
    case Permanent => Settle(asked, id, Failed(false))
    case Retryable => if available then Move(asked, id, Falling) else Settle(asked, id, Failed(true))
    case Answer(bars) =>
      var said := asked.(log := asked.log + [Said(w.calls[id].query, bars, w.now)]);
      if available then Move(said, id, Writing(|w.log|)) else Settle(said, id, Fresh(bars, |w.log|))
  }

  /** Falls back to the stale copy after a transient failure. */
  function FallBack(c: Config, w: World, id: nat, readFails: bool): World
    requires id in w.calls && IsQuery(w.calls[id].query)
  {
    var q := w.calls[id].query;
    var cached := Read(w.entries, w.now, StaleKey(Key(c.prefix, q)));
    if readFails || cached.None? then Settle(w, id, Failed(true))
    else
      var bars := Decode(cached.value.payload, q);
      if bars.Ok? then Settle(w, id, Stale(bars.value, cached.value, w.now)) else Settle(w, id, Failed(true))
  }

  /** An answer whose dates can be printed. */
  ghost predicate Writable(said: Said) {
    IsQuery(said.query) && forall i :: 0 <= i < |said.bars| ==> IsDay(said.bars[i].date)
  }

  ghost predicate GoodSaid(said: Said) {
    IsQuery(said.query) && GoodSeries(said.bars, said.query)
  }

  function Put(w: World, key: string, source: nat, ttl: nat, chosen: int, result: WriteResult): map<string, Entry>
    requires source < |w.log| && Writable(w.log[source])
  {
    if result.FailedUnstored? then w.entries
    else w.entries[key := Entry(Encode(w.log[source].query, w.log[source].bars), w.now + ttl, source, w.now, ttl, chosen)]
  }

  /** First write: the fresh copy, with the lifetime chosen when the clock was read. */
  function WriteFresh(c: Config, w: World, id: nat, source: nat, chosen: int, result: WriteResult): World
    requires id in w.calls && source < |w.log| && Writable(w.log[source])
  {
    var q := w.log[source].query;
    var w' := w.(entries := Put(w, Key(c.prefix, q), source, FreshTtl(c, q, c.clock(chosen)), chosen, result));
    if result.Stored? then Move(w', id, WritingStale(source)) else Settle(w', id, Fresh(w.log[source].bars, source))
  }

  /** Second write: the stale shadow copy. */
  function WriteShadow(c: Config, w: World, id: nat, source: nat, result: WriteResult): World
    requires id in w.calls && source < |w.log| && Writable(w.log[source])
  {
    var q := w.log[source].query;
    Settle(w.(entries := Put(w, StaleKey(Key(c.prefix, q)), source, c.staleTtl, w.now, result)), id, Fresh(w.log[source].bars, source))
  }

  /** Every answer in a script honours the bar contract for the query. */
  ghost predicate GoodScript(c: Config, script: seq<Reply<seq<Bar>>>, q: Query) {
    |script| == c.maxAttempts && forall i :: 0 <= i < |script| && script[i].Answer? ==> GoodSeries(script[i].value, q)
  }

  /** What the environment does: time passes, entries are evicted or overwritten with text that is not JSON. */
  ghost predicate EnvironmentStep(w: World, w': World) {
    || (exists now: int :: now >= w.now && w' == w.(now := now))
    || (exists key: string :: w' == w.(entries := w.entries - {key}))
    || (exists key: string :: key in w.entries && w' == w.(entries := w.entries[key := w.entries[key].(payload := NotJson)]))
  }

  ghost predicate CallStep(c: Config, w: World, w': World, id: nat) {
    if id !in w.calls then
      exists symbol: string, start: Day, end: Day :: IsDay(start) && IsDay(end) && w' == Begin(w, id, symbol, start, end)
    else
      var call := w.calls[id];
      && IsQuery(call.query)
      && match call.phase
         case Looking => exists fails: bool :: w' == Look(c, w, id, fails)
         case Asking(available) =>
           exists script: seq<Reply<seq<Bar>>> :: script != [] && GoodScript(c, script, call.query) && w' == Ask(w, id, available, script)
         case Falling => exists fails: bool :: w' == FallBack(c, w, id, fails)
         case Writing(source) =>
           && source < |w.log| && Writable(w.log[source])
           && exists chosen: int, result: WriteResult ::
                w.log[source].at <= chosen <= w.now && w' == WriteFresh(c, w, id, source, chosen, result)
         case WritingStale(source) =>
           && source < |w.log| && Writable(w.log[source])
           && exists result: WriteResult :: w' == WriteShadow(c, w, id, source, result)
         case Answered(_) => false
  }

  ghost predicate Next(c: Config, w: World, w': World) {
    EnvironmentStep(w, w') || exists id: nat :: CallStep(c, w, w', id)
  }

  ghost predicate Initial(w: World) {
    w.entries == map[] && w.log == [] && w.calls == map[]
  }

  ghost predicate IsRun(c: Config, run: seq<World>) {
    run != [] && Initial(run[0]) && forall k, l :: 0 <= k && k + 1 == l < |run| ==> Next(c, run[k], run[l])
  }

  /** Where a stored value comes from: something the provider said, written no earlier, with the lifetime of its key. */
  ghost predicate GoodEntry(c: Config, w: World, key: string, e: Entry) {
    && e.source < |w.log| && GoodSaid(w.log[e.source])
    && e.expires == e.written + e.ttl
    && w.log[e.source].at <= e.chosen <= e.written <= w.now
    && (e.payload.NotJson? || e.payload == EncodedSaid(w.log[e.source]))
    && (|| (key == Key(c.prefix, w.log[e.source].query)
            && e.ttl == FreshTtl(c, w.log[e.source].query, c.clock(e.chosen)))
        || (key == StaleKey(Key(c.prefix, w.log[e.source].query)) && e.ttl == c.staleTtl))
  }

  ghost function EncodedSaid(said: Said): Payload
    requires GoodSaid(said)
  {
    Encode(said.query, said.bars)
  }

  /** The answer is something the provider said earlier for the same query, still within the lifetime chosen when it was written. */
  ghost predicate FromEarlier(w: World, q: Query, bars: seq<Bar>, e: Entry, at: int) {
    && e.source < |w.log| && w.log[e.source].query == q && w.log[e.source].bars == bars
    && w.log[e.source].at <= e.chosen <= e.written <= at < e.written + e.ttl
  }

  ghost predicate GoodCall(c: Config, w: World, call: Call) {
    && IsQuery(call.query)
    && match call.phase
       case Looking => call.replied.None? && call.attempts == 0
       case Asking(_) => call.replied.None? && call.attempts == 0
       case Falling => call.replied == Some(Retryable) && 1 <= call.attempts <= c.maxAttempts
       case Writing(source) => Replied(c, w, call, source)
       case WritingStale(source) => Replied(c, w, call, source)
       case Answered(outcome) => GoodOutcome(c, w, call, outcome)
  }

  ghost predicate Replied(c: Config, w: World, call: Call, source: nat) {
    && source < |w.log| && GoodSaid(w.log[source]) && w.log[source].query == call.query
    && call.replied.Some? && call.replied.value.Answer? && call.replied.value.value == w.log[source].bars
    && 1 <= call.attempts <= c.maxAttempts
  }

  ghost predicate GoodOutcome(c: Config, w: World, call: Call, outcome: Outcome) {
    match outcome
    case Hit(bars, e, at) =>
      && call.replied.None? && call.attempts == 0
      && FromEarlier(w, call.query, bars, e, at) && at <= w.now
      && e.ttl == FreshTtl(c, call.query, c.clock(e.chosen))
    case Stale(bars, e, at) =>
      && call.replied == Some(Retryable) && 1 <= call.attempts <= c.maxAttempts
      && FromEarlier(w, call.query, bars, e, at) && at <= w.now && e.ttl == c.staleTtl
    case Fresh(bars, source) => Replied(c, w, call, source) && bars == w.log[source].bars
    case Failed(transient) =>
      && call.replied == Some(if transient then Retryable else Permanent) && 1 <= call.attempts <= c.maxAttempts
  }

  ghost predicate GoodLog(w: World) {
    forall i :: 0 <= i < |w.log| ==> GoodSaid(w.log[i]) && w.log[i].at <= w.now
  }

  ghost predicate Invariant(c: Config, w: World) {
    && GoodLog(w)
    && (forall key :: key in w.entries ==> GoodEntry(c, w, key, w.entries[key]))
    && (forall id :: id in w.calls ==> GoodCall(c, w, w.calls[id]))
  }

  ghost predicate Later(w: World, w': World) {
    w.log <= w'.log && w.now <= w'.now
  }

  lemma EntryStaysGood(c: Config, w: World, w': World, key: string, e: Entry)
    requires GoodEntry(c, w, key, e) && Later(w, w')
    ensures GoodEntry(c, w', key, e)
  {
    hide Key, StaleKey, GoodSaid, EncodedSaid, FreshTtl;
  }

  lemma CallStaysGood(c: Config, w: World, w': World, call: Call)
    requires GoodCall(c, w, call) && Later(w, w')
    ensures GoodCall(c, w', call)
  {
    hide GoodSaid, FreshTtl;
  }

  /** A step that moves one call and possibly writes one entry. */
  lemma StepKeepsOthers(c: Config, w: World, w': World, id: nat)
    requires Invariant(c, w) && Later(w, w') && GoodLog(w')
    requires id in w'.calls && w'.calls == w.calls[id := w'.calls[id]] && GoodCall(c, w', w'.calls[id])
    requires forall key :: key in w'.entries ==> (key in w.entries && w'.entries[key] == w.entries[key]) || GoodEntry(c, w', key, w'.entries[key])
    ensures Invariant(c, w')
  {
    hide GoodEntry, GoodCall, GoodLog;
    forall key | key in w'.entries ensures GoodEntry(c, w', key, w'.entries[key]) {
      if key in w.entries && w'.entries[key] == w.entries[key] {
        EntryStaysGood(c, w, w', key, w.entries[key]);
      }
    }
    forall other | other in w'.calls ensures GoodCall(c, w', w'.calls[other]) {
      if other != id {
        CallStaysGood(c, w, w', w.calls[other]);
      }
    }
  }

  lemma SpoiledStaysGood(c: Config, w: World, key: string, e: Entry)
    requires GoodEntry(c, w, key, e)
    ensures GoodEntry(c, w, key, e.(payload := NotJson))
  {
    hide Key, StaleKey, GoodSaid, EncodedSaid, FreshTtl;
  }

  lemma EnvironmentFrame(w: World, w': World)
    requires EnvironmentStep(w, w')
    ensures Later(w, w') && w'.calls == w.calls && w'.log == w.log
  {}

  lemma LogStaysGood(w: World, w': World)
    requires GoodLog(w) && w'.log == w.log && w.now <= w'.now
    ensures GoodLog(w')
  {
    hide GoodSaid;
  }

  lemma EnvironmentKeeps(c: Config, w: World, w': World)
    requires Invariant(c, w) && EnvironmentStep(w, w')
    ensures Invariant(c, w')
  {
    hide GoodCall, GoodLog, GoodEntry, EnvironmentStep;
    EnvironmentFrame(w, w');
    LogStaysGood(w, w');
    forall id | id in w'.calls ensures GoodCall(c, w', w'.calls[id]) {
      CallStaysGood(c, w, w', w.calls[id]);
    }
    forall key | key in w'.entries ensures GoodEntry(c, w', key, w'.entries[key]) {
      EnvironmentEntries(w, w', key);
      EntryStaysGood(c, w, w', key, w.entries[key]);
      SpoiledStaysGood(c, w', key, w.entries[key]);
    }
  }

  /** The environment drops entries or spoils their text; it never invents one. */
  lemma EnvironmentEntries(w: World, w': World, key: string)
    requires EnvironmentStep(w, w') && key in w'.entries
    ensures key in w.entries
    ensures w'.entries[key] == w.entries[key] || w'.entries[key] == w.entries[key].(payload := NotJson)
  {}

  lemma BeginKeeps(c: Config, w: World, id: nat, symbol: string, start: Day, end: Day)
    requires Invariant(c, w) && id !in w.calls && IsDay(start) && IsDay(end)
    ensures Invariant(c, Begin(w, id, symbol, start, end))
  {
    hide Normalize, GoodEntry, GoodLog;
    var w' := Begin(w, id, symbol, start, end);
    LogStaysGood(w, w');
    StepKeepsOthers(c, w, w', id);
  }

  /** An entry under a fresh key holds what the provider said for that very query. */
  lemma FreshEntryIs(c: Config, w: World, q: Query, e: Entry)
    requires IsQuery(q) && GoodEntry(c, w, Key(c.prefix, q), e) && Decode(e.payload, q).Ok?
    ensures w.log[e.source].query == q && Decode(e.payload, q).value == w.log[e.source].bars
    ensures e.ttl == FreshTtl(c, q, c.clock(e.chosen))
  {
    var said := w.log[e.source];
    FreshIsNeverStale(c.prefix, q, said.query);
    KeyInjective(c.prefix, q, said.query);
    CodecRoundTrip(said.query, said.bars);
    hide Key, StaleKey, Decode, Encode, GoodSeries, FreshTtl;
  }

  lemma StaleEntryIs(c: Config, w: World, q: Query, e: Entry)
    requires IsQuery(q) && GoodEntry(c, w, StaleKey(Key(c.prefix, q)), e) && Decode(e.payload, q).Ok?
    ensures w.log[e.source].query == q && Decode(e.payload, q).value == w.log[e.source].bars && e.ttl == c.staleTtl
  {
    var said := w.log[e.source];
    FreshIsNeverStale(c.prefix, said.query, q);
    StaleKeyInjective(c.prefix, q, said.query);
    CodecRoundTrip(said.query, said.bars);
    hide Key, StaleKey, Decode, Encode, GoodSeries, FreshTtl;
  }

  lemma LookKeeps(c: Config, w: World, id: nat, readFails: bool)
    requires Invariant(c, w) && id in w.calls && w.calls[id].phase.Looking?
    ensures IsQuery(w.calls[id].query) && Invariant(c, Look(c, w, id, readFails))
  {
    hide GoodEntry, GoodLog, Key, Decode, FreshTtl;
    assert GoodCall(c, w, w.calls[id]);
    var q := w.calls[id].query;
    var cached := Read(w.entries, w.now, Key(c.prefix, q));
    var w' := Look(c, w, id, readFails);
    if cached.Some? && Decode(cached.value.payload, q).Ok? {
      FreshEntryIs(c, w, q, cached.value);
      EntryTimes(c, w, Key(c.prefix, q), cached.value);
    }
    LogStaysGood(w, w');
    StepKeepsOthers(c, w, w', id);
  }

  lemma EntryTimes(c: Config, w: World, key: string, e: Entry)
    requires GoodEntry(c, w, key, e)
    ensures e.source < |w.log| && e.expires == e.written + e.ttl && w.log[e.source].at <= e.chosen <= e.written <= w.now
  {}

  lemma FallBackKeeps(c: Config, w: World, id: nat, readFails: bool)
    requires Invariant(c, w) && id in w.calls && w.calls[id].phase.Falling?
    ensures IsQuery(w.calls[id].query) && Invariant(c, FallBack(c, w, id, readFails))
  {
    hide GoodEntry, GoodLog, Key, StaleKey, Decode, FreshTtl;
    assert GoodCall(c, w, w.calls[id]);
    var q := w.calls[id].query;
    var cached := Read(w.entries, w.now, StaleKey(Key(c.prefix, q)));
    var w' := FallBack(c, w, id, readFails);
    if cached.Some? && Decode(cached.value.payload, q).Ok? {
      StaleEntryIs(c, w, q, cached.value);
      EntryTimes(c, w, StaleKey(Key(c.prefix, q)), cached.value);
    }
    LogStaysGood(w, w');
    StepKeepsOthers(c, w, w', id);
  }

  lemma AskKeeps(c: Config, w: World, id: nat, script: seq<Reply<seq<Bar>>>)
    requires Invariant(c, w) && id in w.calls && w.calls[id].phase.Asking?
    requires script != [] && GoodScript(c, script, w.calls[id].query)
    ensures Invariant(c, Ask(w, id, w.calls[id].phase.cacheAvailable, script))
  {
    hide GoodEntry, Calls, GoodSeries, FreshTtl;
    assert GoodCall(c, w, w.calls[id]);
    var w' := Ask(w, id, w.calls[id].phase.cacheAvailable, script);
    StepKeepsOthers(c, w, w', id);
  }

  lemma SaidDays(said: Said)
    requires GoodSaid(said)
    ensures Writable(said)
  {}

  /** A written value is good under the fresh key with a fresh lifetime, and under the stale key with the stale one. */
  lemma PutGood(c: Config, w: World, source: nat, ttl: nat, chosen: int)
    requires source < |w.log| && GoodSaid(w.log[source]) && w.log[source].at <= chosen <= w.now
    ensures var said := w.log[source];
            && (ttl == FreshTtl(c, said.query, c.clock(chosen)) ==>
                 GoodEntry(c, w, Key(c.prefix, said.query), Entry(EncodedSaid(said), w.now + ttl, source, w.now, ttl, chosen)))
            && (ttl == c.staleTtl ==>
                 GoodEntry(c, w, StaleKey(Key(c.prefix, said.query)), Entry(EncodedSaid(said), w.now + ttl, source, w.now, ttl, chosen)))
  {
    hide Key, StaleKey, GoodSaid, EncodedSaid, FreshTtl;
    SaidDays(w.log[source]);
  }

  lemma WritePremises(c: Config, w: World, id: nat, source: nat)
    requires Invariant(c, w) && id in w.calls && (w.calls[id].phase == Writing(source) || w.calls[id].phase == WritingStale(source))
    ensures Replied(c, w, w.calls[id], source) && IsQuery(w.calls[id].query) && w.log[source].at <= w.now
    ensures Writable(w.log[source])
  {
    assert GoodCall(c, w, w.calls[id]);
    SaidDays(w.log[source]);
  }

  lemma RepliedStays(c: Config, w: World, w': World, call: Call, call': Call, source: nat)
    requires Replied(c, w, call, source) && w'.log == w.log
    requires call'.query == call.query && call'.replied == call.replied && call'.attempts == call.attempts
    ensures Replied(c, w', call', source)
  {
    hide GoodSaid;
  }

  lemma WriteFreshKeeps(c: Config, w: World, id: nat, source: nat, chosen: int, result: WriteResult)
    requires Invariant(c, w) && id in w.calls && w.calls[id].phase == Writing(source)
    requires source < |w.log| && w.log[source].at <= chosen <= w.now
    ensures Writable(w.log[source])
    ensures Invariant(c, WriteFresh(c, w, id, source, chosen, result))
  {
    hide GoodLog, Key, StaleKey, Encode, GoodEntry, FreshTtl, Replied, GoodSaid, Invariant;
    WritePremises(c, w, id, source);
    ReplySaid(c, w, w.calls[id], source);
    var w' := WriteFresh(c, w, id, source, chosen, result);
    var said := w.log[source];
    var ttl := FreshTtl(c, said.query, c.clock(chosen));
    LogOf(c, w, w');
    PutGood(c, w, source, ttl, chosen);
    EntryStaysGood(c, w, w', Key(c.prefix, said.query), Entry(EncodedSaid(said), w.now + ttl, source, w.now, ttl, chosen));
    RepliedStays(c, w, w', w.calls[id], w'.calls[id], source);
    StepKeepsOthers(c, w, w', id);
  }

  lemma ReplySaid(c: Config, w: World, call: Call, source: nat)
    requires Replied(c, w, call, source)
    ensures source < |w.log| && GoodSaid(w.log[source])
  {}

  lemma LogOf(c: Config, w: World, w': World)
    requires Invariant(c, w) && w'.log == w.log && w'.now == w.now
    ensures GoodLog(w')
  {
    LogStaysGood(w, w');
  }

  lemma WriteShadowKeeps(c: Config, w: World, id: nat, source: nat, result: WriteResult)
    requires Invariant(c, w) && id in w.calls && w.calls[id].phase == WritingStale(source)
    ensures source < |w.log| && Writable(w.log[source])
    ensures Invariant(c, WriteShadow(c, w, id, source, result))
  {
    hide GoodLog, Key, StaleKey, Encode, GoodEntry, FreshTtl, Replied, GoodSaid, Invariant;
    WritePremises(c, w, id, source);
    ReplySaid(c, w, w.calls[id], source);
    var w' := WriteShadow(c, w, id, source, result);
    var said := w.log[source];
    LogOf(c, w, w');
    PutGood(c, w, source, c.staleTtl, w.now);
    EntryStaysGood(c, w, w', StaleKey(Key(c.prefix, said.query)), Entry(EncodedSaid(said), w.now + c.staleTtl, source, w.now, c.staleTtl, w.now));
    RepliedStays(c, w, w', w.calls[id], w'.calls[id], source);
    StepKeepsOthers(c, w, w', id);
  }

  lemma CallKeeps(c: Config, w: World, w': World, id: nat)
    requires Invariant(c, w) && CallStep(c, w, w', id)
    ensures Invariant(c, w')
  {
    hide Invariant, Begin, Look, Ask, FallBack, WriteFresh, WriteShadow, GoodScript;
    if id !in w.calls {
      var symbol: string, start: Day, end: Day :| IsDay(start) && IsDay(end) && w' == Begin(w, id, symbol, start, end);
      BeginKeeps(c, w, id, symbol, start, end);
    } else {
      match w.calls[id].phase
      case Looking =>
        var fails: bool :| w' == Look(c, w, id, fails);
        LookKeeps(c, w, id, fails);
      case Asking(available) =>
        var script: seq<Reply<seq<Bar>>> :|
          script != [] && GoodScript(c, script, w.calls[id].query) && w' == Ask(w, id, available, script);
        AskKeeps(c, w, id, script);
      case Falling =>
        var fails: bool :| w' == FallBack(c, w, id, fails);
        FallBackKeeps(c, w, id, fails);
      case Writing(source) =>
        var chosen: int, result: WriteResult :|
          w.log[source].at <= chosen <= w.now && w' == WriteFresh(c, w, id, source, chosen, result);
        WriteFreshKeeps(c, w, id, source, chosen, result);
      case WritingStale(source) =>
        var result: WriteResult :| w' == WriteShadow(c, w, id, source, result);
        WriteShadowKeeps(c, w, id, source, result);
      case Answered(_) =>
        assert false;
    }
  }

  lemma InitialInvariant(c: Config, w: World)
    requires Initial(w)
    ensures Invariant(c, w)
  {}

  lemma NextKeeps(c: Config, w: World, w': World)
    requires Invariant(c, w) && Next(c, w, w')
    ensures Invariant(c, w')
  {
    hide Invariant, EnvironmentStep, CallStep;
    if EnvironmentStep(w, w') {
      EnvironmentKeeps(c, w, w');
    } else {
      var id: nat :| CallStep(c, w, w', id);
      CallKeeps(c, w, w', id);
    }
  }

  lemma {:induction false} RunInvariant(c: Config, run: seq<World>, k: nat)
    requires IsRun(c, run) && k < |run|
    ensures Invariant(c, run[k])
  {
    hide Invariant, Next;
    if k == 0 {
      InitialInvariant(c, run[0]);
    } else {
      RunInvariant(c, run, k - 1);
      NextKeeps(c, run[k - 1], run[k]);
    }
  }

  /**
   * A non-stale hit, in any run: the bars are an earlier answer of the provider to the same
   * normalised query, read back less than the lifetime after it was written, where the lifetime
   * is the one chosen by the date shown between the answer and the write; so a range still open
   * then is served for less than the short lifetime. The call asked the provider nothing.
   */
  lemma HitsAreEarlierAnswers(c: Config, run: seq<World>, k: nat, id: nat)
    requires IsRun(c, run) && k < |run| && id in run[k].calls
    requires run[k].calls[id].phase.Answered? && run[k].calls[id].phase.outcome.Hit?
    ensures var call, hit := run[k].calls[id], run[k].calls[id].phase.outcome;
            && call.attempts == 0
            && hit.entry.source < |run[k].log|
            && run[k].log[hit.entry.source].query == call.query
            && run[k].log[hit.entry.source].bars == hit.bars
            && run[k].log[hit.entry.source].at <= hit.entry.chosen <= hit.entry.written <= hit.at
            && hit.at < hit.entry.written + hit.entry.ttl
            && hit.entry.ttl == FreshTtl(c, call.query, c.clock(hit.entry.chosen))
            && (DayLe(c.clock(hit.entry.chosen), call.query.end) ==> hit.at < hit.entry.written + c.mutableTtl)
  {
    hide IsRun, GoodEntry, GoodLog;
    RunInvariant(c, run, k);
    assert GoodCall(c, run[k], run[k].calls[id]);
  }

  /**
   * A stale answer, in any run: this call's provider failed transiently after all its retries,
   * and the bars are an earlier answer to the same query still within the stale lifetime.
   */
  lemma StaleOnlyAfterTransientFailure(c: Config, run: seq<World>, k: nat, id: nat)
    requires IsRun(c, run) && k < |run| && id in run[k].calls
    requires run[k].calls[id].phase.Answered? && run[k].calls[id].phase.outcome.Stale?
    ensures var call, stale := run[k].calls[id], run[k].calls[id].phase.outcome;
            && call.replied == Some(Retryable) && 1 <= call.attempts <= c.maxAttempts
            && stale.entry.source < |run[k].log|
            && run[k].log[stale.entry.source].query == call.query
            && run[k].log[stale.entry.source].bars == stale.bars
            && run[k].log[stale.entry.source].at <= stale.entry.written <= stale.at < stale.entry.written + c.staleTtl
  {
    hide IsRun, GoodEntry, GoodLog;
    RunInvariant(c, run, k);
    assert GoodCall(c, run[k], run[k].calls[id]);
  }

  /** Every other answer: fresh bars are this call's own reply, and failures are this call's own failures. */
  lemma OtherAnswersAreOwnReplies(c: Config, run: seq<World>, k: nat, id: nat)
    requires IsRun(c, run) && k < |run| && id in run[k].calls && run[k].calls[id].phase.Answered?
    ensures var call := run[k].calls[id];
            && (call.phase.outcome.Fresh? ==> call.replied == Some(Reply.Answer(call.phase.outcome.bars)))
            && (call.phase.outcome.Failed? ==> call.replied == Some(if call.phase.outcome.transient then Retryable else Permanent))
            && (!call.phase.outcome.Hit? ==> 1 <= call.attempts <= c.maxAttempts)
  {
    hide IsRun, GoodEntry, GoodLog;
    RunInvariant(c, run, k);
    assert GoodCall(c, run[k], run[k].calls[id]);
  }
}
