/** The fixed-window limiter on a shared Redis counter. */
module RateLimit {
  datatype Rule = Rule(scope: string, limit: nat, window: nat)

  predicate IsRule(r: Rule) {
    r.scope != "" && r.limit >= 1 && r.window >= 1
  }

  /** `{namespace}:v1:{scope}:{bucket}:{digest}`; the digest stands for the identifier. */
  datatype CounterKey = CounterKey(scope: string, bucket: int, identifier: string)

  datatype Counter = Counter(count: nat, expires: real)

  type Counters = map<CounterKey, Counter>

  function Bucket(now: real, window: nat): int
    requires window >= 1
  {
    (now / window as real).Floor
  }

  /** The instant `count` windows after time zero. */
  function Windows(count: real, window: real): real {
    count * window
  }

  function WindowEnd(bucket: int, window: nat): real {
    Windows((bucket + 1) as real, window as real)
  }

  function Ceiling(x: real): int {
    -((-x).Floor)
  }

  /** Seconds until the window ends, rounded up, at least one. */
  function ExpiresIn(now: real, window: nat): int
    requires window >= 1
  {
    var seconds := Ceiling(WindowEnd(Bucket(now, window), window) - now);
    if seconds >= 1 then seconds else 1
  }

  /** INCR, with EXPIRE on the first hit: the counters afterwards. */
  function Incremented(counters: Counters, key: CounterKey, expiresIn: int, now: real): Counters {
    if key in counters && now < counters[key].expires
    then counters[key := Counter(counters[key].count + 1, counters[key].expires)]
    else counters[key := Counter(1, now + expiresIn as real)]
  }

  /** TTL, rounded to the nearest second. */
  function RoundedTtl(counter: Counter, now: real): int {
    (counter.expires - now + 0.5).Floor
  }

  datatype Decision = Admitted | Limited(retryAfter: int)

  datatype Request = Request(at: real, rule: Rule, identifier: string)

  function KeyOf(r: Request): CounterKey
    requires IsRule(r.rule)
  {
    CounterKey(r.rule.scope, Bucket(r.at, r.rule.window), r.identifier)
  }

  function Served(counters: Counters, r: Request): Counters
    requires IsRule(r.rule)
  {
    Incremented(counters, KeyOf(r), ExpiresIn(r.at, r.rule.window), r.at)
  }

  function Decide(counters: Counters, r: Request): Decision
    requires IsRule(r.rule)
  {
    var counter := Served(counters, r)[KeyOf(r)];
    if counter.count > r.rule.limit then
      var ttl := RoundedTtl(counter, r.at);
      Limited(if ttl >= 1 then ttl else 1)
    else Admitted
  }

  class RedisFixedWindowRateLimiter {
    /** The shared counters, expired ones included until they are touched. */
    var counters: Counters

    constructor ()
      ensures counters == map[]
    {
      counters := map[];
    }

    /** The script: INCR, EXPIRE on the first hit, TTL. */
    method Eval(key: CounterKey, expiresIn: int, now: real) returns (count: nat, ttl: int)
      modifies this
      ensures counters == Incremented(old(counters), key, expiresIn, now)
      ensures count == counters[key].count && ttl == RoundedTtl(counters[key], now)
    {
      var current := 1;
      var expires := now + expiresIn as real;
      if key in counters && now < counters[key].expires {
        current := counters[key].count + 1;
        expires := counters[key].expires;
      }
      counters := counters[key := Counter(current, expires)];
      return current, (expires - now + 0.5).Floor;
    }

    /** An unhealthy Redis lets the request through. */
    method Enforce(r: Request, healthy: bool) returns (d: Decision)
      requires IsRule(r.rule)
      modifies this
      ensures healthy ==> counters == Served(old(counters), r) && d == Decide(old(counters), r)
      ensures !healthy ==> counters == old(counters) && d == Admitted
    {
      var now := r.at;
      var bucket := Bucket(now, r.rule.window);
      var windowEnd := WindowEnd(bucket, r.rule.window);
      var expiresIn := Ceiling(windowEnd - now);
      if expiresIn < 1 {
        expiresIn := 1;
      }
      if !healthy {
        return Admitted;
      }
      var count, ttl := Eval(CounterKey(r.rule.scope, bucket, r.identifier), expiresIn, now);
      if count > r.rule.limit {
        return Limited(if ttl >= 1 then ttl else 1);
      }
      return Admitted;
    }
  }

  lemma FloorBounds(x: real)
    ensures x.Floor as real <= x < x.Floor as real + 1.0
  {}

  lemma ScaleUp(a: real, b: real, w: real)
    requires w > 0.0 && a <= b
    ensures Windows(a, w) <= Windows(b, w)
  {}

  lemma ScaleUpStrict(a: real, b: real, w: real)
    requires w > 0.0 && a < b
    ensures Windows(a, w) < Windows(b, w)
  {}

  lemma Quotient(x: real, w: real)
    requires w > 0.0
    ensures Windows(x / w, w) == x
  {}

  lemma FloorTimes(now: real, w: real, q: real)
    requires w > 0.0 && Windows(q, w) == now
    ensures Windows(q.Floor as real, w) <= now < Windows((q.Floor + 1) as real, w)
  {
    hide Windows;
    var lo, hi := q.Floor as real, (q.Floor + 1) as real;
    FloorBounds(q);
    ScaleUp(lo, q, w);
    ScaleUpStrict(q, hi, w);
  }

  /** A request falls inside its bucket's window. */
  lemma InsideBucket(now: real, window: nat)
    requires window >= 1
    ensures Windows(Bucket(now, window) as real, window as real) <= now < WindowEnd(Bucket(now, window), window)
  {
    Quotient(now, window as real);
    FloorTimes(now, window as real, now / window as real);
  }

  lemma CeilingBound(x: real)
    ensures Ceiling(x) as real >= x
  {}

  /** A counter created inside a bucket lives at least until the bucket ends. */
  lemma LivesToWindowEnd(now: real, window: nat)
    requires window >= 1
    ensures now + ExpiresIn(now, window) as real >= WindowEnd(Bucket(now, window), window)
  {
    hide WindowEnd, Bucket, Ceiling;
    CeilingBound(WindowEnd(Bucket(now, window), window) - now);
  }

  /** A run: one shared clock, so times do not go back; one rule per scope. */
  ghost predicate IsTraffic(rs: seq<Request>) {
    && (forall i :: 0 <= i < |rs| ==> IsRule(rs[i].rule))
    && (forall i, j :: 0 <= i < j < |rs| ==> rs[i].at <= rs[j].at)
    && (forall i, j :: 0 <= i < |rs| && 0 <= j < |rs| && rs[i].rule.scope == rs[j].rule.scope ==> rs[i].rule == rs[j].rule)
  }

  lemma TrafficPrefix(rs: seq<Request>, all: seq<Request>)
    requires IsTraffic(all) && rs <= all
    ensures IsTraffic(rs) && forall i :: 0 <= i < |rs| ==> IsRule(rs[i].rule)
  {
    assert forall i :: 0 <= i < |rs| ==> rs[i] == all[i];
  }

  function After(rs: seq<Request>): Counters
    requires forall i :: 0 <= i < |rs| ==> IsRule(rs[i].rule)
  {
    if rs == [] then map[] else Served(After(rs[..|rs| - 1]), rs[|rs| - 1])
  }

  /** Requests so far that hit the same counter. */
  function Hits(rs: seq<Request>, key: CounterKey): nat
    requires forall i :: 0 <= i < |rs| ==> IsRule(rs[i].rule)
  {
    if rs == [] then 0
    else Hits(rs[..|rs| - 1], key) + if KeyOf(rs[|rs| - 1]) == key then 1 else 0
  }

  function LastDecision(rs: seq<Request>): Decision
    requires rs != [] && forall i :: 0 <= i < |rs| ==> IsRule(rs[i].rule)
  {
    Decide(After(rs[..|rs| - 1]), rs[|rs| - 1])
  }

  /** Requests on one counter that were let through. */
  function AdmittedOn(rs: seq<Request>, key: CounterKey): nat
    requires forall i :: 0 <= i < |rs| ==> IsRule(rs[i].rule)
  {
    if rs == [] then 0
    else AdmittedOn(rs[..|rs| - 1], key) + if KeyOf(rs[|rs| - 1]) == key && LastDecision(rs).Admitted? then 1 else 0
  }

  /** Requests of one client under one rule let through in [from, to). */
  function AdmittedBetween(rs: seq<Request>, rule: Rule, identifier: string, from: real, to: real): nat
    requires forall i :: 0 <= i < |rs| ==> IsRule(rs[i].rule)
  {
    if rs == [] then 0
    else
      var r := rs[|rs| - 1];
      AdmittedBetween(rs[..|rs| - 1], rule, identifier, from, to)
      + if r.rule == rule && r.identifier == identifier && from <= r.at < to && LastDecision(rs).Admitted? then 1 else 0
  }

  ghost predicate CountsHits(counters: Counters, rs: seq<Request>, key: CounterKey)
    requires forall i :: 0 <= i < |rs| ==> IsRule(rs[i].rule)
  {
    && (key in counters <==> Hits(rs, key) > 0)
    && (key in counters ==> counters[key].count == Hits(rs, key))
  }

  ghost predicate OutlivesBucket(counters: Counters, rs: seq<Request>, key: CounterKey) {
    key in counters ==>
      forall i :: 0 <= i < |rs| && IsRule(rs[i].rule) && rs[i].rule.scope == key.scope ==> counters[key].expires >= WindowEnd(key.bucket, rs[i].rule.window)
  }

  /** Every counter holds its number of hits and never expires inside its bucket. */
  lemma {:induction false} CountersAreHits(rs: seq<Request>, all: seq<Request>, key: CounterKey)
    requires IsTraffic(all) && rs <= all
    ensures forall i :: 0 <= i < |rs| ==> IsRule(rs[i].rule)
    ensures CountsHits(After(rs), rs, key) && OutlivesBucket(After(rs), all, key)
  {
    hide WindowEnd, Bucket, ExpiresIn;
    TrafficPrefix(rs, all);
    if rs != [] {
      var n := |rs| - 1;
      var r := rs[n];
      CountersAreHits(rs[..n], all, key);
      CountersAreHits(rs[..n], all, KeyOf(r));
      InsideBucket(r.at, r.rule.window);
      LivesToWindowEnd(r.at, r.rule.window);
      assert all[n] == r;
    }
  }

  /** A request is let through exactly when it is among the first `limit` of its bucket. */
  lemma AdmittedIffWithinLimit(rs: seq<Request>)
    requires IsTraffic(rs) && rs != []
    ensures LastDecision(rs).Admitted? <==> Hits(rs, KeyOf(rs[|rs| - 1])) <= rs[|rs| - 1].rule.limit
  {
    CountersAreHits(rs, rs, KeyOf(rs[|rs| - 1]));
    hide After, Hits, KeyOf, ExpiresIn;
    AfterLast(rs);
  }

  /** Same scope, same client, and one window [m * length, (m + 1) * length) that holds both. */
  ghost predicate ShareWindow(a: Request, b: Request) {
    && a.rule.scope == b.rule.scope && a.identifier == b.identifier
    && exists m: int :: HoldsBoth(m, a, b)
  }

  ghost predicate HoldsBoth(m: int, a: Request, b: Request) {
    && Windows(m as real, a.rule.window as real) <= a.at < Windows((m + 1) as real, a.rule.window as real)
    && Windows(m as real, b.rule.window as real) <= b.at < Windows((m + 1) as real, b.rule.window as real)
  }

  lemma OneBucket(at: real, window: nat, m: int)
    requires window >= 1
    requires Windows(m as real, window as real) <= at < Windows((m + 1) as real, window as real)
    ensures Bucket(at, window) == m
  {
    InsideBucket(at, window);
    var k := Bucket(at, window);
    var w := window as real;
    if k < m {
      ScaleUp((k + 1) as real, m as real, w);
    } else if k > m {
      ScaleUp((m + 1) as real, k as real, w);
    }
    hide Windows;
  }

  lemma ShareWindowIff(a: Request, b: Request)
    requires IsRule(a.rule) && IsRule(b.rule) && (a.rule.scope == b.rule.scope ==> a.rule == b.rule)
    ensures ShareWindow(a, b) <==> KeyOf(a) == KeyOf(b)
  {
    hide Windows, Bucket;
    InsideBucket(a.at, a.rule.window);
    InsideBucket(b.at, b.rule.window);
    if KeyOf(a) == KeyOf(b) {
      assert HoldsBoth(Bucket(a.at, a.rule.window), a, b);
    }
    if ShareWindow(a, b) {
      var m :| HoldsBoth(m, a, b);
      OneBucket(a.at, a.rule.window, m);
      OneBucket(b.at, b.rule.window, m);
    }
  }

  /** Requests that share the window of r. */
  ghost function Sharing(rs: seq<Request>, r: Request): nat {
    if rs == [] then 0 else Sharing(rs[..|rs| - 1], r) + if ShareWindow(rs[|rs| - 1], r) then 1 else 0
  }

  lemma {:induction false} SharingIsHits(rs: seq<Request>, all: seq<Request>, r: Request)
    requires IsTraffic(all) && rs <= all && r in all
    ensures IsRule(r.rule) && forall i :: 0 <= i < |rs| ==> IsRule(rs[i].rule)
    ensures Sharing(rs, r) == Hits(rs, KeyOf(r))
  {
    hide KeyOf, ShareWindow, IsRule;
    TrafficPrefix(rs, all);
    if rs != [] {
      var n := |rs| - 1;
      SharingIsHits(rs[..n], all, r);
      assert all[n] == rs[n];
      ShareWindowIff(rs[n], r);
    }
  }

  /** A request is let through exactly when, itself included, at most `limit` of its client have come in its window. */
  lemma AdmittedIffFewShare(rs: seq<Request>)
    requires IsTraffic(rs) && rs != []
    ensures LastDecision(rs).Admitted? <==> Sharing(rs, rs[|rs| - 1]) <= rs[|rs| - 1].rule.limit
  {
    hide Sharing, Hits, LastDecision;
    SharingIsHits(rs, rs, rs[|rs| - 1]);
    AdmittedIffWithinLimit(rs);
  }

  lemma AfterLast(rs: seq<Request>)
    requires rs != [] && forall i :: 0 <= i < |rs| ==> IsRule(rs[i].rule)
    ensures After(rs) == Served(After(rs[..|rs| - 1]), rs[|rs| - 1])
  {}

  function Min(a: nat, b: nat): nat {
    if a <= b then a else b
  }

  /** Each bucket admits exactly min(requests, limit). */
  lemma {:induction false} BucketAdmitsExactly(rs: seq<Request>, all: seq<Request>, rule: Rule, bucket: int, identifier: string)
    requires IsTraffic(all) && rs <= all && IsRule(rule)
    requires forall i :: 0 <= i < |all| && all[i].rule.scope == rule.scope ==> all[i].rule == rule
    ensures forall i :: 0 <= i < |rs| ==> IsRule(rs[i].rule)
    ensures var key := CounterKey(rule.scope, bucket, identifier);
            AdmittedOn(rs, key) == Min(Hits(rs, key), rule.limit)
  {
    var key := CounterKey(rule.scope, bucket, identifier);
    hide IsTraffic, IsRule, LastDecision, Bucket, After;
    TrafficPrefix(rs, all);
    if rs != [] {
      var n := |rs| - 1;
      BucketAdmitsExactly(rs[..n], all, rule, bucket, identifier);
      AdmittedIffWithinLimit(rs);
      assert all[n] == rs[n];
    }
  }

  /** A request in [from, from + window) lies in the bucket of `from` or the next one. */
  lemma AtMostTwoBuckets(from: real, at: real, window: nat)
    requires window >= 1 && from <= at < from + window as real
    ensures Bucket(at, window) == Bucket(from, window) || Bucket(at, window) == Bucket(from, window) + 1
  {
    hide Windows;
    var w := window as real;
    var p, q := from / w, at / w;
    Quotient(from, w);
    Quotient(at, w);
    QuotientsWithinOne(from, at, w, p, q);
    FloorBounds(p);
    FloorBounds(q);
  }

  lemma LessFactor(a: real, b: real, w: real)
    requires w > 0.0 && Windows(a, w) < Windows(b, w)
    ensures a < b
  {
    if a >= b {
      ScaleUp(b, a, w);
    }
  }

  lemma PlusOne(p: real, w: real)
    ensures Windows(p + 1.0, w) == Windows(p, w) + w
  {}

  lemma QuotientsWithinOne(from: real, at: real, w: real, p: real, q: real)
    requires w > 0.0 && from <= at < from + w && Windows(p, w) == from && Windows(q, w) == at
    ensures p <= q < p + 1.0
  {
    hide Windows;
    if q < p {
      ScaleUpStrict(q, p, w);
    }
    PlusOne(p, w);
    LessFactor(q, p + 1.0, w);
  }

  lemma {:induction false} IntervalWithinTwoBuckets(rs: seq<Request>, rule: Rule, identifier: string, from: real)
    requires IsRule(rule) && forall i :: 0 <= i < |rs| ==> IsRule(rs[i].rule)
    ensures var b := Bucket(from, rule.window);
            AdmittedBetween(rs, rule, identifier, from, from + rule.window as real)
            <= AdmittedOn(rs, CounterKey(rule.scope, b, identifier)) + AdmittedOn(rs, CounterKey(rule.scope, b + 1, identifier))
  {
    if rs != [] {
      var r := rs[|rs| - 1];
      IntervalWithinTwoBuckets(rs[..|rs| - 1], rule, identifier, from);
      if r.rule == rule && from <= r.at < from + rule.window as real {
        AtMostTwoBuckets(from, r.at, rule.window);
      }
      hide LastDecision, Bucket;
    }
  }

  /** Any half-open interval of one window length admits at most twice the limit. */
  lemma SlidingIntervalBound(rs: seq<Request>, rule: Rule, identifier: string, from: real)
    requires IsTraffic(rs) && IsRule(rule)
    requires forall i :: 0 <= i < |rs| && rs[i].rule.scope == rule.scope ==> rs[i].rule == rule
    ensures AdmittedBetween(rs, rule, identifier, from, from + rule.window as real) <= 2 * rule.limit
  {
    hide AdmittedBetween, AdmittedOn, Bucket;
    var b := Bucket(from, rule.window);
    IntervalWithinTwoBuckets(rs, rule, identifier, from);
    BucketAdmitsExactly(rs, rs, rule, b, identifier);
    BucketAdmitsExactly(rs, rs, rule, b + 1, identifier);
  }

  /** The factor two is reached: the end of one bucket and the start of the next both admit in full. */
  lemma SlidingIntervalBoundReached()
    ensures var rule := Rule("s", 1, 1);
            var rs := [Request(0.5, rule, "x"), Request(1.0, rule, "x")];
            IsTraffic(rs) && AdmittedBetween(rs, rule, "x", 0.5, 1.5) == 2 * rule.limit
  {
    var rule := Rule("s", 1, 1);
    var a, b := Request(0.5, rule, "x"), Request(1.0, rule, "x");
    var rs := [a, b];
    assert rs[..1] == [a] && [a][..0] == [];
    assert Bucket(0.5, 1) == 0 && Bucket(1.0, 1) == 1;
    assert KeyOf(a) != KeyOf(b);
    AdmittedIffWithinLimit([a]);
    AdmittedIffWithinLimit(rs);
    assert Hits([], KeyOf(a)) == 0 && Hits([], KeyOf(b)) == 0;
    assert Hits([a], KeyOf(a)) == 1 && Hits([a], KeyOf(b)) == 0 && Hits(rs, KeyOf(b)) == 1;
    hide LastDecision, Hits;
    assert AdmittedBetween([], rule, "x", 0.5, 1.5) == 0;
    assert AdmittedBetween([a], rule, "x", 0.5, 1.5) == 1;
  }

  /** A refusal tells the client to wait at least a second, and half a second more than it says always reaches the next bucket. */
  lemma RetryAfterReachesNextBucket(rs: seq<Request>)
    requires IsTraffic(rs) && rs != [] && LastDecision(rs).Limited?
    ensures var r := rs[|rs| - 1];
            && LastDecision(rs).retryAfter >= 1
            && r.at + LastDecision(rs).retryAfter as real + 0.5 >= WindowEnd(Bucket(r.at, r.rule.window), r.rule.window)
  {
    var r := rs[|rs| - 1];
    CountersAreHits(rs, rs, KeyOf(r));
    AfterLast(rs);
    hide After, WindowEnd, ExpiresIn, Bucket;
    FloorBounds(After(rs)[KeyOf(r)].expires - r.at + 0.5);
  }

  function Fraction(x: real): real {
    x - x.Floor as real
  }

  /** The request that opened a counter. */
  function FirstHit(rs: seq<Request>, key: CounterKey): (first: Request)
    requires (forall i :: 0 <= i < |rs| ==> IsRule(rs[i].rule)) && Hits(rs, key) > 0
    ensures first in rs && IsRule(first.rule) && KeyOf(first) == key
  {
    var n := |rs| - 1;
    if Hits(rs[..n], key) > 0 then FirstHit(rs[..n], key) else rs[n]
  }

  /** A request finds the counter of its bucket unexpired, if there is one. */
  lemma CounterIsLive(rs: seq<Request>, all: seq<Request>)
    requires IsTraffic(all) && rs != [] && rs <= all
    ensures forall i :: 0 <= i < |rs| ==> IsRule(rs[i].rule)
    ensures var r, counters := rs[|rs| - 1], After(rs[..|rs| - 1]);
            && (KeyOf(r) in counters <==> Hits(rs[..|rs| - 1], KeyOf(r)) > 0)
            && (KeyOf(r) in counters ==> r.at < counters[KeyOf(r)].expires)
  {
    assert forall i :: 0 <= i < |rs| ==> rs[i] == all[i];
    var n := |rs| - 1;
    var r := rs[n];
    assert all[n] == r;
    CountersAreHits(rs[..n], all, KeyOf(r));
    InsideBucket(r.at, r.rule.window);
    hide WindowEnd, Bucket, After, Hits;
  }

  /** A counter keeps the expiry its first hit gave it, however often it is hit. */
  lemma {:induction false} ExpiryOfFirstHit(rs: seq<Request>, all: seq<Request>, key: CounterKey)
    requires IsTraffic(all) && rs <= all
    ensures forall i :: 0 <= i < |rs| ==> IsRule(rs[i].rule)
    ensures Hits(rs, key) > 0 ==>
      var first := FirstHit(rs, key);
      key in After(rs) && After(rs)[key].expires == first.at + ExpiresIn(first.at, first.rule.window) as real
  {
    hide IsTraffic, Bucket, ExpiresIn;
    TrafficPrefix(rs, all);
    if rs != [] {
      ExpiryOfFirstHit(rs[..|rs| - 1], all, key);
      CounterIsLive(rs, all);
    }
  }

  lemma FloorPlus(n: int, x: real)
    ensures (n as real + x).Floor == n + x.Floor
  {}

  /** Windows end at whole seconds. */
  lemma WindowEndIsWhole(bucket: int, window: nat) returns (end: int)
    ensures WindowEnd(bucket, window) == end as real
  {
    end := (bucket + 1) * window;
  }

  /** The expiry is the end of the window plus the fraction of a second at which the counter was opened. */
  lemma ExpiryIs(at: real, window: nat)
    requires window >= 1
    ensures at + ExpiresIn(at, window) as real == WindowEnd(Bucket(at, window), window) + Fraction(at)
  {
    hide Bucket, WindowEnd;
    InsideBucket(at, window);
    var end := WindowEndIsWhole(Bucket(at, window), window);
    FloorPlus(-end, at);
    assert -((end as real) - at) == ((-end) as real) + at;
  }

  /** The hint of a refusal at `now`, on a counter opened at `begun`, in a window that ends at `end`. */
  function Hint(begun: real, now: real, end: int): int {
    var ttl := ((end as real) + Fraction(begun) - now + 0.5).Floor;
    if ttl >= 1 then ttl else 1
  }

  lemma HintReachesIff(begun: real, now: real, end: int)
    requires now < end as real
    ensures now + Hint(begun, now, end) as real >= end as real
            <==> Fraction(now) <= Fraction(begun) + 0.5 || end - now.Floor <= 1
  {
    var shift := Fraction(begun) - Fraction(now) + 0.5;
    assert (end as real) + Fraction(begun) - now + 0.5 == (end - now.Floor) as real + shift;
    FloorPlus(end - now.Floor, shift);
  }

  /** A refusal's hint follows from the times of the request that opened the counter and of the refused one. */
  lemma RefusalHint(rs: seq<Request>) returns (end: int)
    requires IsTraffic(rs) && rs != [] && LastDecision(rs).Limited?
    ensures var r := rs[|rs| - 1];
            && r.at < WindowEnd(Bucket(r.at, r.rule.window), r.rule.window) == end as real
            && Hits(rs, KeyOf(r)) > 0
            && LastDecision(rs).retryAfter == Hint(FirstHit(rs, KeyOf(r)).at, r.at, end)
  {
    var r := rs[|rs| - 1];
    assert Hits(rs, KeyOf(r)) > 0;
    var first := FirstHit(rs, KeyOf(r));
    SameRule(rs, first, r);
    ExpiryOfFirstHit(rs, rs, KeyOf(r));
    ExpiryIs(first.at, first.rule.window);
    AfterLast(rs);
    InsideBucket(r.at, r.rule.window);
    end := WindowEndIsWhole(Bucket(r.at, r.rule.window), r.rule.window);
    hide After, WindowEnd, ExpiresIn, Bucket, Hits, FirstHit, Fraction;
  }

  lemma SameRule(rs: seq<Request>, a: Request, b: Request)
    requires IsTraffic(rs) && a in rs && b in rs && a.rule.scope == b.rule.scope
    ensures a.rule == b.rule
  {}

  /**
   * A refused client that waits as long as it is told reaches the next bucket exactly when it was
   * refused at most half a second later within its second than the counter was opened within its
   * own, or in the last second of the window.
   */
  lemma RetryAfterReachesIff(rs: seq<Request>)
    requires IsTraffic(rs) && rs != [] && LastDecision(rs).Limited?
    ensures var r := rs[|rs| - 1];
            Hits(rs, KeyOf(r)) > 0
            && var first, end := FirstHit(rs, KeyOf(r)), WindowEnd(Bucket(r.at, r.rule.window), r.rule.window);
            r.at + LastDecision(rs).retryAfter as real >= end
            <==> Fraction(r.at) <= Fraction(first.at) + 0.5 || end - r.at.Floor as real <= 1.0
  {
    hide LastDecision, Hits, FirstHit, Bucket, Fraction, WindowEnd, Hint;
    var r := rs[|rs| - 1];
    var end := RefusalHint(rs);
    HintReachesIff(FirstHit(rs, KeyOf(r)).at, r.at, end);
  }

  lemma OpenedEarly(a: Request)
    requires a == Request(0.25, Rule("s", 1, 10), "x")
    ensures KeyOf(a) == CounterKey("s", 0, "x")
    ensures After([a]) == map[KeyOf(a) := Counter(1, 10.25)]
  {
    assert [a][..0] == [];
    assert After([]) == map[];
    assert Bucket(0.25, 10) == 0;
    assert ExpiresIn(0.25, 10) == 10;
  }

  lemma RefusedLater(b: Request, counters: Counters)
    requires b == Request(0.875, Rule("s", 1, 10), "x")
    requires counters == map[CounterKey("s", 0, "x") := Counter(1, 10.25)]
    ensures Decide(counters, b) == Limited(9)
  {
    assert Bucket(0.875, 10) == 0;
    hide Bucket, ExpiresIn;
    assert Served(counters, b)[KeyOf(b)] == Counter(2, 10.25);
  }

  /** A refusal whose hint ends an eighth of a second before the next bucket. */
  lemma RetryAfterFallsShort()
    ensures var rule := Rule("s", 1, 10);
            var rs := [Request(0.25, rule, "x"), Request(0.875, rule, "x")];
            && IsTraffic(rs) && LastDecision(rs) == Limited(9)
            && WindowEnd(Bucket(0.875, 10), 10) == 10.0 && 0.875 + 9.0 < 10.0
  {
    hide After, Decide;
    var rule := Rule("s", 1, 10);
    var a, b := Request(0.25, rule, "x"), Request(0.875, rule, "x");
    assert [a, b][..1] == [a];
    assert Bucket(0.875, 10) == 0;
    OpenedEarly(a);
    RefusedLater(b, After([a]));
  }
}
