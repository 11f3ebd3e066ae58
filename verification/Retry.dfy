/** Bounded retry with exponential backoff around a market-data provider. */
module Retry {
  /** What one provider call does: an answer, a transient failure or a permanent one. */
  datatype Reply<T> = Answer(value: T) | Retryable | Permanent

  function Power2(n: nat): nat {
    if n == 0 then 1 else 2 * Power2(n - 1)
  }

  /** The number of calls made: up to the first reply that is not a transient failure, at most all of them. */
  function Calls<T>(script: seq<Reply<T>>): (k: nat)
    requires script != []
    ensures 1 <= k <= |script|
    ensures forall i :: 0 <= i < k - 1 ==> script[i].Retryable?
    ensures k == |script| || !script[k - 1].Retryable?
  {
    if |script| == 1 || !script[0].Retryable? then 1 else 1 + Calls(script[1..])
  }

  /** Those three clauses determine the number of calls. */
  lemma {:induction false} CallsUnique<T>(script: seq<Reply<T>>, k: nat)
    requires script != [] && 1 <= k <= |script|
    requires forall i :: 0 <= i < k - 1 ==> script[i].Retryable?
    requires k == |script| || !script[k - 1].Retryable?
    ensures k == Calls(script)
  {
    if |script| > 1 && script[0].Retryable? {
      var rest := script[1..];
      assert forall i :: 0 <= i < k - 2 ==> rest[i] == script[i + 1];
      CallsUnique(rest, k - 1);
    }
  }

  /** The sleep after the failed attempt number k + 1. */
  function Delay(b: real, k: nat): real {
    b * Power2(k) as real
  }

  /** The sleeps b, 2b, 4b, ... between k + 1 attempts. */
  function Delays(b: real, k: nat): (r: seq<real>)
    ensures |r| == k && forall i :: 0 <= i < k ==> r[i] == Delay(b, i)
  {
    seq(k, i requires 0 <= i => Delay(b, i))
  }

  function Total(delays: seq<real>): real {
    if delays == [] then 0.0 else Total(delays[..|delays| - 1]) + delays[|delays| - 1]
  }

  lemma DelaysStep(b: real, k: nat)
    requires k > 0
    ensures Delays(b, k) == Delays(b, k - 1) + [Delay(b, k - 1)]
  {}

  /** Together k sleeps last b * (2^k - 1). */
  lemma {:induction false} TotalBackoff(b: real, k: nat)
    ensures Total(Delays(b, k)) == b * (Power2(k) - 1) as real
  {
    if k > 0 {
      TotalBackoff(b, k - 1);
      assert Delays(b, k)[..k - 1] == Delays(b, k - 1);
      var p := Power2(k - 1) as real;
      assert b * (p - 1.0) + b * p == b * (2.0 * p - 1.0);
    }
  }

  /** The provider and the sleeper, seen through the calls made and the delays slept. */
  class RetryingMarketDataProvider<T(0)> {
    const maxAttempts: nat
    const initialBackoff: real
    var calls: nat
    var delays: seq<real>

    constructor (maxAttempts: nat, initialBackoff: real)
      requires maxAttempts >= 1 && initialBackoff >= 0.0
      ensures this.maxAttempts == maxAttempts && this.initialBackoff == initialBackoff
      ensures calls == 0 && delays == []
    {
      this.maxAttempts, this.initialBackoff := maxAttempts, initialBackoff;
      calls, delays := 0, [];
    }

    /**
     * Makes k calls, the last of which decides, and sleeps b, 2b, 4b, ... between them, which
     * comes to b * (2^(k-1) - 1).
     * `script` holds the replies to come.
     */
    method Attempt(script: seq<Reply<T>>) returns (r: Reply<T>)
      requires maxAttempts >= 1 && |script| == maxAttempts
      modifies this`calls, this`delays
      ensures calls == old(calls) + Calls(script) && Calls(script) <= maxAttempts
      ensures r == script[Calls(script) - 1]
      ensures delays == old(delays) + Delays(initialBackoff, Calls(script) - 1)
      ensures Total(delays[|old(delays)|..]) == initialBackoff * (Power2(Calls(script) - 1) - 1) as real
    {
      hide Power2, Calls, Delay, Total;
      for attempt := 1 to maxAttempts + 1
        invariant attempt <= maxAttempts
        invariant forall i :: 0 <= i < attempt - 1 ==> script[i].Retryable?
        invariant calls == old(calls) + attempt - 1
        invariant delays == old(delays) + Delays(initialBackoff, attempt - 1)
      {
        calls := calls + 1;
        var reply := script[attempt - 1];
        if !reply.Retryable? || attempt == maxAttempts {
          CallsUnique(script, attempt);
          TotalBackoff(initialBackoff, attempt - 1);
          assert delays[|old(delays)|..] == Delays(initialBackoff, attempt - 1);
          return reply;
        }
        DelaysStep(initialBackoff, attempt);
        delays := delays + [Delay(initialBackoff, attempt - 1)];
      }
      assert false;
    }
  }
}
