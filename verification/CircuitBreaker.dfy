/**
 The circuit breaker in front of S3 (dial9-destinations-s3/src/connection.rs).
 Instants and durations are nanoseconds.
 */
module CircuitBreaker {
  import opened Numbers

  const SECOND: nat := 1_000_000_000
  const INITIAL_BACKOFF: nat := 1 * SECOND
  const MAX_BACKOFF: nat := 300 * SECOND

  datatype Breaker = Closed | Open(nextRetry: nat, backoff: nat)

  predicate MayAttempt(b: Breaker, now: nat) {
    b.Open? ==> now >= b.nextRetry
  }

  function AfterFailure(b: Breaker, now: nat): Breaker {
    var backoff := if b.Closed? then INITIAL_BACKOFF else Min(b.backoff * 2, MAX_BACKOFF);
    Open(now + backoff, backoff)
  }

  class CircuitBreaker {
    var state: Breaker

    constructor ()
      ensures state == Closed
    {
      state := Closed;
    }

    predicate ShouldAttempt(now: nat)
      reads this
      ensures ShouldAttempt(now) <==> MayAttempt(state, now)
    {
      match state
      case Closed => true
      case Open(nextRetry, _) => now >= nextRetry
    }

    /** After waiting this long, and no sooner, an attempt is permitted. */
    function RetryDelay(now: nat): (delay: nat)
      reads this
      ensures MayAttempt(state, now + delay)
      ensures forall t: nat :: now <= t < now + delay ==> !MayAttempt(state, t)
    {
      match state
      case Closed => 0
      case Open(nextRetry, _) => if nextRetry >= now then nextRetry - now else 0
    }

    method OnSuccess()
      modifies this
      ensures state == Closed
    {
      state := Closed;
    }

    method OnFailure(now: nat)
      modifies this
      ensures state == AfterFailure(old(state), now)
    {
      var backoff;
      match state {
        case Closed => backoff := INITIAL_BACKOFF;
        case Open(_, last) => backoff := Min(last * 2, MAX_BACKOFF);
      }
      state := Open(now + backoff, backoff);
    }
  }

  // ----- Consecutive failures -----

  /** The state after failures at the given times, with no success in between. */
  function AfterFailures(times: seq<nat>): Breaker {
    if |times| == 0 then Closed
    else AfterFailure(AfterFailures(times[..|times| - 1]), times[|times| - 1])
  }

  /** The backoff that the `k`-th consecutive failure sets. */
  function BackoffOf(k: nat): nat
    requires k > 0
  {
    Min(Pow2(k - 1), 300) * SECOND
  }

  /** The k-th consecutive failure sets the backoff to min(2^(k-1), 300) seconds, counted from that failure. */
  lemma {:induction false} BackoffDoubles(times: seq<nat>)
    requires |times| > 0
    ensures AfterFailures(times) == Open(times[|times| - 1] + BackoffOf(|times|), BackoffOf(|times|))
  {
    var k := |times|;
    if k == 1 {
      assert times[..0] == [];
    } else {
      BackoffDoubles(times[..k - 1]);
      assert Pow2(k - 1) == 2 * Pow2(k - 2);
    }
  }

  // ----- Gated attempts -----

  /** One attempt: when the breaker was asked, and when the failure was recorded. */
  datatype Attempt = Attempt(asked: nat, failed: nat)

  function FailureTimes(attempts: seq<Attempt>): (times: seq<nat>)
    ensures |times| == |attempts| && forall i :: 0 <= i < |attempts| ==> times[i] == attempts[i].failed
  {
    seq(|attempts|, i requires 0 <= i < |attempts| => attempts[i].failed)
  }

  /** Every attempt was permitted when the breaker was asked, and failed at that time or later. */
  ghost predicate Gated(attempts: seq<Attempt>) {
    forall i :: 0 <= i < |attempts| ==>
      && attempts[i].asked <= attempts[i].failed
      && MayAttempt(AfterFailures(FailureTimes(attempts)[..i]), attempts[i].asked)
  }

  /** The sum of the first `n` backoffs, in seconds. */
  function BackoffSum(n: nat): nat {
    if n <= 9 then Pow2(n) - 1 else 511 + 300 * (n - 9)
  }

  lemma BackoffSumStep(n: nat)
    requires n > 0
    ensures BackoffSum(n) * SECOND == BackoffSum(n - 1) * SECOND + BackoffOf(n)
  {
    assert Pow2(8) == 256;
    if n > 9 {
      PowGrows(8, n - 1);
    } else {
      PowGrows(n - 1, 8);
    }
  }

  lemma {:induction false} PowGrows(m: nat, n: nat)
    requires m <= n
    ensures Pow2(m) <= Pow2(n)
    ensures m < n ==> 2 * Pow2(m) <= Pow2(n)
    decreases n
  {
    if m < n {
      PowGrows(m, n - 1);
    }
  }

  /**
   When attempts are gated, n + 1 failures with no success in between span at least the first n
   backoffs: 2^n - 1 seconds for n up to nine, and 511 + 300 (n - 9) seconds from there on.
   */
  lemma {:induction false} FailuresSpread(attempts: seq<Attempt>, n: nat)
    requires Gated(attempts) && n < |attempts|
    ensures attempts[n].failed >= attempts[0].failed + BackoffSum(n) * SECOND
  {
    if n > 0 {
      FailuresSpread(attempts, n - 1);
      BackoffSumStep(n);
      var times := FailureTimes(attempts)[..n];
      BackoffDoubles(times);
      assert times[n - 1] == attempts[n - 1].failed;
      assert MayAttempt(AfterFailures(times), attempts[n].asked);
    }
  }

  /** The bound is met: attempts made as soon as they are permitted fail exactly that far apart. */
  lemma {:induction false} SpreadIsTight(n: nat)
    ensures exists attempts: seq<Attempt> ::
      |attempts| == n + 1 && Gated(attempts) && attempts[n].failed == attempts[0].failed + BackoffSum(n) * SECOND
  {
    var attempts := Prompt(n);
    PromptGated(n);
    assert |attempts| == n + 1 && Gated(attempts) && attempts[n].failed == attempts[0].failed + BackoffSum(n) * SECOND;
  }

  /** Attempts at the earliest permitted times, failing at once. */
  function Prompt(n: nat): (attempts: seq<Attempt>)
    ensures |attempts| == n + 1
    ensures forall i :: 0 <= i <= n ==> attempts[i] == Attempt(BackoffSum(i) * SECOND, BackoffSum(i) * SECOND)
  {
    seq(n + 1, i requires 0 <= i <= n => Attempt(BackoffSum(i) * SECOND, BackoffSum(i) * SECOND))
  }

  lemma PromptGated(n: nat)
    ensures Gated(Prompt(n))
  {
    var attempts := Prompt(n);
    forall i | 0 <= i < |attempts|
      ensures MayAttempt(AfterFailures(FailureTimes(attempts)[..i]), attempts[i].asked)
    {
      if i > 0 {
        var times := FailureTimes(attempts)[..i];
        BackoffDoubles(times);
        BackoffSumStep(i);
        assert times[i - 1] == BackoffSum(i - 1) * SECOND;
      }
    }
  }
}
