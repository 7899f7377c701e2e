/** Exponential backoff with full jitter and a Retry-After floor. */
module Backoff {
  import opened Wrappers

  datatype BackoffPolicy = BackoffPolicy(baseDelay: real, maxDelay: real, maxRetries: int)

  function Min(a: real, b: real): real { if a <= b then a else b }

  function Max(a: real, b: real): real { if a >= b then a else b }

  function Pow2(n: nat): real {
    if n == 0 then 1.0 else 2.0 * Pow2(n - 1)
  }

  /** base * 2^n, written as n doublings so that proofs stay linear; `DoubledIsPower` says it is the product. */
  function Doubled(base: real, n: nat): (r: real)
    ensures base >= 0.0 ==> r >= 0.0
  {
    if n == 0 then base else 2.0 * Doubled(base, n - 1)
  }

  lemma {:induction false} DoubledIsPower(base: real, n: nat)
    ensures Doubled(base, n) == base * Pow2(n)
  {
    if n != 0 {
      DoubledIsPower(base, n - 1);
    }
  }

  function ExponentialCap(policy: BackoffPolicy, attempt: nat): real {
    Min(policy.maxDelay, Doubled(policy.baseDelay, attempt))
  }

  /** The ceiling of attempt n is the smaller of max_delay and base * 2^n. */
  lemma CapIsPower(policy: BackoffPolicy, attempt: nat)
    ensures ExponentialCap(policy, attempt) <= policy.maxDelay
    ensures ExponentialCap(policy, attempt) <= policy.baseDelay * Pow2(attempt)
    ensures ExponentialCap(policy, attempt) == policy.maxDelay
            || ExponentialCap(policy, attempt) == policy.baseDelay * Pow2(attempt)
  {
    DoubledIsPower(policy.baseDelay, attempt);
  }

  /** `jitter` is what `uniform(0, cap)` draws: any value between 0 and the cap. */
  predicate Drawn(policy: BackoffPolicy, attempt: nat, jitter: real) {
    var cap := ExponentialCap(policy, attempt);
    0.0 <= jitter <= cap || cap <= jitter <= 0.0
  }

  /** Never longer than `maxDelay`, never sooner than the server asked or the jitter says (up to that cap), no
      longer than the longer of the two, and within the exponential ceiling when the server asked nothing. */
  function ComputeDelay(policy: BackoffPolicy, attempt: nat, retryAfter: Option<real>, jitter: real): (delay: real)
    ensures delay <= policy.maxDelay && delay >= Min(jitter, policy.maxDelay)
    ensures retryAfter.Some? && retryAfter.value > 0.0 ==> delay >= Min(retryAfter.value, policy.maxDelay)
    ensures delay <= jitter || (retryAfter.Some? && retryAfter.value > 0.0 && delay <= retryAfter.value)
    ensures Drawn(policy, attempt, jitter) && policy.baseDelay >= 0.0 && policy.maxDelay >= 0.0 ==>
              && delay >= jitter >= 0.0
              && (retryAfter.None? || retryAfter.value <= 0.0 ==> delay == jitter <= Doubled(policy.baseDelay, attempt))
  {
    var floored :=
      if retryAfter.Some? && retryAfter.value > 0.0
      then Max(jitter, Min(retryAfter.value, policy.maxDelay))
      else jitter;
    Min(floored, policy.maxDelay)
  }

  /** One wait of a request's life: what the server asked, what was drawn, what was slept. */
  datatype Wait = Wait(retryAfter: Option<real>, jitter: real, delay: real)

  /** A request's waits are lawful when the i-th was computed for attempt index i. */
  ghost predicate Lawful(policy: BackoffPolicy, waits: seq<Wait>) {
    forall i :: 0 <= i < |waits| ==>
      && Drawn(policy, i, waits[i].jitter)
      && waits[i].delay == ComputeDelay(policy, i, waits[i].retryAfter, waits[i].jitter)
  }

  function TotalDelay(waits: seq<Wait>): real {
    if waits == [] then 0.0 else TotalDelay(waits[..|waits| - 1]) + waits[|waits| - 1].delay
  }

  /** Whatever the server asks, k waits never cost more than k times the cap. */
  lemma TotalDelayCapped(policy: BackoffPolicy, waits: seq<Wait>)
    requires Lawful(policy, waits)
    ensures TotalDelay(waits) <= (|waits| as real) * policy.maxDelay
  {
    SumOfCapped(waits, policy.maxDelay);
  }

  /** Without a positive Retry-After the whole wait is bounded by the geometric sum of the caps. */
  lemma TotalDelayGeometric(policy: BackoffPolicy, waits: seq<Wait>)
    requires Lawful(policy, waits)
    requires policy.baseDelay >= 0.0 && policy.maxDelay >= 0.0
    requires Unasked(waits)
    ensures 0.0 <= TotalDelay(waits) <= Doubled(policy.baseDelay, |waits|) - policy.baseDelay
  {
    SumOfDoubled(waits, policy.baseDelay);
  }

  lemma {:induction false} SumOfCapped(waits: seq<Wait>, cap: real)
    requires forall i :: 0 <= i < |waits| ==> waits[i].delay <= cap
    ensures TotalDelay(waits) <= (|waits| as real) * cap
  {
    if waits != [] {
      var n := |waits| - 1;
      SumOfCapped(waits[..n], cap);
      assert ((n + 1) as real) * cap == (n as real) * cap + cap by {
        assert (n + 1) as real == (n as real) + 1.0;
      }
    }
  }

  lemma {:induction false} SumOfDoubled(waits: seq<Wait>, base: real)
    requires forall i :: 0 <= i < |waits| ==> 0.0 <= waits[i].delay <= Doubled(base, i)
    ensures 0.0 <= TotalDelay(waits) <= Doubled(base, |waits|) - base
  {
    if waits != [] {
      SumOfDoubled(waits[..|waits| - 1], base);
    }
  }

  /** No wait exceeds the cap, none undercuts a positive Retry-After (up to that cap), and all together
      stay within k caps and, when the server asks for nothing, within base * 2^k - base. */
  ghost predicate WithinBounds(policy: BackoffPolicy, waits: seq<Wait>) {
    && (forall i :: 0 <= i < |waits| ==> waits[i].delay <= policy.maxDelay)
    && (forall i :: 0 <= i < |waits| && waits[i].retryAfter.Some? && waits[i].retryAfter.value > 0.0 ==>
          waits[i].delay >= Min(waits[i].retryAfter.value, policy.maxDelay))
    && TotalDelay(waits) <= (|waits| as real) * policy.maxDelay
    && (policy.baseDelay >= 0.0 && policy.maxDelay >= 0.0 && Unasked(waits) ==>
          0.0 <= TotalDelay(waits) <= Doubled(policy.baseDelay, |waits|) - policy.baseDelay)
  }

  ghost predicate Unasked(waits: seq<Wait>) {
    forall i :: 0 <= i < |waits| ==> waits[i].retryAfter.None? || waits[i].retryAfter.value <= 0.0
  }

  lemma LawfulIsBounded(policy: BackoffPolicy, waits: seq<Wait>)
    requires Lawful(policy, waits)
    ensures WithinBounds(policy, waits)
  {
    TotalDelayCapped(policy, waits);
    if policy.baseDelay >= 0.0 && policy.maxDelay >= 0.0 && Unasked(waits) {
      TotalDelayGeometric(policy, waits);
    }
  }
}
