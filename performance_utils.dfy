/**
 * The two admission guards: a sliding-window rate limiter keyed by caller,
 * and a three-state circuit breaker. The wall clock (`Date.now()`) is a
 * parameter of every operation that reads it.
 */
module PerformanceUtils {
  import opened Wrappers

  /** `a` is `b` with some elements left out, the rest kept in order. */
  predicate Subsequence(a: seq<int>, b: seq<int>)
    decreases |b|
  {
    if a == [] then true
    else if b == [] then false
    else (a[0] == b[0] && Subsequence(a[1..], b[1..])) || Subsequence(a, b[1..])
  }

  /** The timestamps of `times` that lie inside the window ending at `now`:
      every occurrence of each of them and nothing else, in their original order. */
  function InWindow(times: seq<int>, now: int, windowMs: int): (kept: seq<int>)
    ensures |kept| <= |times|
    ensures forall t :: t in kept <==> t in times && now - t < windowMs
    ensures forall t :: multiset(kept)[t] == if now - t < windowMs then multiset(times)[t] else 0
    ensures Subsequence(kept, times)
  {
    if times == [] then []
    else
      var rest := InWindow(times[1..], now, windowMs);
      assert times == [times[0]] + times[1..];
      assert forall t :: t in times <==> t == times[0] || t in times[1..];
      if now - times[0] < windowMs then [times[0]] + rest else rest
  }

  /** `requests.get(key) || []` */
  function Lookup(requests: map<string, seq<int>>, key: string): seq<int> {
    if key in requests then requests[key] else []
  }

  class RateLimiter {
    var requests: map<string, seq<int>>
    const windowMs: int
    const maxRequests: int

    /** The request ceiling, or 0 when it is negative (every call is then refused). */
    function Ceiling(): nat {
      if maxRequests < 0 then 0 else maxRequests
    }

    /** No key ever holds more timestamps than the ceiling. */
    ghost predicate Valid()
      reads this
    {
      forall k :: k in requests ==> |requests[k]| <= Ceiling()
    }

    constructor (windowMs: int, maxRequests: int)
      ensures Valid()
      ensures requests == map[] && this.windowMs == windowMs && this.maxRequests == maxRequests
    {
      this.windowMs := windowMs;
      this.maxRequests := maxRequests;
      requests := map[];
    }

    /** Refuses when `maxRequests` requests already lie in the window, leaving
        the map alone; otherwise stores the in-window timestamps plus `now`
        under `key` and touches no other key. */
    method IsAllowed(key: string, now: int) returns (allowed: bool)
      requires Valid()
      modifies this
      ensures Valid()
      ensures allowed <==> |InWindow(Lookup(old(requests), key), now, windowMs)| < maxRequests
      ensures allowed ==> requests == old(requests)[key := InWindow(Lookup(old(requests), key), now, windowMs) + [now]]
      ensures !allowed ==> requests == old(requests)
    {
      var recent := InWindow(Lookup(requests, key), now, windowMs);
      if |recent| >= maxRequests {
        return false;
      }
      requests := requests[key := recent + [now]];
      allowed := true;
    }

    /** How many more requests `key` may make now; positive exactly when
        `IsAllowed(key, now)` would admit one. Reads only. */
    function GetRemainingRequests(key: string, now: int): (remaining: int)
      reads this
      ensures 0 <= remaining <= Ceiling()
      ensures remaining > 0 <==> |InWindow(Lookup(requests, key), now, windowMs)| < maxRequests
      ensures remaining > 0 ==> remaining + |InWindow(Lookup(requests, key), now, windowMs)| == maxRequests
    {
      var recent := InWindow(Lookup(requests, key), now, windowMs);
      if maxRequests - |recent| > 0 then maxRequests - |recent| else 0
    }

    method Reset(key: string)
      requires Valid()
      modifies this
      ensures Valid()
      ensures requests == old(requests) - {key}
    {
      requests := requests - {key};
    }

    method Clear()
      modifies this
      ensures Valid()
      ensures requests == map[]
    {
      requests := map[];
    }
  }

  // ---------------------------------------------------------------------
  // Circuit breaker

  const DefaultFailureThreshold := 5
  const DefaultResetTimeoutMs := 30000
  const OpenMessage := "Circuit breaker is OPEN"

  datatype BreakerState = Closed | Open | HalfOpen

  /** The breaker's mutable fields as one value. */
  datatype Breaker = Breaker(failures: int, lastFailureTime: int, state: BreakerState)

  const ClosedBreaker := Breaker(0, 0, Closed)

  /** What the wrapped function did: returned a value or threw. */
  datatype Call<T> = Returned(value: T) | Raised(error: string)

  datatype Result<T> = Ok(value: T) | Err(error: string)

  /** The check at the top of `execute`: an open breaker whose reset timeout
      has passed becomes half-open; one whose timeout has not passed refuses (None). */
  function Admission(b: Breaker, resetTimeout: int, now: int): Option<Breaker> {
    if b.state != Open then Some(b)
    else if now - b.lastFailureTime > resetTimeout then Some(b.(state := HalfOpen))
    else None
  }

  function AfterSuccess(b: Breaker): Breaker {
    b.(failures := 0, state := Closed)
  }

  function AfterFailure(b: Breaker, threshold: int, at: int): Breaker {
    var f := b.failures + 1;
    b.(failures := f, lastFailureTime := at, state := if f >= threshold then Open else b.state)
  }

  datatype Step = Step(breaker: Breaker, invoked: bool)

  /** One `execute` whose wrapped call, if made, succeeds or fails (observed at `finishedAt`). */
  function ExecuteStep(b: Breaker, threshold: int, resetTimeout: int, now: int, succeeds: bool, finishedAt: int): Step {
    match Admission(b, resetTimeout, now)
    case None => Step(b, false)
    case Some(a) => Step(if succeeds then AfterSuccess(a) else AfterFailure(a, threshold, finishedAt), true)
  }

  /** A breaker that is not closed has counted at least `threshold` failures,
      and the count is never negative. */
  ghost predicate Tripped(b: Breaker, threshold: int) {
    b.failures >= 0 && (b.state != Closed ==> b.failures >= threshold)
  }

  lemma ExecuteKeepsTripped(b: Breaker, threshold: int, resetTimeout: int, now: int, succeeds: bool, finishedAt: int)
    requires Tripped(b, threshold)
    ensures Tripped(ExecuteStep(b, threshold, resetTimeout, now, succeeds, finishedAt).breaker, threshold)
  {
  }

  /** An open breaker inside its reset timeout changes nothing and does not call. */
  lemma OpenRefusesWithinTimeout(b: Breaker, threshold: int, resetTimeout: int, now: int, succeeds: bool, finishedAt: int)
    requires b.state == Open && now - b.lastFailureTime <= resetTimeout
    ensures ExecuteStep(b, threshold, resetTimeout, now, succeeds, finishedAt) == Step(b, false)
  {
  }

  /** A failure of the trial call of a half-open breaker reopens it, since
      entering half-open did not clear the failure count. */
  lemma HalfOpenFailureReopens(b: Breaker, threshold: int, resetTimeout: int, now: int, finishedAt: int)
    requires Tripped(b, threshold) && b.state == HalfOpen
    ensures ExecuteStep(b, threshold, resetTimeout, now, false, finishedAt).breaker.state == Open
    ensures ExecuteStep(b, threshold, resetTimeout, now, false, finishedAt).breaker.lastFailureTime == finishedAt
  {
  }

  /** `k` calls in a row, all made at `now` and all failing. */
  function FailingRun(b: Breaker, threshold: int, resetTimeout: int, now: int, k: nat): Breaker
    decreases k
  {
    if k == 0 then b
    else ExecuteStep(FailingRun(b, threshold, resetTimeout, now, k - 1), threshold, resetTimeout, now, false, now).breaker
  }

  /** From the closed state, consecutive failures are all let through and
      counted, and the breaker opens exactly at the `threshold`-th one. */
  lemma {:induction false} OpensAtThreshold(threshold: int, resetTimeout: int, now: int, k: nat)
    requires threshold >= 1 && k <= threshold
    ensures FailingRun(ClosedBreaker, threshold, resetTimeout, now, k).failures == k
    ensures FailingRun(ClosedBreaker, threshold, resetTimeout, now, k).state == if k == threshold then Open else Closed
  {
    if k > 0 {
      OpensAtThreshold(threshold, resetTimeout, now, k - 1);
    }
  }

  /** Once open, a further call at the same instant is refused (for a
      non-negative reset timeout). */
  lemma OpenAfterThresholdRefuses(threshold: int, resetTimeout: int, now: int)
    requires threshold >= 1 && resetTimeout >= 0
    ensures ExecuteStep(FailingRun(ClosedBreaker, threshold, resetTimeout, now, threshold),
                        threshold, resetTimeout, now, true, now).invoked == false
  {
    OpensAtThreshold(threshold, resetTimeout, now, threshold);
  }

  /** With the default settings the breaker lets four failures through and
      opens on the fifth. */
  lemma DefaultBreakerOpensOnFifthFailure(now: int)
    ensures FailingRun(ClosedBreaker, DefaultFailureThreshold, DefaultResetTimeoutMs, now, DefaultFailureThreshold - 1).state == Closed
    ensures FailingRun(ClosedBreaker, DefaultFailureThreshold, DefaultResetTimeoutMs, now, DefaultFailureThreshold).state == Open
  {
    OpensAtThreshold(DefaultFailureThreshold, DefaultResetTimeoutMs, now, DefaultFailureThreshold - 1);
    OpensAtThreshold(DefaultFailureThreshold, DefaultResetTimeoutMs, now, DefaultFailureThreshold);
  }

  class CircuitBreaker {
    var failures: int
    var lastFailureTime: int
    var state: BreakerState
    const failureThreshold: int
    /** Kept by the constructor; `execute` never reads it. */
    const timeout: int
    const resetTimeout: int

    function Snapshot(): Breaker
      reads this
    {
      Breaker(failures, lastFailureTime, state)
    }

    ghost predicate Valid()
      reads this
    {
      Tripped(Snapshot(), failureThreshold)
    }

    constructor (failureThreshold: int, timeout: int, resetTimeout: int)
      ensures Valid() && Snapshot() == ClosedBreaker
      ensures this.failureThreshold == failureThreshold && this.timeout == timeout && this.resetTimeout == resetTimeout
    {
      this.failureThreshold := failureThreshold;
      this.timeout := timeout;
      this.resetTimeout := resetTimeout;
      failures, lastFailureTime, state := 0, 0, Closed;
    }

    /** Runs the wrapped call unless the breaker refuses; rethrows its error. */
    method Execute<T>(now: int, call: Call<T>, finishedAt: int) returns (r: Result<T>, invoked: bool)
      requires Valid()
      modifies this
      ensures Valid()
      ensures Step(Snapshot(), invoked) == ExecuteStep(old(Snapshot()), failureThreshold, resetTimeout, now, call.Returned?, finishedAt)
      ensures !invoked ==> r == Err(OpenMessage)
      ensures invoked ==> r == match call case Returned(v) => Ok(v) case Raised(e) => Err(e)
    {
      if state == Open {
        if now - lastFailureTime > resetTimeout {
          state := HalfOpen;
        } else {
          return Err(OpenMessage), false;
        }
      }
      invoked := true;
      match call
      case Returned(v) =>
        OnSuccess();
        r := Ok(v);
      case Raised(e) =>
        OnFailure(finishedAt);
        r := Err(e);
    }

    method OnSuccess()
      modifies this
      ensures Snapshot() == AfterSuccess(old(Snapshot()))
    {
      failures := 0;
      state := Closed;
    }

    method OnFailure(at: int)
      modifies this
      ensures Snapshot() == AfterFailure(old(Snapshot()), failureThreshold, at)
    {
      failures := failures + 1;
      lastFailureTime := at;
      if failures >= failureThreshold {
        state := Open;
      }
    }

    function GetState(): (name: string)
      reads this
      ensures name == "CLOSED" <==> state == Closed
      ensures name == "OPEN" <==> state == Open
      ensures name == "HALF_OPEN" <==> state == HalfOpen
    {
      match state
      case Closed => "CLOSED"
      case Open => "OPEN"
      case HalfOpen => "HALF_OPEN"
    }

    method Reset()
      modifies this
      ensures Valid() && Snapshot() == ClosedBreaker
    {
      failures := 0;
      state := Closed;
      lastFailureTime := 0;
    }
  }
}
