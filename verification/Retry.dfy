/** The bounded retry of concurrency.py's `with_retry`. */
module Retry {

  datatype Ending =
    | Succeeded(exit: int)
    | Transient(error: string)     // retried
    | Stopped(signal: string)      // killed by a stop signal: never retried
    | Raised(error: string)        // anything else: propagates at once

  /** One call of the operation: when it started, and how it ended. */
  datatype Attempt = Attempt(startedAt: real, ending: Ending)

  datatype RetryEnd =
    | Ended(last: Attempt)              // the operation's own return, or its non-transient exception
    | Exhausted(last: Attempt)          // RetryExhausted, with the last transient error as its cause
    | BadBound                          // ValueError: attempts < 1

  /** How many times the operation is called, given that it has been called `done` times without a
      decisive ending. */
  function Calls(script: nat -> Attempt, done: nat, attempts: int): (n: nat)
    requires done < attempts
    ensures done < n <= attempts
    decreases attempts - done
  {
    if !script(done).ending.Transient? || done + 1 >= attempts then done + 1 else Calls(script, done + 1, attempts)
  }

  /** The calls stop at the first ending that is not transient, or at the bound, whichever comes first. */
  lemma {:induction false} CallsIsFirstDecisive(script: nat -> Attempt, done: nat, attempts: int)
    requires done < attempts
    ensures var n := Calls(script, done, attempts);
            && (forall i: nat :: done <= i < n - 1 ==> script(i).ending.Transient?)
            && (script(n - 1).ending.Transient? ==> n == attempts)
    decreases attempts - done
  {
    if script(done).ending.Transient? && done + 1 < attempts {
      CallsIsFirstDecisive(script, done + 1, attempts);
    }
  }

  /** `base_delay * 2 ** n`. */
  function Backoff(base: real, n: nat): real { if n == 0 then base else 2.0 * Backoff(base, n - 1) }

  function Total(sleeps: seq<real>): real {
    if sleeps == [] then 0.0 else Total(sleeps[..|sleeps| - 1]) + sleeps[|sleeps| - 1]
  }

  /** Sleeps that double take, all together, one base delay less than the next sleep would. */
  lemma {:induction false} SleepsAddUp(base: real, sleeps: seq<real>)
    requires forall i :: 0 <= i < |sleeps| ==> sleeps[i] == Backoff(base, i)
    ensures Total(sleeps) == Backoff(base, |sleeps|) - base
  {
    if sleeps != [] {
      SleepsAddUp(base, sleeps[..|sleeps| - 1]);
    }
  }

  /** Call until a decisive ending or the bound, sleeping between calls; `slept` is every sleep, in
      order. `on_retry` is called before each sleep and nowhere else. */
  method WithRetry(script: nat -> Attempt, attempts: int, baseDelay: real)
    returns (end: RetryEnd, calls: nat, slept: seq<real>)
    ensures attempts < 1 ==> end == BadBound && calls == 0 && slept == []
    ensures attempts >= 1 ==>
              && calls == Calls(script, 0, attempts)
              && end == (if script(calls - 1).ending.Transient?
                    then Exhausted(script(calls - 1)) else Ended(script(calls - 1)))
              && (end.Exhausted? ==> calls == attempts)
              && |slept| == calls - 1
              && (forall i :: 0 <= i < |slept| ==> slept[i] == Backoff(baseDelay, i))
              && (|slept| > 0 ==> slept[0] == baseDelay)
              && (forall i :: 0 < i < |slept| ==> slept[i] == slept[i - 1] + slept[i - 1])
  {
    slept := [];
    calls := 0;
    if attempts < 1 {
      return BadBound, 0, [];
    }
    while true
      invariant 0 <= calls < attempts && |slept| == calls
      invariant Calls(script, calls, attempts) == Calls(script, 0, attempts)
      invariant forall i :: 0 <= i < |slept| ==> slept[i] == Backoff(baseDelay, i)
      decreases attempts - calls
    {
      var attempt := script(calls);
      calls := calls + 1;
      if !attempt.ending.Transient? {
        return Ended(attempt), calls, slept;
      }
      if calls >= attempts {
        return Exhausted(attempt), calls, slept;
      }
      slept := slept + [Backoff(baseDelay, calls - 1)];
    }
  }
}
