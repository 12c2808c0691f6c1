/** internal/utils/retriable.go: retry an operation with a linear back-off. */
module Retriable {
  import opened Wrappers
  import opened Errors

  /** Durations are in nanoseconds, as Go's time.Duration. */
  type Duration = int

  const Second: Duration := 1_000_000_000
  const AttemptsCount: nat := 3
  const DefaultTimeout: Duration := 1 * Second
  const TimeoutIncrement: Duration := 2 * Second

  /** The wait passed to `betweenRetries` after the k-th retriable failure
      (counting from 0). */
  function Backoff(k: nat): (d: Duration)
    ensures d >= DefaultTimeout
  {
    DefaultTimeout + k * TimeoutIncrement
  }

  /** `RetryEx`. The stateful `operation` is given as the result of its i-th
      call, `operation(i)`; `betweenRetries` is observed through `waits`, the
      durations it was called with, in order; `calls` is how often
      `operation` ran. */
  method RetryEx<E>(operation: nat -> E, isRetriable: E -> bool) returns (err: E, calls: nat, waits: seq<Duration>)
    ensures 1 <= calls <= AttemptsCount
    ensures err == operation(calls - 1)
    // every attempt before the last one failed retriably
    ensures forall i :: 0 <= i < calls - 1 ==> isRetriable(operation(i))
    // it stops early exactly on the first error that is not retriable
    ensures calls < AttemptsCount ==> !isRetriable(err)
    // it waits after every retriable failure, also after the last attempt, and never after a final one
    ensures |waits| == if isRetriable(err) then calls else calls - 1
    ensures forall k :: 0 <= k < |waits| ==> waits[k] == Backoff(k)
  {
    var timeout := DefaultTimeout;
    waits := [];
    var i := 0;
    err := operation(0);  // Go starts from nil; the loop runs at least once and overwrites it
    calls := 0;
    while i < AttemptsCount
      invariant 0 <= i <= AttemptsCount
      invariant calls == i
      invariant i > 0 ==> err == operation(i - 1)
      invariant forall j :: 0 <= j < i ==> isRetriable(operation(j))
      invariant |waits| == i
      invariant forall k :: 0 <= k < |waits| ==> waits[k] == Backoff(k)
      invariant timeout == Backoff(i)
    {
      err := operation(i);
      calls := calls + 1;
      if !isRetriable(err) {
        return;
      }
      waits := waits + [timeout];
      timeout := timeout + TimeoutIncrement;
      i := i + 1;
    }
  }

  /** The check `Retry` applies: the error implements Retriable and reports
      itself retriable. nil does not implement the interface. */
  predicate IsRetriable(err: Option<Error>)
  {
    err.Some? && err.value.Retriable? && err.value.temporary
  }

  /** `Retry`: RetryEx with the Retriable-interface check. */
  method Retry(operation: nat -> Option<Error>) returns (err: Option<Error>, calls: nat, waits: seq<Duration>)
    ensures 1 <= calls <= AttemptsCount && err == operation(calls - 1)
    // nil, or an error that is not a temporary Retriable, ends it after one call
    ensures !IsRetriable(operation(0)) ==> calls == 1 && err == operation(0) && waits == []
    // three temporary failures in a row: three calls and waits of 1s, 3s and 5s
    ensures (forall i :: 0 <= i < AttemptsCount ==> IsRetriable(operation(i))) ==>
              calls == 3 && waits == [1 * Second, 3 * Second, 5 * Second]
  {
    err, calls, waits := RetryEx(operation, IsRetriable);
  }
}
