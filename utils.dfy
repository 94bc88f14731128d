/**
 * utils.py: the `handle_errors` and `retry` decorators and the two-counter `StatisticsTracker`.
 *
 * A decorated call is modelled by what it did: `Returned(v)` or `Raised(e)`. The decorators
 * take those outcomes as input (`outcome(k)` is what the k-th call of the wrapped function does),
 * so that what they do with them can be stated for every possible behaviour of the wrapped code.
 */
module Utils {

  /** What one call of a wrapped function did. */
  datatype Outcome<T> = Returned(value: T) | Raised(error: string)

  /**
   * `handle_errors(default_return)`: the wrapped call's value when it returns, `default_return`
   * when it raises (the error is only logged).
   */
  function HandleErrors<T>(call: Outcome<T>, default: T): (r: T)
    ensures call.Returned? ==> r == call.value
    ensures call.Raised? ==> r == default
  {
    match call
    case Returned(v) => v
    case Raised(_) => default
  }

  // ---------------------------------------------------------------------------
  // retry(max_times, delay)

  /** What the `retry` wrapper hands back: a value, the re-raised last exception, or `None`. */
  datatype RetryResult<T> = Value(value: T) | Reraised(error: string) | NoneReturned

  /** A whole run of the `retry` wrapper: its result, how often it called the function, how often it slept. */
  datatype RetryRun<T> = RetryRun(result: RetryResult<T>, calls: nat, sleeps: nat)

  /**
   * The run of `retry(max_times)` from (0-based) attempt `attempt` on: return the first value,
   * sleep after a raising call unless it was the last allowed one, re-raise after the last.
   */
  function RetryFrom<T>(maxTimes: int, outcome: nat -> Outcome<T>, attempt: nat): RetryRun<T>
    decreases maxTimes - attempt
  {
    if maxTimes <= attempt then RetryRun(NoneReturned, 0, 0)
    else
      match outcome(attempt)
      case Returned(v) => RetryRun(Value(v), 1, 0)
      case Raised(e) =>
        if attempt < maxTimes - 1 then
          var rest := RetryFrom(maxTimes, outcome, attempt + 1);
          RetryRun(rest.result, rest.calls + 1, rest.sleeps + 1)
        else RetryRun(Reraised(e), 1, 0)
  }

  /** The run of `retry(max_times)` around a function whose k-th call does `outcome(k)`. */
  function RetrySpec<T>(maxTimes: int, outcome: nat -> Outcome<T>): (run: RetryRun<T>)
    ensures maxTimes <= 0 ==> run == RetryRun(NoneReturned, 0, 0)
    ensures maxTimes >= 1 ==> 1 <= run.calls <= maxTimes && run.sleeps == run.calls - 1 && !run.result.NoneReturned?
  {
    if maxTimes >= 1 then RetryFromCounts(maxTimes, outcome, 0); RetryFrom(maxTimes, outcome, 0)
    else RetryFrom(maxTimes, outcome, 0)
  }

  /**
   * The wrapper's loop (`for attempt in range(max_times)`): calls the function, returns its value,
   * or records the exception, sleeps `delay` and tries again; after the last attempt it re-raises.
   * `slept` lists the sleeps it made, in milliseconds.
   */
  method Retry<T(==)>(maxTimes: int, delayMs: nat, outcome: nat -> Outcome<T>)
    returns (r: RetryResult<T>, calls: nat, slept: seq<nat>)
    ensures RetryRun(r, calls, |slept|) == RetrySpec(maxTimes, outcome)
    ensures forall i :: 0 <= i < |slept| ==> slept[i] == delayMs
  {
    calls, slept := 0, [];
    var attempt: nat := 0;
    while attempt < maxTimes
      invariant attempt == 0 || attempt < maxTimes
      invariant calls == attempt && |slept| == attempt
      invariant forall i :: 0 <= i < |slept| ==> slept[i] == delayMs
      invariant var rest := RetryFrom(maxTimes, outcome, attempt);
        RetrySpec(maxTimes, outcome) == RetryRun(rest.result, rest.calls + attempt, rest.sleeps + attempt)
      decreases maxTimes - attempt
    {
      calls := calls + 1;
      match outcome(attempt)
      case Returned(v) =>
        r := Value(v);
        return;
      case Raised(e) =>
        if attempt < maxTimes - 1 {
          slept := slept + [delayMs];
          attempt := attempt + 1;
        } else {
          r := Reraised(e);
          return;
        }
    }
    r := NoneReturned;
  }

  lemma {:induction false} RetryFromFirstValue<T>(maxTimes: int, outcome: nat -> Outcome<T>, attempt: nat, k: nat)
    requires attempt <= k < maxTimes && outcome(k).Returned?
    requires forall j :: attempt <= j < k ==> outcome(j).Raised?
    ensures RetryFrom(maxTimes, outcome, attempt) == RetryRun(Value(outcome(k).value), k - attempt + 1, k - attempt)
    decreases k - attempt
  {
    if attempt < k {
      RetryFromFirstValue(maxTimes, outcome, attempt + 1, k);
    }
  }

  /**
   * The wrapper returns the value of the first call that does not raise (a returned `False` or
   * `None` is a value like any other), after exactly that many calls and one sleep per earlier call.
   */
  lemma RetryReturnsFirstValue<T>(maxTimes: int, outcome: nat -> Outcome<T>, k: nat)
    requires k < maxTimes && outcome(k).Returned?
    requires forall j :: 0 <= j < k ==> outcome(j).Raised?
    ensures RetrySpec(maxTimes, outcome) == RetryRun(Value(outcome(k).value), k + 1, k)
  {
    RetryFromFirstValue(maxTimes, outcome, 0, k);
  }

  lemma {:induction false} RetryFromExhausted<T>(maxTimes: int, outcome: nat -> Outcome<T>, attempt: nat)
    requires attempt < maxTimes
    requires forall j :: attempt <= j < maxTimes ==> outcome(j).Raised?
    ensures RetryFrom(maxTimes, outcome, attempt)
         == RetryRun(Reraised(outcome(maxTimes - 1).error), maxTimes - attempt, maxTimes - attempt - 1)
    decreases maxTimes - attempt
  {
    if attempt < maxTimes - 1 {
      RetryFromExhausted(maxTimes, outcome, attempt + 1);
    }
  }

  /**
   * When every allowed call raises, the wrapper calls exactly `max_times` times, sleeps between
   * the calls but not after the last, and re-raises the last exception.
   */
  lemma RetryReraisesLast<T>(maxTimes: int, outcome: nat -> Outcome<T>)
    requires maxTimes >= 1
    requires forall j :: 0 <= j < maxTimes ==> outcome(j).Raised?
    ensures RetrySpec(maxTimes, outcome)
         == RetryRun(Reraised(outcome(maxTimes - 1).error), maxTimes, maxTimes - 1)
  {
    RetryFromExhausted(maxTimes, outcome, 0);
  }

  /** With `max_times <= 0` the function is never called and the wrapper returns `None`. */
  lemma RetryWithoutAttempts<T>(maxTimes: int, outcome: nat -> Outcome<T>)
    requires maxTimes <= 0
    ensures RetrySpec(maxTimes, outcome) == RetryRun(NoneReturned, 0, 0)
  {
  }

  lemma {:induction false} RetryFromCounts<T>(maxTimes: int, outcome: nat -> Outcome<T>, attempt: nat)
    requires attempt < maxTimes
    ensures var run := RetryFrom(maxTimes, outcome, attempt);
      1 <= run.calls <= maxTimes - attempt && run.sleeps == run.calls - 1 && run.result != NoneReturned
    decreases maxTimes - attempt
  {
    match outcome(attempt)
    case Returned(_) =>
    case Raised(_) =>
      if attempt < maxTimes - 1 {
        RetryFromCounts(maxTimes, outcome, attempt + 1);
      }
  }

  /**
   * Whatever the calls do, the wrapper calls at most `max_times` times and sleeps exactly once
   * between two consecutive calls: never before the first nor after the last.
   */
  lemma RetryCallsAndSleeps<T>(maxTimes: int, outcome: nat -> Outcome<T>)
    ensures var run := RetrySpec(maxTimes, outcome);
      run.calls <= if maxTimes < 0 then 0 else maxTimes
    ensures var run := RetrySpec(maxTimes, outcome);
      (maxTimes >= 1 ==> run.calls >= 1 && run.sleeps == run.calls - 1)
  {
    if maxTimes >= 1 {
      RetryFromCounts(maxTimes, outcome, 0);
    }
  }

  /**
   * `retry` stacked on `handle_errors` (the order used for safe navigation): the guarded call never
   * raises, so with at least one attempt the wrapper calls it exactly once and never sleeps.
   */
  lemma RetryOfGuardedCallRunsOnce<T>(maxTimes: int, raw: nat -> Outcome<T>, default: T, guarded: nat -> Outcome<T>)
    requires maxTimes >= 1
    requires forall k :: guarded(k) == Returned(HandleErrors(raw(k), default))
    ensures RetrySpec(maxTimes, guarded) == RetryRun(Value(HandleErrors(raw(0), default)), 1, 0)
  {
    RetryReturnsFirstValue(maxTimes, guarded, 0);
  }

  // ---------------------------------------------------------------------------
  // StatisticsTracker

  /** What `get_stats` reports; `successRate` is exact (a rational, not a float). */
  datatype Stats = Stats(successCount: nat, failedCount: nat, successRate: real)

  class StatisticsTracker {
    var successCount: nat
    var failedCount: nat

    constructor ()
      ensures successCount == 0 && failedCount == 0
    {
      successCount := 0;
      failedCount := 0;
    }

    method RecordSuccess()
      modifies this
      ensures successCount == old(successCount) + 1 && failedCount == old(failedCount)
    {
      successCount := successCount + 1;
    }

    method RecordFailure()
      modifies this
      ensures failedCount == old(failedCount) + 1 && successCount == old(successCount)
    {
      failedCount := failedCount + 1;
    }

    /**
     * `get_stats`: both counters, and the share of successes among all recorded outcomes
     * (0 while nothing is recorded).
     */
    function GetStats(): (s: Stats)
      reads this
      ensures s.successCount == successCount && s.failedCount == failedCount
      ensures 0.0 <= s.successRate <= 1.0
      ensures successCount + failedCount == 0 ==> s.successRate == 0.0
      ensures s.successRate * (successCount + failedCount) as real == successCount as real
      ensures s.successRate == 1.0 <==> successCount > 0 && failedCount == 0
    {
      var total := successCount + failedCount;
      var rate := if total > 0 then successCount as real / total as real else 0.0;
      assert total > 0 ==> rate * total as real == successCount as real;
      Stats(successCount, failedCount, rate)
    }

    method Reset()
      modifies this
      ensures successCount == 0 && failedCount == 0
    {
      successCount := 0;
      failedCount := 0;
    }
  }
}
