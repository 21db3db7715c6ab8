/**
 Backoff arithmetic and the retry loop.  A duration is a number of nanoseconds up to the library's
 maximum, at which multiplication saturates.  What an attempt does outside the database is arbitrary.
 */
module Retry {
  import opened Options
  import opened Database

  // ----- Backoff -----

  const MAX_DURATION: nat := 0xFFFF_FFFF_FFFF_FFFF * 1_000_000_000 + 999_999_999
  const MAX_U32: nat := 0xFFFF_FFFF

  datatype Strategy = NoBackoff | Linear | Exponential

  function Min(a: nat, b: nat): nat {
    if a < b then a else b
  }

  function Pow2(n: nat): (p: nat)
    ensures p > 0
  {
    if n == 0 then 1 else 2 * Pow2(n - 1)
  }

  function SaturatingMul(duration: nat, factor: nat): nat {
    Min(duration * factor, MAX_DURATION)
  }

  /** 1u32.checked_shl(exp), or the largest u32 when the shift is too wide. */
  function Shifted(exp: nat): nat {
    if exp < 32 then Pow2(exp) else MAX_U32
  }

  function CalculateBackoff(strategy: Strategy, attempt: nat, initial: nat, max: nat): nat {
    var delay :=
      match strategy
      case NoBackoff => 0
      case Linear => SaturatingMul(initial, attempt)
      case Exponential => SaturatingMul(initial, Shifted(Min(if attempt > 0 then attempt - 1 else 0, 31)));
    Min(delay, max)
  }

  /** What the code computes for attempt numbers from 1, without saturation or shifts. */
  function ClosedForm(strategy: Strategy, attempt: nat, initial: nat, max: nat): nat
    requires attempt > 0
  {
    match strategy
    case NoBackoff => 0
    case Linear => Min(max, initial * attempt)
    case Exponential => Min(max, initial * Pow2(Min(attempt - 1, 31)))
  }

  /** Saturation never shows: the cap is below the largest duration. */
  lemma BackoffClosedForm(strategy: Strategy, attempt: nat, initial: nat, max: nat)
    requires 0 < attempt <= MAX_U32 && max <= MAX_DURATION
    ensures CalculateBackoff(strategy, attempt, initial, max) == ClosedForm(strategy, attempt, initial, max)
  {
  }

  lemma {:induction false} Pow2Monotone(a: nat, b: nat)
    requires a <= b
    ensures Pow2(a) <= Pow2(b)
  {
    if a < b {
      Pow2Monotone(a, b - 1);
    }
  }

  lemma MulMonotone(factor: nat, a: nat, b: nat)
    requires a <= b
    ensures factor * a <= factor * b
  {
  }

  /** A later attempt never waits less. */
  lemma BackoffMonotone(strategy: Strategy, attempt: nat, later: nat, initial: nat, max: nat)
    requires attempt <= later <= MAX_U32
    ensures CalculateBackoff(strategy, attempt, initial, max) <= CalculateBackoff(strategy, later, initial, max) <= max
  {
    MulMonotone(initial, attempt, later);
    var a, b := Min(if attempt > 0 then attempt - 1 else 0, 31), Min(if later > 0 then later - 1 else 0, 31);
    Pow2Monotone(a, b);
    MulMonotone(initial, Pow2(a), Pow2(b));
  }

  /** Two caps of a doubled product agree exactly when the first product is zero or reaches the cap. */
  lemma CapsAgree(max: nat, initial: nat, small: nat, large: nat)
    requires 0 < small && 2 * small <= large
    ensures Min(max, initial * small) == Min(max, initial * large) <==> initial == 0 || max <= initial * small
  {
    MulMonotone(initial, 2 * small, large);
    assert initial * (2 * small) == initial * small + initial * small;
    MulMonotone(small, if initial > 0 then 1 else 0, initial);
  }

  /** Without the cap: linear delays grow by the initial one, exponential ones double from it. */
  lemma BackoffGrows(attempt: nat, initial: nat, max: nat)
    requires 0 < attempt && max <= MAX_DURATION
    ensures CalculateBackoff(NoBackoff, attempt, initial, max) == 0
    ensures CalculateBackoff(Linear, 1, initial, max) == CalculateBackoff(Exponential, 1, initial, max) == Min(initial, max)
    ensures CalculateBackoff(Linear, attempt + 1, initial, max)
            == Min(CalculateBackoff(Linear, attempt, initial, max) + initial, max)
    ensures attempt <= 31 ==>
              CalculateBackoff(Exponential, attempt + 1, initial, max)
              == Min(2 * CalculateBackoff(Exponential, attempt, initial, max), max)
    ensures attempt >= 32 ==>
              CalculateBackoff(Exponential, attempt + 1, initial, max) == CalculateBackoff(Exponential, attempt, initial, max)
  {
    assert initial * (attempt + 1) == initial * attempt + initial;
    if attempt <= 31 {
      DoubledPower(attempt, initial);
    }
  }

  lemma DoubledPower(attempt: nat, initial: nat)
    requires 0 < attempt
    ensures initial * Pow2(attempt) == 2 * (initial * Pow2(attempt - 1))
  {
  }

  /** The delays of the documentation's examples, in seconds. */
  lemma DocumentedDelays()
    ensures CalculateBackoff(Linear, 1, 5, 60) == 5 && CalculateBackoff(Linear, 2, 5, 60) == 10
    ensures CalculateBackoff(Linear, 3, 5, 60) == 15 && CalculateBackoff(Linear, 13, 5, 60) == 60
    ensures CalculateBackoff(Exponential, 1, 2, 60) == 2 && CalculateBackoff(Exponential, 2, 2, 60) == 4
    ensures CalculateBackoff(Exponential, 3, 2, 60) == 8 && CalculateBackoff(Exponential, 4, 2, 60) == 16
    ensures CalculateBackoff(Exponential, 6, 2, 60) == 60
  {
    assert Pow2(0) == 1 && Pow2(1) == 2 && Pow2(2) == 4 && Pow2(3) == 8 && Pow2(4) == 16 && Pow2(5) == 32;
  }

  /** The documented formula, initial * 2^(attempt-1) capped, is met exactly when the code's cap of 31 on the exponent does not show. */
  lemma DocumentedExponential(attempt: nat, initial: nat, max: nat)
    requires 0 < attempt <= MAX_U32 && max <= MAX_DURATION
    ensures CalculateBackoff(Exponential, attempt, initial, max) == Min(max, initial * Pow2(attempt - 1))
            <==> attempt <= 32 || initial == 0 || max <= initial * Pow2(31)
  {
    BackoffClosedForm(Exponential, attempt, initial, max);
    if attempt > 32 {
      var small, large := Pow2(31), Pow2(attempt - 1);
      Pow2Monotone(32, attempt - 1);
      CapsAgree(max, initial, small, large);
    }
  }

  // ----- The loop -----

  datatype RetryConfig = RetryConfig(count: nat, strategy: Strategy, initial: nat, max: nat)

  /** An attempt either fails to open its log files or ends with a terminal status. */
  datatype Attempt = NoLogs | Ended(status: Status, exitCode: Option<int>)

  datatype RunResult = RunResult(status: Status, exitCode: Option<int>)

  /** An attempt without log files counts as failed without an exit code. */
  function ResultOf(attempt: Attempt): (result: RunResult)
    ensures attempt.NoLogs? ==> result == RunResult(Failed, None)
    ensures attempt.Ended? ==> result.status == attempt.status && result.exitCode == attempt.exitCode
  {
    match attempt
    case NoLogs => RunResult(Failed, None)
    case Ended(status, exitCode) => RunResult(status, exitCode)
  }

  predicate Retryable(result: RunResult) {
    result.status == Failed && result.exitCode.Some?
  }

  /** The first of the attempts 0..count that is not to be retried, or `count`. */
  function LastAttempt(attempts: nat -> Attempt, count: nat): (last: nat)
    ensures last <= count
    ensures forall i :: 0 <= i < last ==> Retryable(ResultOf(attempts(i)))
    ensures last < count ==> !Retryable(ResultOf(attempts(last)))
  {
    if count == 0 then 0
    else
      var before := LastAttempt(attempts, count - 1);
      if before == count - 1 && Retryable(ResultOf(attempts(before))) then count else before
  }

  /** A command that always fails with an exit code is run as often as allowed; any other first end is the last. */
  lemma {:induction false} RunsUntil(attempts: nat -> Attempt, count: nat)
    ensures (forall i :: attempts(i).Ended? && attempts(i).status == Failed && attempts(i).exitCode.Some?) ==>
              LastAttempt(attempts, count) == count
    ensures attempts(0).NoLogs? || attempts(0).status != Failed || attempts(0).exitCode.None? ==>
              LastAttempt(attempts, count) == 0
  {
    if count > 0 {
      RunsUntil(attempts, count - 1);
    }
  }

  /** The sleep before the retries 1..n. */
  function TotalSleep(config: RetryConfig, n: nat): nat {
    if n == 0 then 0
    else TotalSleep(config, n - 1) + CalculateBackoff(config.strategy, n, config.initial, config.max)
  }

  /** Before the cap shows, the sleeps of a linear backoff sum to a triangle. */
  lemma {:induction false} LinearSleep(config: RetryConfig, n: nat)
    requires config.strategy == Linear && config.initial * n <= config.max <= MAX_DURATION
    ensures 2 * TotalSleep(config, n) == config.initial * (n * (n + 1))
  {
    if n > 0 {
      MulMonotone(config.initial, n - 1, n);
      LinearSleep(config, n - 1);
      TriangleStep(config.initial, n);
      BelowCap(config, n);
    }
  }

  lemma TriangleStep(initial: nat, n: nat)
    requires n > 0
    ensures initial * (n * (n + 1)) == initial * ((n - 1) * n) + 2 * (initial * n)
  {
    assert n * (n + 1) == (n - 1) * n + 2 * n;
  }

  /** Those of an exponential backoff sum to a power less one, and without backoff there are none. */
  lemma {:induction false} ExponentialSleep(config: RetryConfig, n: nat)
    requires config.strategy == Exponential && n <= 32 && config.initial * Pow2(n) <= config.max <= MAX_DURATION
    ensures TotalSleep(config, n) + config.initial == config.initial * Pow2(n)
  {
    if n > 0 {
      DoubledPower(n, config.initial);
      ExponentialSleep(config, n - 1);
      BelowCap(config, n);
    }
  }

  lemma {:induction false} NoSleep(config: RetryConfig, n: nat)
    requires config.strategy == NoBackoff
    ensures TotalSleep(config, n) == 0
  {
    if n > 0 {
      NoSleep(config, n - 1);
    }
  }

  /** A delay below the cap, uncapped. */
  lemma BelowCap(config: RetryConfig, n: nat)
    requires 0 < n && config.max <= MAX_DURATION
    ensures config.strategy == Linear && config.initial * n <= config.max ==>
              CalculateBackoff(config.strategy, n, config.initial, config.max) == config.initial * n
    ensures config.strategy == Exponential && n <= 32 && config.initial * Pow2(n - 1) <= config.max ==>
              CalculateBackoff(config.strategy, n, config.initial, config.max) == config.initial * Pow2(n - 1)
  {
  }

  lemma {:induction false} SleepBound(config: RetryConfig, n: nat)
    requires n <= config.count
    ensures TotalSleep(config, n) <= config.count * config.max
    ensures TotalSleep(config, n) <= n * config.max
  {
    if n > 0 {
      SleepBound(config, n - 1);
      assert n * config.max == (n - 1) * config.max + config.max;
      MulMonotone(config.max, n, config.count);
    }
  }

  /** The row after one attempt on a pending row. */
  function AfterAttempt(row: Execution, attempt: Attempt): Execution {
    match attempt
    case NoLogs => row
    case Ended(status, exitCode) => row.(status := status, exitCode := exitCode)
  }

  /** The row after the attempts 0..n of the loop. */
  function NextAttempt(row: Execution, attempt: Attempt): Execution {
    AfterAttempt(row.(status := Pending, exitCode := None, retryCount := row.retryCount + 1), attempt)
  }

  function AfterAttempts(row: Execution, attempts: nat -> Attempt, n: nat): Execution {
    if n == 0 then AfterAttempt(row, attempts(0))
    else NextAttempt(AfterAttempts(row, attempts, n - 1), attempts(n))
  }

  /** What the stored row says after the attempts 0..n: the stored status is the returned one iff the last attempt got its log files. */
  lemma {:induction false} StoredRow(row: Execution, attempts: nat -> Attempt, n: nat)
    requires row.status == Pending && forall i :: attempts(i).Ended? ==> attempts(i).status in {Success, Failed, TimedOut}
    ensures var after := AfterAttempts(row, attempts, n);
      && after.hook == row.hook && after.retryCount == row.retryCount + n
      && (after.status == ResultOf(attempts(n)).status <==> attempts(n).Ended?)
      && (attempts(n).Ended? ==> after.status == attempts(n).status && after.exitCode == attempts(n).exitCode)
      && (attempts(n).NoLogs? ==> after.status == Pending && after.exitCode == if n == 0 then row.exitCode else None)
  {
    if n > 0 {
      StoredRow(row, attempts, n - 1);
    }
  }

  /** executor::run for one attempt; only a pending row starts. */
  method RunOnce(store: Store, id: Id, attempt: Attempt) returns (result: RunResult)
    requires attempt.Ended? ==> attempt.status in {Success, Failed, TimedOut}
    modifies store
    ensures store.locks == old(store.locks) && store.queue == old(store.queue)
    ensures old(HasStatus(store.Snapshot(), id, Pending)) ==>
              result == ResultOf(attempt)
              && store.executions == old(store.executions[id := AfterAttempt(store.executions[id], attempt)])
    ensures !old(HasStatus(store.Snapshot(), id, Pending)) ==>
              result == RunResult(Failed, None) && store.executions == old(store.executions)
  {
    if attempt.NoLogs? {
      return RunResult(Failed, None);
    }
    var started := store.TransitionExecution(id, Pending, Running);
    if !started {
      return RunResult(Failed, None);
    }
    var _ := store.CompleteExecution(id, attempt.status, attempt.exitCode);
    return RunResult(attempt.status, attempt.exitCode);
  }

  /** One more attempt on a row that ended: count it, reset the row, run. */
  method RunAgain(store: Store, id: Id, attempt: Attempt) returns (result: RunResult)
    requires attempt.Ended? ==> attempt.status in {Success, Failed, TimedOut}
    requires id in store.executions
    modifies store
    ensures store.locks == old(store.locks) && store.queue == old(store.queue)
    ensures result == ResultOf(attempt)
    ensures store.executions == old(store.executions[id := NextAttempt(store.executions[id], attempt)])
  {
    store.IncrementRetries(id);
    var _ := store.ResetExecution(id);
    result := RunOnce(store, id, attempt);
  }

  /** The rows after one more attempt, seen from the rows before the first. */
  lemma OneMoreAttempt(was: map<Id, Execution>, now: map<Id, Execution>, id: Id, attempts: nat -> Attempt, n: nat)
    requires n > 0 && id in was && now == was[id := AfterAttempts(was[id], attempts, n - 1)]
    ensures now[id := NextAttempt(now[id], attempts(n))] == was[id := AfterAttempts(was[id], attempts, n)]
  {
  }

  /** A row that is not pending fails without an exit code and is left alone. */
  method RunWithRetries(store: Store, id: Id, config: RetryConfig, attempts: nat -> Attempt)
    returns (result: RunResult, runs: nat, slept: nat)
    requires forall i :: attempts(i).Ended? ==> attempts(i).status in {Success, Failed, TimedOut}
    modifies store
    ensures store.locks == old(store.locks) && store.queue == old(store.queue)
    ensures old(HasStatus(store.Snapshot(), id, Pending)) ==>
              var last := LastAttempt(attempts, config.count);
              && runs == last + 1
              && result == ResultOf(attempts(last))
              && store.executions == old(store.executions[id := AfterAttempts(store.executions[id], attempts, last)])
              && slept == TotalSleep(config, last)
    ensures !old(HasStatus(store.Snapshot(), id, Pending)) ==>
              result == RunResult(Failed, None) && runs == 1 && slept == 0 && store.executions == old(store.executions)
  {
    ghost var pending, was := HasStatus(store.Snapshot(), id, Pending), store.executions;
    slept := 0;
    runs := 1;
    result := RunOnce(store, id, attempts(0));
    for retry := 1 to config.count + 1
      invariant store.locks == old(store.locks) && store.queue == old(store.queue)
      invariant runs == retry && slept == TotalSleep(config, retry - 1)
      invariant !pending ==> retry == 1 && result == RunResult(Failed, None) && store.executions == old(store.executions)
      invariant pending ==>
        && result == ResultOf(attempts(retry - 1))
        && LastAttempt(attempts, retry - 1) == retry - 1
        && store.executions == old(store.executions[id := AfterAttempts(store.executions[id], attempts, retry - 1)])
    {
      if !(result.status == Failed && result.exitCode.Some?) {
        if pending {
          LastStays(attempts, retry - 1, config.count);
        }
        return;
      }
      var delay := CalculateBackoff(config.strategy, retry, config.initial, config.max);
      slept := slept + delay;
      runs := runs + 1;
      ghost var now := store.executions;
      result := RunAgain(store, id, attempts(retry));
      OneMoreAttempt(was, now, id, attempts, retry);
    }
  }

  /** An attempt that is not retried stays the last one for any larger retry count. */
  lemma {:induction false} LastStays(attempts: nat -> Attempt, last: nat, count: nat)
    requires last <= count && LastAttempt(attempts, last) == last && !Retryable(ResultOf(attempts(last)))
    ensures LastAttempt(attempts, count) == last
  {
    if last < count {
      LastStays(attempts, last, count - 1);
    }
  }
}
