/**
 * The retry manager: a failure budget with capped exponential backoff.
 * The wrapped function is a sequence of call outcomes indexed by call
 * number; sleeping and logging are left out, the delay is kept as state.
 */
module Retry {

  /** The exception classes on the retry manager's allow-list. */
  datatype RetryableKind =
    | AiProviderFailure
    | OpenAiFailure
    | OllamaRequestFailure
    | OllamaResponseFailure
    | QdrantResponseHandling
    | QdrantUnexpectedResponse
    | HttpxReadTimeout
    | HttpxTimeout
    | RequestsFailure

  /**
   * The exceptions the retry manager and its callers tell apart. `Exit`
   * is `typer.Exit`, which click derives from `RuntimeError`; `Interrupt`
   * stands for a `BaseException` that is not an `Exception`
   * (`KeyboardInterrupt`, `SystemExit`).
   */
  datatype Exc =
    | Retryable(kind: RetryableKind)
    | MaxTokens
    | Exit(code: int)
    | Runtime(message: string)
    | Assertion
    | OtherError(name: string)
    | Interrupt

  predicate IsRetryable(e: Exc) { e.Retryable? }

  /** `isinstance(e, RuntimeError)`: `typer.Exit` is one. */
  predicate IsRuntimeError(e: Exc) { e.Exit? || e.Runtime? }

  /** `isinstance(e, Exception)`: what an `except Exception` clause catches. */
  predicate IsException(e: Exc) { !e.Interrupt? }

  datatype RetryConfig = RetryConfig(delayMin: real, delayMax: real, exponent: real, retries: int)

  datatype RetryState = RetryState(config: RetryConfig, backoffDelay: real, failBudget: int)

  /** `delay_min or 1.0`: a zero minimum delay starts the backoff at one second. */
  function StartDelay(c: RetryConfig): (d: real)
    ensures d != 0.0
    ensures c.delayMin != 0.0 ==> d == c.delayMin
  {
    if c.delayMin == 0.0 then 1.0 else c.delayMin
  }

  /** `RetryManager.__init__`. */
  function NewRetryManager(c: RetryConfig): (s: RetryState)
    ensures s.config == c && s.failBudget == c.retries
    ensures s.backoffDelay == StartDelay(c)
  {
    RetryState(c, StartDelay(c), c.retries)
  }

  /** `reset_backoff`. */
  function Reset(s: RetryState): (r: RetryState)
    ensures r.config == s.config
    ensures r.failBudget == s.config.retries
  {
    RetryState(s.config, StartDelay(s.config), s.config.retries)
  }

  /** Resetting gives back the state of a freshly built manager. */
  lemma ResetIsFresh(s: RetryState)
    ensures Reset(s) == NewRetryManager(s.config)
    ensures Reset(Reset(s)) == Reset(s)
  {
  }

  function MinReal(a: real, b: real): real { if a <= b then a else b }

  /** `apply_delay` without the sleep: the delay grows by the exponent up to the cap, and one failure is spent. */
  function ApplyDelay(s: RetryState): (r: RetryState)
    ensures r.config == s.config
    ensures r.failBudget == s.failBudget - 1
    ensures r.backoffDelay <= s.config.delayMax
    ensures r.backoffDelay == s.config.delayMax || r.backoffDelay == s.backoffDelay * s.config.exponent
  {
    RetryState(s.config, MinReal(s.backoffDelay * s.config.exponent, s.config.delayMax), s.failBudget - 1)
  }

  /** `_compute_attempt`: the 1-based number of the attempt that just failed. */
  function AttemptNumber(s: RetryState): int
  {
    s.config.retries - s.failBudget + 1
  }

  /** The budget never exceeds the configured number of attempts. */
  predicate BudgetBounded(s: RetryState)
  {
    s.failBudget <= s.config.retries
  }

  /** While the budget is positive and bounded, the logged attempt number is within `1..retries`. */
  lemma AttemptInRange(s: RetryState)
    requires BudgetBounded(s) && s.failBudget > 0
    ensures 1 <= AttemptNumber(s) <= s.config.retries
  {
  }

  /** `d * e^n`, one factor at a time. */
  function Grown(d: real, e: real, n: nat): real
  {
    if n == 0 then d else Grown(d, e, n - 1) * e
  }

  function Delays(s: RetryState, n: nat): RetryState
  {
    if n == 0 then s else ApplyDelay(Delays(s, n - 1))
  }

  lemma CapStep(a: real, m: real, e: real)
    requires e >= 1.0 && m >= 0.0
    ensures MinReal(MinReal(a, m) * e, m) == MinReal(a * e, m)
  {
    if a <= m {
      assert MinReal(a, m) * e == a * e;
    } else {
      assert m * e >= m;
      assert a * e >= m * e;
    }
  }

  /**
   * Capped exponential backoff: after `n >= 1` failures the delay is
   * `min(start * exponent^n, delay_max)` (`Grown`), provided the exponent is at least
   * one and the cap is not negative.
   */
  lemma {:induction false} DelaysGrow(s: RetryState, n: nat)
    requires n >= 1 && s.config.exponent >= 1.0 && s.config.delayMax >= 0.0
    ensures Delays(s, n).backoffDelay == MinReal(Grown(s.backoffDelay, s.config.exponent, n), s.config.delayMax)
    ensures Delays(s, n).failBudget == s.failBudget - n
    ensures Delays(s, n).config == s.config
  {
    if n > 1 {
      DelaysGrow(s, n - 1);
      CapStep(Grown(s.backoffDelay, s.config.exponent, n - 1), s.config.delayMax, s.config.exponent);
    }
  }

  lemma BackoffIsCappedExponential(c: RetryConfig, n: nat)
    requires n >= 1 && c.exponent >= 1.0 && c.delayMax >= 0.0
    ensures Delays(NewRetryManager(c), n).backoffDelay == MinReal(Grown(StartDelay(c), c.exponent, n), c.delayMax)
    ensures Delays(NewRetryManager(c), n).failBudget == c.retries - n
  {
    DelaysGrow(NewRetryManager(c), n);
  }

  /** One outcome of calling the wrapped function. */
  datatype Call<T> = Returns(value: T) | Raises(exc: Exc)

  datatype RetryResult<T> = Ok(value: T) | Raised(exc: Exc)

  /** What `retry` ends with: the result, the manager's state, and the index of the next unused call. */
  datatype RetryRun<T> = RetryRun(result: RetryResult<T>, state: RetryState, used: nat)

  /**
   * The loop of `retry`, from call number `k` on. A success resets the
   * manager; an allow-listed exception costs one unit of budget; the
   * max-tokens error is re-raised as it is; any other `Exception` becomes
   * `Exit(1)`; anything else passes through; an empty budget aborts with
   * `Exit(1)`.
   */
  function RetryFrom<T>(s: RetryState, calls: nat -> Call<T>, k: nat): (run: RetryRun<T>)
    ensures k <= run.used
    decreases if s.failBudget > 0 then s.failBudget else 0
  {
    if s.failBudget <= 0 then RetryRun(Raised(Exit(1)), s, k)
    else
      match calls(k)
      case Returns(v) => RetryRun(Ok(v), Reset(s), k + 1)
      case Raises(e) =>
        if IsRetryable(e) then RetryFrom(ApplyDelay(s), calls, k + 1)
        else if e.MaxTokens? then RetryRun(Raised(e), s, k + 1)
        else if IsException(e) then RetryRun(Raised(Exit(1)), s, k + 1)
        else RetryRun(Raised(e), s, k + 1)
  }

  /** `retry(func)`: the predelay is a sleep and is left out. */
  function RetryCall<T>(s: RetryState, calls: nat -> Call<T>): RetryRun<T>
  {
    RetryFrom(s, calls, 0)
  }

  /** Every call before the last one made raised an allow-listed exception. */
  ghost predicate RetriedBefore<T>(calls: nat -> Call<T>, k: nat, last: nat)
  {
    forall j {:trigger calls(j)} :: k <= j < last ==> calls(j).Raises? && IsRetryable(calls(j).exc)
  }

  /** No call was made, or the last one raised an allow-listed exception. */
  predicate LastRetried<T>(calls: nat -> Call<T>, k: nat, used: nat)
  {
    used == k || (used > k && calls(used - 1).Raises? && IsRetryable(calls(used - 1).exc))
  }

  /**
   * The function is called at most `budget` times; each call but the last
   * raised an allow-listed exception and cost one unit of budget; an empty
   * budget aborts without calling; the budget is never raised except by the
   * reset after a success.
   */
  lemma {:induction false} RetryCallsBounded<T>(s: RetryState, calls: nat -> Call<T>, k: nat)
    ensures var run := RetryFrom(s, calls, k);
      && run.used - k <= (if s.failBudget > 0 then s.failBudget else 0)
      && (s.failBudget <= 0 ==> run.used == k && run.result == Raised(Exit(1)) && run.state == s)
      && RetriedBefore(calls, k, if run.used > k then run.used - 1 else k)
      && (run.result.Ok? ==> run.state == Reset(s))
      && (!run.result.Ok? && LastRetried(calls, k, run.used) ==> run.state.failBudget == s.failBudget - (run.used - k))
      && (!run.result.Ok? && !LastRetried(calls, k, run.used) ==> run.state.failBudget == s.failBudget - (run.used - k - 1))
    decreases if s.failBudget > 0 then s.failBudget else 0
  {
    if s.failBudget > 0 {
      match calls(k)
      case Returns(v) =>
      case Raises(e) =>
        if IsRetryable(e) {
          RetryCallsBounded(ApplyDelay(s), calls, k + 1);
          var run := RetryFrom(ApplyDelay(s), calls, k + 1);
          if run.result.Ok? {
            assert Reset(ApplyDelay(s)) == Reset(s);
          }
        }
    }
  }

  /** A success returns the value of the last call made. */
  lemma {:induction false} RetrySuccessValue<T>(s: RetryState, calls: nat -> Call<T>, k: nat)
    requires RetryFrom(s, calls, k).result.Ok?
    ensures var run := RetryFrom(s, calls, k);
      run.used > k && calls(run.used - 1) == Returns(run.result.value)
    decreases if s.failBudget > 0 then s.failBudget else 0
  {
    if s.failBudget > 0 && calls(k).Raises? && IsRetryable(calls(k).exc) {
      RetrySuccessValue(ApplyDelay(s), calls, k + 1);
    }
  }

  /**
   * How a failed `retry` ends: the last call's max-tokens error or
   * non-`Exception` is passed through, any other `Exception` becomes
   * `Exit(1)`, and an exhausted budget (no call left) is `Exit(1)` too.
   */
  lemma {:induction false} RetryFailure<T>(s: RetryState, calls: nat -> Call<T>, k: nat)
    requires RetryFrom(s, calls, k).result.Raised?
    ensures var run := RetryFrom(s, calls, k);
      var e := run.result.exc;
      && (e.MaxTokens? || e.Interrupt? || e == Exit(1))
      && (e.MaxTokens? ==> calls(run.used - 1) == Raises(MaxTokens))
      && (e.Interrupt? ==> calls(run.used - 1) == Raises(Interrupt))
      && (run.state.failBudget <= 0 || (run.used > k && calls(run.used - 1).Raises? && !IsRetryable(calls(run.used - 1).exc)))
    decreases if s.failBudget > 0 then s.failBudget else 0
  {
    if s.failBudget > 0 && calls(k).Raises? && IsRetryable(calls(k).exc) {
      RetryFailure(ApplyDelay(s), calls, k + 1);
    }
  }

  /** When every call fails with an allow-listed exception, exactly `budget` calls are made, then `Exit(1)`. */
  lemma {:induction false} RetryExhausts<T>(s: RetryState, calls: nat -> Call<T>, k: nat)
    requires forall j {:trigger calls(j)} :: k <= j ==> calls(j).Raises? && IsRetryable(calls(j).exc)
    ensures var run := RetryFrom(s, calls, k);
      && run.result == Raised(Exit(1))
      && run.used == k + (if s.failBudget > 0 then s.failBudget else 0)
      && run.state.failBudget == (if s.failBudget > 0 then 0 else s.failBudget)
    decreases if s.failBudget > 0 then s.failBudget else 0
  {
    if s.failBudget > 0 {
      assert calls(k).Raises? && IsRetryable(calls(k).exc);
      RetryExhausts(ApplyDelay(s), calls, k + 1);
    }
  }

  /** The budget bound is kept by every run of the loop. */
  lemma {:induction false} RetryKeepsBound<T>(s: RetryState, calls: nat -> Call<T>, k: nat)
    requires BudgetBounded(s)
    ensures BudgetBounded(RetryFrom(s, calls, k).state)
    ensures RetryFrom(s, calls, k).state.config == s.config
    decreases if s.failBudget > 0 then s.failBudget else 0
  {
    if s.failBudget > 0 && calls(k).Raises? && IsRetryable(calls(k).exc) {
      RetryKeepsBound(ApplyDelay(s), calls, k + 1);
    }
  }

  /** Every call in `k..last` raised. */
  ghost predicate AllRaised<T>(calls: nat -> Call<T>, k: nat, last: nat)
  {
    forall j {:trigger calls(j)} :: k <= j < last ==> calls(j).Raises?
  }

  /**
   * The calls a run used: on success every call raised but the last, which
   * returned the value; on failure every call raised.
   */
  lemma {:induction false} RetryCallShape<T>(s: RetryState, calls: nat -> Call<T>, k: nat)
    ensures var run := RetryFrom(s, calls, k);
      && (run.result.Ok? ==> run.used > k && AllRaised(calls, k, run.used - 1) && calls(run.used - 1) == Returns(run.result.value))
      && (run.result.Raised? ==> AllRaised(calls, k, run.used))
    decreases if s.failBudget > 0 then s.failBudget else 0
  {
    if s.failBudget > 0 && calls(k).Raises? && IsRetryable(calls(k).exc) {
      RetryCallShape(ApplyDelay(s), calls, k + 1);
    }
  }
}
