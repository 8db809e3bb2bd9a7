/**
 * The AI manager: token-usage counters, the vision-request switch, and the
 * semantic retry loops that validate the provider's answers, drop a bad
 * answer from the provider's cache and ask again. Every provider call goes
 * through the retry manager, whose state the AI manager carries (it is a
 * retry manager itself). Provider calls are a sequence of outcomes indexed by
 * call number; prompts, the cache's contents and logging are left out, and
 * the cache is seen only through the number of entries popped from it.
 */
module AiManager {
  import opened Wrappers
  import opened Retry
  import Chunk

  datatype Category = ChunkUse | EmbedUse | RerankUse | QueryUse | VisionUse

  /** `ai_usage_stats`: tokens spent per kind of request. */
  datatype Usage = Usage(chunk: nat, embed: nat, rerank: nat, query: nat, vision: nat)

  const NoUsage: Usage := Usage(0, 0, 0, 0, 0)

  function UsageOf(u: Usage, c: Category): nat
  {
    match c
    case ChunkUse => u.chunk
    case EmbedUse => u.embed
    case RerankUse => u.rerank
    case QueryUse => u.query
    case VisionUse => u.vision
  }

  /** `ai_usage_stats[c] += n`. */
  function AddUsage(u: Usage, c: Category, n: nat): (r: Usage)
    ensures UsageOf(r, c) == UsageOf(u, c) + n
    ensures forall d :: d != c ==> UsageOf(r, d) == UsageOf(u, d)
  {
    match c
    case ChunkUse => u.(chunk := u.chunk + n)
    case EmbedUse => u.(embed := u.embed + n)
    case RerankUse => u.(rerank := u.rerank + n)
    case QueryUse => u.(query := u.query + n)
    case VisionUse => u.(vision := u.vision + n)
  }

  /** No counter is lower than in `u`. */
  predicate UsageAtLeast(r: Usage, u: Usage)
  {
    forall c :: UsageOf(r, c) >= UsageOf(u, c)
  }

  datatype VisionRequest = Entity | Ocr

  /** The manager's state: its retry budget, usage counters, pending vision request and cache pops so far. */
  datatype Manager = Manager(retry: RetryState, usage: Usage, requested: Option<VisionRequest>, pops: nat)

  /** No predelay, no minimum delay (so backoff starts at one second), a one-minute cap, doubling, ten attempts. */
  const ManagerRetryConfig: RetryConfig := RetryConfig(0.0, 60.0, 2.0, 10)

  /** `AiManager.__init__`. */
  function NewAiManager(): (m: Manager)
    ensures m.usage == NoUsage && m.requested == None && m.pops == 0
    ensures m.retry.failBudget == 10 && m.retry.backoffDelay == 1.0
    ensures BudgetBounded(m.retry)
  {
    Manager(NewRetryManager(ManagerRetryConfig), NoUsage, None, 0)
  }

  /** One provider answer: its token count and the structured answer, if it parsed. */
  datatype AiResult<S> = AiResult(totalTokens: nat, parsed: Option<S>)

  /** Why an answer was turned down. */
  datatype Rejection =
    | NoSchema
    | LengthMismatch
    | NoStartLines
    | FirstNotOne
    | InvalidLineNumbers
    | NotPermutation

  /** What validation makes of an answer: keep it, return it after dropping it from the cache, or ask again. */
  datatype Verdict<S> = Accept(value: S) | ReturnRejected(value: S) | Reject(why: Rejection)

  /** An exception the loop caught and logged before the next attempt. */
  datatype Logged = RetryError(exc: Exc) | Invalid(why: Rejection)

  datatype Outcome<S> = Returned(value: S) | Failed(exc: Exc)

  datatype LoopRun<S> = LoopRun(outcome: Outcome<S>, manager: Manager, used: nat, log: seq<Logged>)

  /** `self.ai_provider.cache.pop()`. */
  function Pop(m: Manager): (r: Manager)
    ensures r.pops == m.pops + 1
  {
    m.(pops := m.pops + 1)
  }

  /** The `try` body of one attempt: either it finishes the loop, or its exception is caught and logged. */
  datatype Attempt<S> =
    | Finished(outcome: Outcome<S>, manager: Manager, used: nat)
    | Caught(logged: Logged, manager: Manager, used: nat)

  /**
   * One attempt of `chunk` or `rerank`: a retried provider call whose
   * tokens are counted and whose answer is validated. An exception from
   * the retry manager, `typer.Exit` included, is an `Exception` and is
   * caught; a turned-down answer pops the cache and is caught likewise.
   */
  function TryOnce<S>(m: Manager, cat: Category, validate: AiResult<S> -> Verdict<S>,
                      calls: nat -> Call<AiResult<S>>, k: nat): Attempt<S>
  {
    var r := RetryFrom(m.retry, calls, k);
    var m1 := m.(retry := r.state);
    match r.result
    case Raised(e) =>
      if IsException(e) then Caught(RetryError(e), m1, r.used) else Finished(Failed(e), m1, r.used)
    case Ok(res) =>
      var m2 := m1.(usage := AddUsage(m1.usage, cat, res.totalTokens));
      match validate(res)
      case Accept(v) => Finished(Returned(v), m2, r.used)
      case ReturnRejected(v) => Finished(Returned(v), Pop(m2), r.used)
      case Reject(why) => Caught(Invalid(why), Pop(m2), r.used)
  }

  type AttemptFn<S> = (Manager, nat) -> Attempt<S>

  function AttemptOf<S>(cat: Category, validate: AiResult<S> -> Verdict<S>, calls: nat -> Call<AiResult<S>>): AttemptFn<S>
  {
    (m: Manager, k: nat) => TryOnce(m, cat, validate, calls, k)
  }

  /**
   * The loop shared by `chunk` and `rerank`: up to `left` attempts from
   * call number `k`; running out of attempts pops the cache once more and
   * raises `RuntimeError(failure)`.
   */
  function SemanticLoop<S>(m: Manager, attempt: AttemptFn<S>, failure: string, k: nat, left: int): (run: LoopRun<S>)
    decreases if left > 0 then left else 0
  {
    if left <= 0 then LoopRun(Failed(Runtime(failure)), Pop(m), k, [])
    else
      match attempt(m, k)
      case Finished(outcome, m1, used) => LoopRun(outcome, m1, used, [])
      case Caught(logged, m1, used) =>
        var rest := SemanticLoop(m1, attempt, failure, used, left - 1);
        LoopRun(rest.outcome, rest.manager, rest.used, [logged] + rest.log)
  }

  /** Tokens of the calls in `k..end` that returned. */
  function SumTokens<S>(calls: nat -> Call<AiResult<S>>, k: nat, end: nat): nat
    decreases end
  {
    if end <= k then 0
    else SumTokens(calls, k, end - 1) + (if calls(end - 1).Returns? then calls(end - 1).value.totalTokens else 0)
  }

  lemma {:induction false} SumTokensSplit<S>(calls: nat -> Call<AiResult<S>>, k: nat, mid: nat, end: nat)
    requires k <= mid <= end
    ensures SumTokens(calls, k, end) == SumTokens(calls, k, mid) + SumTokens(calls, mid, end)
    decreases end
  {
    if end > mid {
      SumTokensSplit(calls, k, mid, end - 1);
    }
  }

  lemma {:induction false} SumTokensRaised<S>(calls: nat -> Call<AiResult<S>>, k: nat, end: nat)
    requires AllRaised(calls, k, end)
    ensures SumTokens(calls, k, end) == 0
    decreases end
  {
    if end > k {
      assert calls(end - 1).Raises?;
      SumTokensRaised(calls, k, end - 1);
    }
  }

  /** A retried call counts exactly the tokens of the one call that returned, if any. */
  lemma RetryTokens<S>(s: RetryState, calls: nat -> Call<AiResult<S>>, k: nat)
    ensures var run := RetryFrom(s, calls, k);
      SumTokens(calls, k, run.used) == (if run.result.Ok? then run.result.value.totalTokens else 0)
  {
    var run := RetryFrom(s, calls, k);
    RetryCallShape(s, calls, k);
    if run.result.Ok? {
      SumTokensRaised(calls, k, run.used - 1);
    } else {
      SumTokensRaised(calls, k, run.used);
    }
  }

  /**
   * What one attempt does, from manager `m` at call number `k`: it counts
   * exactly the tokens of the calls that returned; a caught exception pops
   * the cache only for a turned-down answer; a returned answer is the last
   * call's, kept by validation or returned as a rejection (which pops);
   * only a non-`Exception` escapes; and a spent budget is caught as
   * `Exit(1)` without a call.
   */
  ghost predicate AttemptBehaves<S>(a: Attempt<S>, m: Manager, k: nat, cat: Category,
                                    validate: AiResult<S> -> Verdict<S>, calls: nat -> Call<AiResult<S>>)
  {
    && k <= a.used
    && a.manager.usage == AddUsage(m.usage, cat, SumTokens(calls, k, a.used))
    && (a.Caught? ==> a.manager.pops == m.pops + (if a.logged.Invalid? then 1 else 0))
    && (a.Finished? && a.outcome.Returned? ==>
          && a.used > k
          && calls(a.used - 1).Returns?
          && validate(calls(a.used - 1).value) in {Accept(a.outcome.value), ReturnRejected(a.outcome.value)}
          && a.manager.pops == m.pops + (if validate(calls(a.used - 1).value).ReturnRejected? then 1 else 0))
    && (a.Finished? && a.outcome.Failed? ==> a.outcome.exc == Interrupt && a.manager.pops == m.pops)
    && (m.retry.failBudget <= 0 ==> a == Caught(RetryError(Exit(1)), m, k))
  }

  ghost predicate Behaves<S>(attempt: AttemptFn<S>, cat: Category, validate: AiResult<S> -> Verdict<S>,
                             calls: nat -> Call<AiResult<S>>)
  {
    forall m: Manager, k: nat {:trigger attempt(m, k)} :: AttemptBehaves(attempt(m, k), m, k, cat, validate, calls)
  }

  lemma TryOnceBehaves<S>(m: Manager, cat: Category, validate: AiResult<S> -> Verdict<S>,
                          calls: nat -> Call<AiResult<S>>, k: nat)
    ensures AttemptBehaves(TryOnce(m, cat, validate, calls, k), m, k, cat, validate, calls)
  {
    var r := RetryFrom(m.retry, calls, k);
    RetryTokens(m.retry, calls, k);
    RetryCallsBounded(m.retry, calls, k);
    if r.result.Ok? {
      RetrySuccessValue(m.retry, calls, k);
    } else {
      RetryFailure(m.retry, calls, k);
      AddNothing(m.usage, cat);
    }
  }

  lemma AttemptOfBehaves<S>(cat: Category, validate: AiResult<S> -> Verdict<S>, calls: nat -> Call<AiResult<S>>)
    ensures Behaves(AttemptOf(cat, validate, calls), cat, validate, calls)
  {
    forall m: Manager, k: nat
      ensures AttemptBehaves(AttemptOf(cat, validate, calls)(m, k), m, k, cat, validate, calls)
    {
      TryOnceBehaves(m, cat, validate, calls, k);
    }
  }

  function CountInvalid(log: seq<Logged>): nat
  {
    if |log| == 0 then 0 else (if log[0].Invalid? then 1 else 0) + CountInvalid(log[1..])
  }

  /**
   * At most `left` attempts are made, one logged exception per failed
   * attempt. The loop ends in one of three ways: an answer is returned
   * (the last call returned it and validation kept it, or turned it down
   * without asking again); an exception that is not an `Exception`
   * escapes; or all attempts failed and `RuntimeError(failure)` is raised.
   */
  lemma {:induction false} LoopEnds<S>(m: Manager, attempt: AttemptFn<S>, failure: string, k: nat, left: int,
                                        cat: Category, validate: AiResult<S> -> Verdict<S>, calls: nat -> Call<AiResult<S>>)
    requires Behaves(attempt, cat, validate, calls)
    ensures var run := SemanticLoop(m, attempt, failure, k, left);
      && k <= run.used
      && |run.log| <= (if left > 0 then left else 0)
      && (run.outcome.Returned? ==>
            && run.used > k
            && calls(run.used - 1).Returns?
            && validate(calls(run.used - 1).value) in {Accept(run.outcome.value), ReturnRejected(run.outcome.value)}
            && |run.log| < left)
      && (run.outcome.Failed? && IsException(run.outcome.exc) ==>
            run.outcome.exc == Runtime(failure) && |run.log| == (if left > 0 then left else 0))
      && (run.outcome.Failed? && !IsException(run.outcome.exc) ==> run.outcome.exc == Interrupt)
    decreases if left > 0 then left else 0
  {
    if left > 0 {
      var a := attempt(m, k);
      assert AttemptBehaves(a, m, k, cat, validate, calls);
      if a.Caught? {
        LoopEnds(a.manager, attempt, failure, a.used, left - 1, cat, validate, calls);
      }
    }
  }

  /**
   * Every turned-down answer pops the cache once, a returned rejection pops
   * it once, and running out of attempts pops it once more.
   */
  lemma {:induction false} LoopPops<S>(m: Manager, attempt: AttemptFn<S>, failure: string, k: nat, left: int,
                                        cat: Category, validate: AiResult<S> -> Verdict<S>, calls: nat -> Call<AiResult<S>>)
    requires Behaves(attempt, cat, validate, calls)
    ensures var run := SemanticLoop(m, attempt, failure, k, left);
      && (run.outcome.Returned? && run.used > k && calls(run.used - 1).Returns? ==>
            run.manager.pops == m.pops + CountInvalid(run.log) + (if validate(calls(run.used - 1).value).ReturnRejected? then 1 else 0))
      && (run.outcome.Failed? && IsException(run.outcome.exc) ==> run.manager.pops == m.pops + CountInvalid(run.log) + 1)
      && (run.outcome.Failed? && !IsException(run.outcome.exc) ==> run.manager.pops == m.pops + CountInvalid(run.log))
    decreases if left > 0 then left else 0
  {
    if left > 0 {
      var a := attempt(m, k);
      assert AttemptBehaves(a, m, k, cat, validate, calls);
      if a.Caught? {
        var rest := SemanticLoop(a.manager, attempt, failure, a.used, left - 1);
        LoopPops(a.manager, attempt, failure, a.used, left - 1, cat, validate, calls);
        LoopEnds(a.manager, attempt, failure, a.used, left - 1, cat, validate, calls);
        assert ([a.logged] + rest.log)[1..] == rest.log;
      }
    }
  }

  /**
   * The loop's counter grows by exactly the tokens of the provider calls
   * that returned; the other counters do not move.
   */
  lemma {:induction false} LoopUsage<S>(m: Manager, attempt: AttemptFn<S>, failure: string, k: nat, left: int,
                                         cat: Category, validate: AiResult<S> -> Verdict<S>, calls: nat -> Call<AiResult<S>>)
    requires Behaves(attempt, cat, validate, calls)
    ensures var run := SemanticLoop(m, attempt, failure, k, left);
      run.manager.usage == AddUsage(m.usage, cat, SumTokens(calls, k, run.used))
    decreases if left > 0 then left else 0
  {
    if left <= 0 {
      AddNothing(m.usage, cat);
    } else {
      var a := attempt(m, k);
      assert AttemptBehaves(a, m, k, cat, validate, calls);
      if a.Caught? {
        var rest := SemanticLoop(a.manager, attempt, failure, a.used, left - 1);
        LoopUsage(a.manager, attempt, failure, a.used, left - 1, cat, validate, calls);
        LoopEnds(a.manager, attempt, failure, a.used, left - 1, cat, validate, calls);
        SumTokensSplit(calls, k, a.used, rest.used);
        AddTwice(m.usage, cat, SumTokens(calls, k, a.used), SumTokens(calls, a.used, rest.used));
      }
    }
  }

  lemma AddNothing(u: Usage, c: Category)
    ensures AddUsage(u, c, 0) == u
  {
  }

  lemma AddTwice(u: Usage, c: Category, a: nat, b: nat)
    ensures AddUsage(AddUsage(u, c, a), c, b) == AddUsage(u, c, a + b)
  {
  }

  /**
   * The retry budget is not restored by a failed attempt: once it is spent,
   * every later attempt aborts with `Exit(1)` without calling the provider,
   * and the loop ends in `RuntimeError(failure)` having made no call.
   */
  lemma {:induction false} SpentBudgetMakesNoCalls<S>(m: Manager, attempt: AttemptFn<S>, failure: string, k: nat, left: int,
                                                       cat: Category, validate: AiResult<S> -> Verdict<S>, calls: nat -> Call<AiResult<S>>)
    requires Behaves(attempt, cat, validate, calls)
    requires m.retry.failBudget <= 0
    ensures var run := SemanticLoop(m, attempt, failure, k, left);
      && run.used == k
      && run.outcome == Failed(Runtime(failure))
      && run.log == seq(if left > 0 then left else 0, _ => RetryError(Exit(1)))
      && run.manager.pops == m.pops + 1
      && run.manager.usage == m.usage
    decreases if left > 0 then left else 0
  {
    if left > 0 {
      assert AttemptBehaves(attempt(m, k), m, k, cat, validate, calls);
      SpentBudgetMakesNoCalls(m, attempt, failure, k, left - 1, cat, validate, calls);
    }
  }

  // ---------------------------------------------------------------------
  // chunk
  // ---------------------------------------------------------------------

  /**
   * `chunk`'s checks, in order, with the line-number check as its error
   * message describes it: every start line lies in `1..n` for `n` sentences.
   */
  function ChunkVerdict(parsed: Option<Chunk.ChunkSchema>, n: int): (r: Verdict<Chunk.ChunkSchema>)
    ensures r.Accept? <==>
      && parsed.Some?
      && |parsed.value.starts| == |parsed.value.headers|
      && |parsed.value.starts| > 0
      && parsed.value.starts[0] == 1
      && StartsInRange(parsed.value.starts, n)
    ensures r.Accept? ==> r.value == parsed.value
    ensures !r.ReturnRejected?
  {
    match parsed
    case None => Reject(NoSchema)
    case Some(s) =>
      if |s.starts| != |s.headers| then Reject(LengthMismatch)
      else if |s.starts| == 0 then Reject(NoStartLines)
      else if s.starts[0] != 1 then Reject(FirstNotOne)
      else if !StartsInRange(s.starts, n) then Reject(InvalidLineNumbers)
      else Accept(s)
  }

  /** `all(0 < x <= n for x in starts)`. */
  predicate StartsInRange(starts: seq<int>, n: int)
  {
    forall i :: 0 <= i < |starts| ==> 0 < starts[i] <= n
  }

  /** `any(starts)` as Python compares it with integers: `True` is 1 and `False` is 0. */
  function AnyAsInt(starts: seq<int>): (b: int)
    ensures b == 1 <==> exists i :: 0 <= i < |starts| && starts[i] != 0
    ensures b == 0 || b == 1
  {
    if |starts| == 0 then 0
    else if starts[0] != 0 then 1
    else
      var rest := AnyAsInt(starts[1..]);
      assert forall i :: 0 < i < |starts| ==> starts[i] == starts[1..][i - 1];
      rest
  }

  /**
   * `chunk`'s checks with the line-number guard as written:
   * `0 < any(starts) <= n`. Once the first start line is 1, that guard only
   * asks for at least one sentence.
   */
  function ChunkVerdictAsWritten(parsed: Option<Chunk.ChunkSchema>, n: int): (r: Verdict<Chunk.ChunkSchema>)
    ensures r.Accept? <==>
      && parsed.Some?
      && |parsed.value.starts| == |parsed.value.headers|
      && |parsed.value.starts| > 0
      && parsed.value.starts[0] == 1
      && n >= 1
    ensures r.Accept? ==> r.value == parsed.value
    ensures !r.ReturnRejected?
  {
    match parsed
    case None => Reject(NoSchema)
    case Some(s) =>
      if |s.starts| != |s.headers| then Reject(LengthMismatch)
      else if |s.starts| == 0 then Reject(NoStartLines)
      else if s.starts[0] != 1 then Reject(FirstNotOne)
      else if !(0 < AnyAsInt(s.starts) <= n) then Reject(InvalidLineNumbers)
      else Accept(s)
  }

  /**
   * As written, the line-number guard only asks for one sentence: once the
   * first start line is 1, it passes for every `n >= 1`, whatever the other
   * start lines are.
   */
  lemma AsWrittenGuardOnlyNeedsOneSentence(s: Chunk.ChunkSchema, n: int)
    requires |s.starts| == |s.headers| && |s.starts| > 0 && s.starts[0] == 1
    ensures ChunkVerdictAsWritten(Some(s), n).Accept? <==> n >= 1
  {
    assert AnyAsInt(s.starts) == 1;
  }

  /** With one sentence, the start lines `[1, 5]` pass the guard as written and fail the intended one. */
  lemma AsWrittenGuardAcceptsOutOfRange()
    ensures var s := Chunk.ChunkSchema([1, 5], ["Intro", "Rest"]);
      ChunkVerdictAsWritten(Some(s), 1) == Accept(s) && ChunkVerdict(Some(s), 1) == Reject(InvalidLineNumbers)
  {
    var s := Chunk.ChunkSchema([1, 5], ["Intro", "Rest"]);
    assert s.starts[0] != 0;
    assert !(0 < s.starts[1] <= 1);
  }

  /**
   * An accepted answer whose start lines also increase is exactly what the
   * chunker needs: first line 1, increasing, within the block.
   */
  lemma AcceptedStartsAreValid(parsed: Option<Chunk.ChunkSchema>, n: int)
    requires ChunkVerdict(parsed, n).Accept?
    requires forall i, j :: 0 <= i < j < |parsed.value.starts| ==> parsed.value.starts[i] < parsed.value.starts[j]
    ensures Chunk.ValidStarts(parsed.value.starts, n)
  {
    var st := parsed.value.starts;
    assert 0 < st[|st| - 1] <= n;
  }

  /** The validator `chunk` runs: the guard as written. */
  function ChunkValidator(n: int): AiResult<Chunk.ChunkSchema> -> Verdict<Chunk.ChunkSchema>
  {
    (r: AiResult<Chunk.ChunkSchema>) => ChunkVerdictAsWritten(r.parsed, n)
  }

  /** The validator with the line-number check its error message describes. */
  function CorrectedChunkValidator(n: int): AiResult<Chunk.ChunkSchema> -> Verdict<Chunk.ChunkSchema>
  {
    (r: AiResult<Chunk.ChunkSchema>) => ChunkVerdict(r.parsed, n)
  }

  /** `chunk(sentences, retries)` for `n` sentences. */
  function ChunkRequest(m: Manager, n: int, calls: nat -> Call<AiResult<Chunk.ChunkSchema>>, k: nat, retries: int): LoopRun<Chunk.ChunkSchema>
  {
    SemanticLoop(m, AttemptOf(ChunkUse, ChunkValidator(n), calls), "Failed to recover from chunking errors", k, retries)
  }

  /** `chunk` with the corrected line-number check. */
  function CorrectedChunkRequest(m: Manager, n: int, calls: nat -> Call<AiResult<Chunk.ChunkSchema>>, k: nat, retries: int): LoopRun<Chunk.ChunkSchema>
  {
    SemanticLoop(m, AttemptOf(ChunkUse, CorrectedChunkValidator(n), calls), "Failed to recover from chunking errors", k, retries)
  }

  /**
   * A schema `chunk` returns was parsed from the last call and passed every
   * check as written: as many headers as start lines, at least one start
   * line, the first being 1, and at least one sentence; the other start
   * lines are not checked. At most `retries` attempts fail first; a failure
   * is `RuntimeError` after exactly `retries` attempts, or an escaping
   * non-`Exception`.
   */
  lemma ChunkReturnsSchema(m: Manager, n: int, calls: nat -> Call<AiResult<Chunk.ChunkSchema>>, k: nat, retries: int)
    ensures var run := ChunkRequest(m, n, calls, k, retries);
      && (run.outcome.Returned? ==>
            && run.used > k
            && calls(run.used - 1).Returns?
            && calls(run.used - 1).value.parsed == Some(run.outcome.value)
            && |run.outcome.value.starts| == |run.outcome.value.headers|
            && |run.outcome.value.starts| > 0
            && run.outcome.value.starts[0] == 1
            && n >= 1
            && |run.log| < retries
            && run.manager.pops == m.pops + CountInvalid(run.log))
      && (run.outcome.Failed? ==> run.outcome.exc in {Runtime("Failed to recover from chunking errors"), Interrupt})
      && (run.outcome == Failed(Runtime("Failed to recover from chunking errors")) ==>
            |run.log| == (if retries > 0 then retries else 0) && run.manager.pops == m.pops + CountInvalid(run.log) + 1)
  {
    var v := ChunkValidator(n);
    AttemptOfBehaves(ChunkUse, v, calls);
    LoopEnds(m, AttemptOf(ChunkUse, v, calls), "Failed to recover from chunking errors", k, retries, ChunkUse, v, calls);
    LoopPops(m, AttemptOf(ChunkUse, v, calls), "Failed to recover from chunking errors", k, retries, ChunkUse, v, calls);
    var run := ChunkRequest(m, n, calls, k, retries);
    if run.outcome.Returned? {
      var res := calls(run.used - 1).value;
      assert v(res) == ChunkVerdictAsWritten(res.parsed, n);
    }
  }

  /**
   * With the corrected check, a returned schema also has every start line
   * within `1..n`.
   */
  lemma ChunkReturnsValidSchema(m: Manager, n: int, calls: nat -> Call<AiResult<Chunk.ChunkSchema>>, k: nat, retries: int)
    ensures var run := CorrectedChunkRequest(m, n, calls, k, retries);
      && (run.outcome.Returned? ==>
            && run.used > k
            && calls(run.used - 1).Returns?
            && calls(run.used - 1).value.parsed == Some(run.outcome.value)
            && |run.outcome.value.starts| == |run.outcome.value.headers|
            && |run.outcome.value.starts| > 0
            && run.outcome.value.starts[0] == 1
            && StartsInRange(run.outcome.value.starts, n)
            && |run.log| < retries
            && run.manager.pops == m.pops + CountInvalid(run.log))
      && (run.outcome.Failed? ==> run.outcome.exc in {Runtime("Failed to recover from chunking errors"), Interrupt})
      && (run.outcome == Failed(Runtime("Failed to recover from chunking errors")) ==>
            |run.log| == (if retries > 0 then retries else 0) && run.manager.pops == m.pops + CountInvalid(run.log) + 1)
  {
    var v := CorrectedChunkValidator(n);
    AttemptOfBehaves(ChunkUse, v, calls);
    LoopEnds(m, AttemptOf(ChunkUse, v, calls), "Failed to recover from chunking errors", k, retries, ChunkUse, v, calls);
    LoopPops(m, AttemptOf(ChunkUse, v, calls), "Failed to recover from chunking errors", k, retries, ChunkUse, v, calls);
    var run := CorrectedChunkRequest(m, n, calls, k, retries);
    if run.outcome.Returned? {
      var res := calls(run.used - 1).value;
      assert v(res) == ChunkVerdict(res.parsed, n);
    }
  }

  /**
   * When the next call answers the schema `[1, 99]` for three sentences, the
   * source's `chunk` returns it on the first attempt, while the corrected
   * check rejects it; with one attempt allowed, the corrected loop gives up.
   */
  lemma ChunkRequestAcceptsOutOfRange(m: Manager, calls: nat -> Call<AiResult<Chunk.ChunkSchema>>, k: nat)
    requires m.retry.failBudget > 0
    requires calls(k) == Returns(AiResult(0, Some(Chunk.ChunkSchema([1, 99], ["A", "B"]))))
    ensures ChunkRequest(m, 3, calls, k, 1).outcome == Returned(Chunk.ChunkSchema([1, 99], ["A", "B"]))
    ensures CorrectedChunkRequest(m, 3, calls, k, 1).outcome == Failed(Runtime("Failed to recover from chunking errors"))
  {
    var s := Chunk.ChunkSchema([1, 99], ["A", "B"]);
    assert AnyAsInt(s.starts) == 1;
    assert !(0 < s.starts[1] <= 3);
    assert ChunkVerdict(Some(s), 3) == Reject(InvalidLineNumbers);
  }

  // ---------------------------------------------------------------------
  // rerank
  // ---------------------------------------------------------------------

  datatype RerankSchema = RerankSchema(indices: seq<int>, isRejected: bool, reason: string)

  /**
   * `rerank`'s checks. A rejected answer, or the bare answer `[0]`, is
   * returned after popping the cache; otherwise the indices must be the
   * chunk keys in some order (`sorted(reranked) == sorted(expected)`, which
   * is equality of multisets).
   */
  function RerankVerdict(parsed: Option<RerankSchema>, keys: seq<int>): (r: Verdict<RerankSchema>)
    ensures r.ReturnRejected? <==> parsed.Some? && (parsed.value.isRejected || parsed.value.indices == [0])
    ensures r.Accept? <==> parsed.Some? && !parsed.value.isRejected && parsed.value.indices != [0]
                           && multiset(parsed.value.indices) == multiset(keys)
    ensures !r.Reject? ==> r.value == parsed.value
  {
    match parsed
    case None => Reject(NoSchema)
    case Some(s) =>
      if s.isRejected || s.indices == [0] then ReturnRejected(s)
      else if multiset(s.indices) != multiset(keys) then Reject(NotPermutation)
      else Accept(s)
  }

  predicate Distinct(s: seq<int>)
  {
    forall i, j :: 0 <= i < j < |s| ==> s[i] != s[j]
  }

  lemma {:induction false} DistinctCountsOne(s: seq<int>, x: int)
    requires Distinct(s)
    ensures multiset(s)[x] <= 1
  {
    if |s| > 0 {
      assert s == [s[0]] + s[1..];
      assert Distinct(s[1..]) by {
        forall i, j | 0 <= i < j < |s[1..]|
          ensures s[1..][i] != s[1..][j]
        {
          assert s[1..][i] == s[i + 1] && s[1..][j] == s[j + 1];
        }
      }
      DistinctCountsOne(s[1..], x);
      if s[0] == x {
        assert x !in s[1..] by {
          forall i | 0 <= i < |s[1..]|
            ensures s[1..][i] != x
          {
            assert s[1..][i] == s[i + 1];
          }
        }
      }
    }
  }

  lemma RepeatCountsTwo(s: seq<int>, i: nat, j: nat)
    requires i < j < |s| && s[i] == s[j]
    ensures multiset(s)[s[i]] >= 2
  {
    assert s == s[..j] + s[j..];
    assert s[i] in s[..j];
    assert s[j..][0] == s[j];
  }

  /**
   * With distinct chunk keys, an accepted order lists every key exactly
   * once: a permutation of the keys.
   */
  lemma AcceptedRerankIsPermutation(parsed: Option<RerankSchema>, keys: seq<int>)
    requires Distinct(keys)
    requires RerankVerdict(parsed, keys).Accept?
    ensures var ix := parsed.value.indices;
      |ix| == |keys| && Distinct(ix) && (forall x :: x in ix <==> x in keys)
  {
    var ix := parsed.value.indices;
    assert |multiset(ix)| == |multiset(keys)|;
    forall i, j | 0 <= i < j < |ix|
      ensures ix[i] != ix[j]
    {
      if ix[i] == ix[j] {
        RepeatCountsTwo(ix, i, j);
        DistinctCountsOne(keys, ix[i]);
      }
    }
    forall x
      ensures x in ix <==> x in keys
    {
      assert x in multiset(ix) <==> x in multiset(keys);
    }
  }

  function RerankValidator(keys: seq<int>): AiResult<RerankSchema> -> Verdict<RerankSchema>
  {
    (r: AiResult<RerankSchema>) => RerankVerdict(r.parsed, keys)
  }

  /** `rerank(question, indexed_chunks, retries)`, the chunk keys in the dictionary's order. */
  function RerankRequest(m: Manager, keys: seq<int>, calls: nat -> Call<AiResult<RerankSchema>>, k: nat, retries: int): LoopRun<RerankSchema>
  {
    SemanticLoop(m, AttemptOf(RerankUse, RerankValidator(keys), calls), "Failed to recover from reranking errors", k, retries)
  }

  /**
   * What `rerank` returns is the last call's parsed answer, and either a
   * rejection (flagged, or `[0]`) that popped the cache, or an order of the
   * chunk keys.
   */
  lemma RerankReturns(m: Manager, keys: seq<int>, calls: nat -> Call<AiResult<RerankSchema>>, k: nat, retries: int)
    ensures var run := RerankRequest(m, keys, calls, k, retries);
      run.outcome.Returned? ==>
        var s := run.outcome.value;
        && run.used > k
        && calls(run.used - 1).Returns?
        && calls(run.used - 1).value.parsed == Some(s)
        && ((s.isRejected || s.indices == [0]) ==> run.manager.pops == m.pops + CountInvalid(run.log) + 1)
        && (!(s.isRejected || s.indices == [0]) ==>
              multiset(s.indices) == multiset(keys) && run.manager.pops == m.pops + CountInvalid(run.log))
  {
    var v := RerankValidator(keys);
    AttemptOfBehaves(RerankUse, v, calls);
    LoopEnds(m, AttemptOf(RerankUse, v, calls), "Failed to recover from reranking errors", k, retries, RerankUse, v, calls);
    LoopPops(m, AttemptOf(RerankUse, v, calls), "Failed to recover from reranking errors", k, retries, RerankUse, v, calls);
    var run := RerankRequest(m, keys, calls, k, retries);
    if run.outcome.Returned? {
      var res := calls(run.used - 1).value;
      assert v(res) == RerankVerdict(res.parsed, keys);
    }
  }

  // ---------------------------------------------------------------------
  // Single calls: embed, query, vision
  // ---------------------------------------------------------------------

  datatype CallRun<S> = CallRun(outcome: Outcome<S>, manager: Manager, used: nat)

  /**
   * One retried provider call whose tokens are counted and whose answer
   * must be present (`assert result.parsed_schema is not None`). Exceptions
   * from the retry manager propagate.
   */
  function SingleCall<S>(m: Manager, cat: Category, calls: nat -> Call<AiResult<S>>, k: nat): (run: CallRun<S>)
    ensures k <= run.used
    ensures run.manager.pops == m.pops && run.manager.requested == m.requested
    ensures UsageAtLeast(run.manager.usage, m.usage)
  {
    var r := RetryFrom(m.retry, calls, k);
    var m1 := m.(retry := r.state);
    match r.result
    case Raised(e) => CallRun(Failed(e), m1, r.used)
    case Ok(res) =>
      var m2 := m1.(usage := AddUsage(m1.usage, cat, res.totalTokens));
      if res.parsed.None? then CallRun(Failed(Assertion), m2, r.used)
      else CallRun(Returned(res.parsed.value), m2, r.used)
  }

  /** The single call's counter grows by exactly the tokens of the call that returned. */
  lemma SingleCallUsage<S>(m: Manager, cat: Category, calls: nat -> Call<AiResult<S>>, k: nat)
    ensures var run := SingleCall(m, cat, calls, k);
      run.manager.usage == AddUsage(m.usage, cat, SumTokens(calls, k, run.used))
  {
    RetryTokens(m.retry, calls, k);
    if RetryFrom(m.retry, calls, k).result.Raised? {
      AddNothing(m.usage, cat);
    }
  }

  /**
   * A returned answer is the parsed answer of the last call; a failure is
   * the retry manager's exception, or `AssertionError` for a call that
   * returned without a parsed answer.
   */
  lemma SingleCallResult<S>(m: Manager, cat: Category, calls: nat -> Call<AiResult<S>>, k: nat)
    ensures var run := SingleCall(m, cat, calls, k);
      && (run.outcome.Returned? ==> run.used > k && calls(run.used - 1).Returns? && calls(run.used - 1).value.parsed == Some(run.outcome.value))
      && (run.outcome == Failed(Assertion) ==> run.used > k && calls(run.used - 1).Returns? && calls(run.used - 1).value.parsed == None)
      && (run.outcome.Failed? && run.outcome.exc != Assertion ==> run.outcome.exc.MaxTokens? || run.outcome.exc.Interrupt? || run.outcome.exc == Exit(1))
  {
    var r := RetryFrom(m.retry, calls, k);
    if r.result.Ok? {
      RetrySuccessValue(m.retry, calls, k);
    } else {
      RetryFailure(m.retry, calls, k);
    }
  }

  /** `embed(text)`: the answer is the embedding vector. */
  function Embed(m: Manager, calls: nat -> Call<AiResult<seq<real>>>, k: nat): CallRun<seq<real>>
  {
    SingleCall(m, EmbedUse, calls, k)
  }

  /**
   * `query(question, points)`: the answer's references are resolved by
   * `format` and a rejected answer is dropped from the cache.
   */
  function Query<Q>(m: Manager, format: Q -> Q, isRejected: Q -> bool, calls: nat -> Call<AiResult<Q>>, k: nat): (run: CallRun<Q>)
    ensures var c := SingleCall(m, QueryUse, calls, k);
      && (c.outcome.Returned? ==> run.outcome == Returned(format(c.outcome.value)))
      && (c.outcome.Failed? ==> run.outcome == c.outcome)
      && run.manager.pops == m.pops + (if run.outcome.Returned? && isRejected(run.outcome.value) then 1 else 0)
      && run.used == c.used
  {
    var c := SingleCall(m, QueryUse, calls, k);
    match c.outcome
    case Failed(e) => c
    case Returned(q) =>
      var f := format(q);
      CallRun(Returned(f), if isRejected(f) then Pop(c.manager) else c.manager, c.used)
  }

  /** `request_entity`. */
  function RequestEntity(m: Manager): (r: Manager)
    ensures r.requested == Some(Entity) && r.retry == m.retry && r.usage == m.usage && r.pops == m.pops
  {
    m.(requested := Some(Entity))
  }

  /** `request_ocr`. */
  function RequestOcr(m: Manager): (r: Manager)
    ensures r.requested == Some(Ocr) && r.retry == m.retry && r.usage == m.usage && r.pops == m.pops
  {
    m.(requested := Some(Ocr))
  }

  /** The prompt `vision` uses: the requested kind, falling back to OCR when nothing was requested. */
  function VisionPrompt(requested: Option<VisionRequest>): (p: VisionRequest)
    ensures requested.Some? ==> p == requested.value
    ensures requested.None? ==> p == Ocr
  {
    match requested
    case Some(Entity) => Entity
    case _ => Ocr
  }

  datatype VisionRun<V> = VisionRun(prompt: VisionRequest, run: CallRun<V>)

  /**
   * `vision(image)`: the prompt comes from the pending request, which is
   * cleared before the call, whatever happens next; a rejected answer is
   * dropped from the cache.
   */
  function Vision<V>(m: Manager, isRejected: V -> bool, calls: nat -> Call<AiResult<V>>, k: nat): (v: VisionRun<V>)
    ensures v.prompt == VisionPrompt(m.requested)
    ensures v.run.manager.requested == None
    ensures var c := SingleCall(m.(requested := None), VisionUse, calls, k);
      && v.run.outcome == c.outcome
      && v.run.manager.pops == m.pops + (if v.run.outcome.Returned? && isRejected(v.run.outcome.value) then 1 else 0)
  {
    var prompt := VisionPrompt(m.requested);
    var c := SingleCall(m.(requested := None), VisionUse, calls, k);
    match c.outcome
    case Failed(e) => VisionRun(prompt, c)
    case Returned(a) => VisionRun(prompt, CallRun(c.outcome, if isRejected(a) then Pop(c.manager) else c.manager, c.used))
  }

  /** A request is used by exactly one `vision` call: the next call, unrequested, falls back to OCR. */
  lemma VisionConsumesRequest<V>(m: Manager, isRejected: V -> bool, calls: nat -> Call<AiResult<V>>, k: nat)
    ensures Vision(RequestEntity(m), isRejected, calls, k).prompt == Entity
    ensures Vision(RequestOcr(m), isRejected, calls, k).prompt == Ocr
    ensures var first := Vision(RequestEntity(m), isRejected, calls, k);
      Vision(first.run.manager, isRejected, calls, first.run.used).prompt == Ocr
  {
  }
}
