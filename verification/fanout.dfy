/**
 * The ordered fan-out of the vision and embedding processors. Each request
 * is handled on a worker and the results are collected as the workers
 * finish; the model runs the workers one after another in a completion
 * order given as a parameter, which may be any arrangement of the request
 * indices. The vision callback, the embedding call and the formatters are
 * parameters; a call that raises is a distinct outcome.
 */
module Fanout {
  import opened Wrappers
  import PyStr

  // ---------------------------------------------------------------------
  // Reassembly in request order

  /** `order` lists every index below `n` and nothing else, as `as_completed` does with the submitted futures. */
  predicate IsCompletionOrder(order: seq<nat>, n: nat)
  {
    |order| == n && (forall i :: 0 <= i < |order| ==> order[i] < n) && (forall k :: 0 <= k < n ==> k in order)
  }

  /** `0, 1, ..., n - 1`: the workers finishing in submission order. */
  function InOrder(n: nat): (order: seq<nat>)
    ensures IsCompletionOrder(order, n)
    ensures forall k :: 0 <= k < n ==> order[k] == k
  {
    if n == 0 then []
    else
      var order := InOrder(n - 1) + [n - 1];
      assert forall k :: 0 <= k < n - 1 ==> order[k] == InOrder(n - 1)[k];
      order
  }

  /**
   * Results stored in `results_dict` as the workers finish, then read back
   * as `[results_dict[i] for i in range(n)]`: entry `i` is the result of
   * request `i`, whatever the completion order.
   */
  method Reassemble<T>(n: nat, order: seq<nat>, work: nat -> T) returns (r: seq<T>)
    requires IsCompletionOrder(order, n)
    ensures |r| == n
    ensures forall i :: 0 <= i < n ==> r[i] == work(i)
  {
    var results: map<nat, T> := map[];
    var j := 0;
    while j < |order|
      invariant 0 <= j <= |order|
      invariant forall k :: k in results <==> k in order[..j]
      invariant forall k :: k in results ==> results[k] == work(k)
    {
      results := results[order[j] := work(order[j])];
      assert order[..j + 1] == order[..j] + [order[j]];
      j := j + 1;
    }
    assert order[..j] == order;
    r := [];
    var i := 0;
    while i < n
      invariant 0 <= i <= n && |r| == i
      invariant forall k :: 0 <= k < i ==> r[k] == work(k)
    {
      r := r + [results[i]];
      i := i + 1;
    }
  }

  /** Two completion orders give the same list. */
  method ReassembleIgnoresOrder<T>(n: nat, order1: seq<nat>, order2: seq<nat>, work: nat -> T) returns (r1: seq<T>, r2: seq<T>)
    requires IsCompletionOrder(order1, n) && IsCompletionOrder(order2, n)
    ensures r1 == r2 && |r1| == n
  {
    r1 := Reassemble(n, order1, work);
    r2 := Reassemble(n, order2, work);
  }

  /**
   * `if progress and task_id`: rich numbers tasks from 0, and a task id of 0
   * is falsy, so such a task is never advanced.
   */
  predicate Tracks(hasProgress: bool, taskId: Option<int>)
  {
    hasProgress && taskId.Some? && taskId.value != 0
  }

  // ---------------------------------------------------------------------
  // `VisionProcessor.process_vision_requests_parallel`

  /** What a vision callback did: returned text or `None`, or raised. */
  datatype CallbackOutcome = Returned(text: Option<string>) | Raised

  /** A request: the callback's outcome for its image, and the formatter for the answer. */
  datatype VisionRequest = VisionRequest(outcome: CallbackOutcome, formatter: Option<string> -> string, pageIndex: nat)

  /** `len(splitlines_exact(t)) == 1`, with `splitlines_exact` as the split on `"\n"`. */
  predicate SingleLine(t: string)
  {
    |PyStr.Split(t, '\n')| == 1
  }

  /** A text is a single line exactly when it holds no `"\n"`. */
  lemma SingleLineIffNoNewline(t: string)
    ensures SingleLine(t) <==> PyStr.HasNoChar(t, '\n')
  {
    if PyStr.HasNoChar(t, '\n') {
      PyStr.SplitNoSeparator(t, '\n');
    } else {
      PyStr.SplitAtSeparator(t, '\n');
    }
  }

  /**
   * The worker: the formatter applied to the callback's answer when the
   * callback returned normally and the answer, if any, is one line; the
   * formatter applied to `None` when the callback raised or the one-line
   * assertion failed.
   */
  function ProcessVision(req: VisionRequest): (r: string)
    ensures req.outcome.Raised? ==> r == req.formatter(None)
    ensures req.outcome == Returned(None) ==> r == req.formatter(None)
    ensures req.outcome.Returned? && req.outcome.text.Some? ==>
      r == req.formatter(if SingleLine(req.outcome.text.value) then req.outcome.text else None)
  {
    match req.outcome
    case Raised => req.formatter(None)
    case Returned(answer) =>
      if answer.Some? && !SingleLine(answer.value) then req.formatter(None)
      else req.formatter(answer)
  }

  /**
   * The whole fan-out: the formatted results in request order, and how far
   * the progress task advanced. An empty request list returns at once.
   */
  method ProcessVisionRequests(requests: seq<VisionRequest>, order: seq<nat>, hasProgress: bool, taskId: Option<int>)
    returns (r: seq<string>, advanced: nat)
    requires IsCompletionOrder(order, |requests|)
    ensures |r| == |requests|
    ensures forall i :: 0 <= i < |requests| ==> r[i] == ProcessVision(requests[i])
    ensures advanced == if Tracks(hasProgress, taskId) then |requests| else 0
  {
    if |requests| == 0 {
      return [], 0;
    }
    r := Reassemble(|requests|, order, (i: nat) => if i < |requests| then ProcessVision(requests[i]) else "");
    advanced := if Tracks(hasProgress, taskId) then |requests| else 0;
  }

  /** Every request gets an answer, and a failed one gets its formatter's text for `None`. */
  lemma FailedVisionIsFormattedNone(req: VisionRequest)
    requires req.outcome.Raised? || (req.outcome.Returned? && req.outcome.text.Some? && '\n' in req.outcome.text.value)
    ensures ProcessVision(req) == req.formatter(None)
  {
    if req.outcome.Returned? {
      SingleLineIffNoNewline(req.outcome.text.value);
    }
  }

  /** A one-line answer reaches the formatter unchanged. */
  lemma OneLineVisionIsFormatted(req: VisionRequest, t: string)
    requires req.outcome == Returned(Some(t)) && '\n' !in t
    ensures ProcessVision(req) == req.formatter(Some(t))
  {
    SingleLineIffNoNewline(t);
  }

  // ---------------------------------------------------------------------
  // `EmbedProcessor.process_chunks_parallel`

  /** `MAX_WORKERS`. */
  const MaxWorkers: nat := 8

  /** The part of a chunk the processor reads: its text and its reference range. */
  datatype Chunk = Chunk(text: string, referenceRange: (int, int))

  datatype EmbedError = ValueError(message: string)

  /**
   * The worker: a chunk whose range is `(0, 0)` fails its assertion, and an
   * embedding call that raises (`None` from `embed`) gives no vector; both
   * are caught and yield `None`.
   */
  function EmbedOne(c: Chunk, embed: string -> Option<seq<real>>): (r: (Chunk, Option<seq<real>>))
    ensures r.0 == c
    ensures c.referenceRange == (0, 0) ==> r.1 == None
    ensures c.referenceRange != (0, 0) ==> r.1 == embed(c.text)
  {
    if c.referenceRange == (0, 0) then (c, None) else (c, embed(c.text))
  }

  /** `min(MAX_WORKERS, len(chunks))`. */
  function WorkerCount(n: nat): (w: nat)
    ensures w <= MaxWorkers && w <= n
    ensures w == MaxWorkers || w == n
  {
    if n < MaxWorkers then n else MaxWorkers
  }

  /**
   * The whole fan-out: `(chunk, vector)` pairs in input order, no failure
   * raised, progress advanced once per chunk. With no chunks the pool is
   * asked for 0 workers, which it refuses with `ValueError`.
   */
  method ProcessChunks(chunks: seq<Chunk>, order: seq<nat>, embed: string -> Option<seq<real>>, hasProgress: bool, taskId: Option<int>)
    returns (r: Result<seq<(Chunk, Option<seq<real>>)>, EmbedError>, advanced: nat)
    requires IsCompletionOrder(order, |chunks|)
    ensures r.Failure? <==> WorkerCount(|chunks|) == 0
    ensures r.Failure? ==> r.error == ValueError("max_workers must be greater than 0") && advanced == 0
    ensures r.Success? ==> |r.value| == |chunks|
    ensures r.Success? ==> forall i :: 0 <= i < |chunks| ==> r.value[i] == EmbedOne(chunks[i], embed)
    ensures r.Success? ==> advanced == if Tracks(hasProgress, taskId) then |chunks| else 0
  {
    if WorkerCount(|chunks|) == 0 {
      return Failure(ValueError("max_workers must be greater than 0")), 0;
    }
    var pairs := Reassemble(|chunks|, order, (i: nat) => if i < |chunks| then EmbedOne(chunks[i], embed) else (Chunk("", (0, 0)), None));
    r := Success(pairs);
    advanced := if Tracks(hasProgress, taskId) then |chunks| else 0;
  }

  /** Only an empty chunk list makes the pool refuse. */
  lemma NoWorkersOnlyWhenEmpty(n: nat)
    ensures WorkerCount(n) == 0 <==> n == 0
  {
  }
}
