/**
 * The retry policy of the HTTP helper `fetchApi`, as a pure decision
 * procedure over a scripted list of replies: reply k answers attempt k.
 * Waiting is not performed; the waits the helper would sleep are returned.
 */
module Retry {
  import opened Wrappers

  /** Attempts made before the helper gives up. */
  const MaxAttempts: nat := 5
  /** HTTP "Too Many Requests". */
  const TooManyRequests: int := 429
  /** Lowest HTTP status treated as a server error. */
  const ServerError: int := 500

  /** One HTTP reply: its status and its `Retry-After` header in seconds, when present. */
  datatype Reply = Reply(status: int, retryAfter: Option<nat>)

  datatype Outcome =
    | Returned(attempt: nat)      // the reply of this attempt is handed to the caller
    | Failed                      // the loop ran out of attempts and throws
    | NetworkError(attempt: nat)  // `fetch` itself rejected at this attempt (no reply scripted)

  /** What one call does: its outcome and the waits, in milliseconds, slept before it. */
  datatype Run = Run(outcome: Outcome, waits: seq<nat>)

  /** A reply at `attempt` that makes the helper sleep and try again. */
  predicate Retryable(r: Reply, attempt: nat) {
    r.status == TooManyRequests || (r.status >= ServerError && attempt < MaxAttempts - 1)
  }

  /** The sleep before the next attempt: `Retry-After` (default 1) plus one second on 429, else 500 ms per attempt made. */
  function Backoff(r: Reply, attempt: nat): nat {
    if r.status == TooManyRequests then (r.retryAfter.GetOr(1) + 1) * 1000
    else 500 * (attempt + 1)
  }

  /**
   * The attempts from `attempt` on. The contract characterises the run
   * completely: every wait answers a retryable reply, and the run ends on the
   * first reply that is not retryable, on a missing reply, or after the last attempt.
   */
  function RetryFrom(replies: seq<Reply>, attempt: nat): (run: Run)
    requires attempt <= MaxAttempts
    ensures attempt + |run.waits| <= MaxAttempts
    ensures forall k :: attempt <= k < attempt + |run.waits| ==>
      k < |replies| && Retryable(replies[k], k) && run.waits[k - attempt] == Backoff(replies[k], k)
    ensures run.outcome.Returned? ==>
      run.outcome.attempt == attempt + |run.waits| < |replies|
      && !Retryable(replies[run.outcome.attempt], run.outcome.attempt)
    ensures run.outcome.NetworkError? ==>
      run.outcome.attempt == attempt + |run.waits| && |replies| <= run.outcome.attempt < MaxAttempts
    ensures run.outcome.Failed? <==> attempt + |run.waits| == MaxAttempts
    decreases MaxAttempts - attempt
  {
    if attempt == MaxAttempts then Run(Failed, [])
    else if attempt >= |replies| then Run(NetworkError(attempt), [])
    else
      var r := replies[attempt];
      if Retryable(r, attempt) then
        var rest := RetryFrom(replies, attempt + 1);
        Run(rest.outcome, [Backoff(r, attempt)] + rest.waits)
      else Run(Returned(attempt), [])
  }

  /** One call of the helper. */
  function FetchApi(replies: seq<Reply>): Run {
    RetryFrom(replies, 0)
  }

  /** At most five attempts; a returned reply comes from one of them. */
  lemma AttemptBound(replies: seq<Reply>)
    ensures |FetchApi(replies).waits| <= MaxAttempts
    ensures FetchApi(replies).outcome.Returned? ==> FetchApi(replies).outcome.attempt < MaxAttempts
  {
  }

  /** The helper throws only when all five replies were retryable, and then the last one was a 429. */
  lemma FailedOnlyAfterFinal429(replies: seq<Reply>)
    ensures FetchApi(replies).outcome.Failed? <==>
      |replies| >= MaxAttempts && forall j :: 0 <= j < MaxAttempts ==> Retryable(replies[j], j)
    ensures FetchApi(replies).outcome.Failed? ==> replies[MaxAttempts - 1].status == TooManyRequests
  {
  }

  /** The first reply that is not retryable is returned; this includes a server error on the fifth attempt. */
  lemma FirstSettledReplyReturned(replies: seq<Reply>, k: nat)
    requires k < |replies| && k < MaxAttempts
    requires forall j :: 0 <= j < k ==> Retryable(replies[j], j)
    requires !Retryable(replies[k], k)
    ensures FetchApi(replies).outcome == Returned(k)
    ensures |FetchApi(replies).waits| == k
  {
  }

  /** A 429 with `Retry-After: 2` is followed by a three-second wait and a second attempt. */
  lemma RateLimitedThenServed()
    ensures FetchApi([Reply(429, Some(2)), Reply(200, None)]) == Run(Returned(1), [3000])
  {
  }
}
