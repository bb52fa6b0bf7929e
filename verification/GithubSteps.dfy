/**
 What a GitHub call came to, and what the journaled step around it makes of that: an outcome
 to keep, a deadline to wait for, or an attempt to run again.
 */
module GithubSteps {
  import opened Wrappers
  import opened PrKeys
  import opened Text
  import BatchProgress

  type RejectReason = BatchProgress.RejectReason
  type ActionOutcome = BatchProgress.ActionOutcome

  /** How many items a page of a REST listing holds. */
  const LISTING_PAGE_SIZE: nat := 100

  const DEFAULT_RATE_LIMIT_WAIT_SECONDS: u64 := 60

  datatype Operation = Read | Merge | Comment | UpdateBranch

  datatype ErrorResponse = ErrorResponse(
    status: nat, message: string,
    rateLimitRemaining: Option<u64>, rateLimitReset: Option<u64>, retryAfterSeconds: Option<u64>)

  function Plain(status: nat, message: string): ErrorResponse {
    ErrorResponse(status, message, None, None, None)
  }

  datatype GithubError =
    | Transport
    | Http(response: ErrorResponse, knownResource: bool)
    | Protocol
    | Ambiguous(operation: Operation)
    | Config(message: string)
    | StaleSha(expected: string, actual: string)
    | Shifted(detail: string)

  datatype Classification =
    | Retryable
    | RateLimited(until: u64)
    | Rejected(reason: RejectReason)
    | Fatal

  function SaturatingAdd(a: u64, b: u64): u64 {
    if a + b <= U64_MAX then a + b else U64_MAX
  }

  predicate IsRateLimited(response: ErrorResponse) {
    var message := Lower(response.message);
    || response.rateLimitRemaining == Some(0)
    || response.retryAfterSeconds.Some?
    || Contains(message, "secondary rate limit")
    || Contains(message, "rate limit exceeded")
    || response.status == 429
  }

  function RateLimitedUntil(response: ErrorResponse, now: u64): u64 {
    match response.retryAfterSeconds
    case Some(after) => SaturatingAdd(now, after)
    case None =>
      match response.rateLimitReset
      case Some(reset) => reset
      case None => SaturatingAdd(now, DEFAULT_RATE_LIMIT_WAIT_SECONDS)
  }

  /** `classify_github_error`. */
  function Classify(response: ErrorResponse, operation: Operation, knownResource: bool, now: u64): Classification {
    var message := Lower(response.message);
    var status := response.status;
    if IsRateLimited(response) then RateLimited(RateLimitedUntil(response, now))
    else if status >= 500 then Retryable
    else if operation == Merge && status == 405 && Contains(message, "base branch was modified") then Retryable
    else if status == 404 then
      if knownResource then Rejected(BatchProgress.RejectReason.NotFound) else Fatal
    else if status == 403 && operation == Comment then Rejected(BatchProgress.Forbidden)
    else if status == 403 && operation in {Merge, UpdateBranch} && knownResource then
      Rejected(BatchProgress.Forbidden)
    else if status == 405 && operation == Merge && Contains(message, "merge method") then
      Rejected(BatchProgress.MergeMethodDisallowed)
    else if status in {405, 409, 422} && operation == Merge then Rejected(BatchProgress.NotMergeable)
    else if status == 422 && operation == UpdateBranch then Rejected(BatchProgress.NotMergeable)
    else Fatal
  }

  /** A step's last word. */
  datatype Settled<+T> =
    | Ok(value: T)
    | Refused(reason: RejectReason, response: ErrorResponse)
    | Broken(response: ErrorResponse)
    | Stale(expected: string, actual: string)

  datatype Attempt<+T> = Done(settled: Settled<T>) | Wait(until: u64, response: ErrorResponse)

  /** What one attempt leaves: an entry in the journal, a retry, or the end of the step. */
  datatype Entry<+T> = Journaled(attempt: Attempt<T>) | Retry | Terminal

  /** `journal_github_result`. */
  function Journal<T>(
    result: Result<T, GithubError>, operation: Operation, knownResource: bool, now: u64): Entry<T>
  {
    match result
    case Success(value) => Journaled(Done(Ok(value)))
    case Failure(StaleSha(expected, actual)) => Journaled(Done(Stale(expected, actual)))
    case Failure(Transport) => Retry
    case Failure(Ambiguous(_)) => Retry
    case Failure(Shifted(_)) => Retry
    case Failure(Protocol) => Terminal
    case Failure(Config(_)) => Terminal
    case Failure(Http(response, verified)) =>
      match Classify(response, operation, knownResource || verified, now)
      case Retryable => Retry
      case RateLimited(until) => Journaled(Wait(until, response))
      case Rejected(reason) => Journaled(Done(Refused(reason, response)))
      case Fatal => Journaled(Done(Broken(response)))
  }

  /** What a write did: the words for it, and the commit a merge made. */
  datatype Landed = Landed(detail: string, sha: Option<string>)

  /** `settled_outcome`: a fatal answer fails the handler, anything else is an outcome. */
  function SettledOutcome(settled: Settled<Landed>): Result<ActionOutcome, ErrorResponse> {
    match settled
    case Ok(landed) => Success(BatchProgress.ActionOutcome.Succeeded(landed.detail, landed.sha))
    case Stale(expected, actual) =>
      Success(BatchProgress.ActionOutcome.Rejected(BatchProgress.RejectReason.StaleSha(expected, actual)))
    case Refused(reason, _) => Success(BatchProgress.ActionOutcome.Rejected(reason))
    case Broken(response) => Failure(response)
  }

  /** What a result is reported as, if it settles at all. */
  function Reported(entry: Entry<Landed>): Option<Result<ActionOutcome, ErrorResponse>> {
    if entry.Journaled? && entry.attempt.Done? then Some(SettledOutcome(entry.attempt.settled)) else None
  }

  /**
   A write is reported as done only when the client says it is, as stale only when the verify
   read was, and every other rejection is GitHub's own answer, never a 5xx or a rate limit.
   */
  lemma {:induction false} ReportedExactly(
    result: Result<Landed, GithubError>, operation: Operation, knownResource: bool, now: u64,
    outcome: ActionOutcome)
    requires Reported(Journal(result, operation, knownResource, now)) == Some(Success(outcome))
    ensures outcome.Succeeded? <==> result.Success?
    ensures result.Success? ==> result.value == Landed(outcome.detail, outcome.mergeSha)
    ensures outcome.Rejected? && outcome.reason.StaleSha? <==> result.Failure? && result.error.StaleSha?
    ensures outcome.Rejected? && outcome.reason.StaleSha? ==>
              result.error == StaleSha(outcome.reason.expected, outcome.reason.actual)
    ensures outcome.Rejected? && !outcome.reason.StaleSha? ==>
              && result.Failure? && result.error.Http?
              && result.error.response.status < 500 && !IsRateLimited(result.error.response)
              && (outcome.reason.NotFound? ==>
                    result.error.response.status == 404 && (knownResource || result.error.knownResource))
  {
  }

  /** An answer that may have been lost, or that a wait may mend, is never made an outcome. */
  lemma {:induction false} UnsettledExactly(result: Result<Landed, GithubError>, operation: Operation, knownResource: bool, now: u64)
    ensures Journal(result, operation, knownResource, now) == Retry
       <==> && result.Failure?
            && (|| result.error.Transport? || result.error.Ambiguous? || result.error.Shifted?
                || (&& result.error.Http? && !IsRateLimited(result.error.response)
                    && (|| result.error.response.status >= 500
                        || (&& operation == Merge && result.error.response.status == 405
                            && Contains(Lower(result.error.response.message), "base branch was modified")))))
    ensures Journal(result, operation, knownResource, now).Journaled?
              && Journal(result, operation, knownResource, now).attempt.Wait?
       <==> result.Failure? && result.error.Http? && IsRateLimited(result.error.response)
  {
  }

  // ----- What GitHub's refusals mean, word for word -----

  /** GitHub asks to back off. */
  ghost predicate AsksToWait(response: ErrorResponse) {
    || response.rateLimitRemaining == Some(0) || response.retryAfterSeconds.Some? || response.status == 429
    || Contains(Lower(response.message), "secondary rate limit")
    || Contains(Lower(response.message), "rate limit exceeded")
  }

  /** A merge that lost to another push to the base, which the next one may not. */
  ghost predicate BaseMoved(response: ErrorResponse, operation: Operation) {
    operation.Merge? && response.status == 405 && Contains(Lower(response.message), "base branch was modified")
  }

  /** The latest time there is, if `seconds` from now is past it. */
  ghost function Later(now: u64, seconds: nat): u64 {
    if now + seconds < 0xFFFF_FFFF_FFFF_FFFF then now + seconds else 0xFFFF_FFFF_FFFF_FFFF
  }

  /**
   Whatever else the answer says, a request to back off is waited for: as long as GitHub asked,
   else until the reset it named, else a minute.
   */
  lemma {:induction false} WaitsExactly(response: ErrorResponse, operation: Operation, known: bool, now: u64)
    ensures Classify(response, operation, known, now).RateLimited? <==> AsksToWait(response)
    ensures AsksToWait(response) ==>
      var until := Classify(response, operation, known, now).until;
      && (response.retryAfterSeconds.Some? ==> until == Later(now, response.retryAfterSeconds.value))
      && (response.retryAfterSeconds.None? && response.rateLimitReset.Some? ==> until == response.rateLimitReset.value)
      && (response.retryAfterSeconds.None? && response.rateLimitReset.None? ==> until == Later(now, 60))
  {
  }

  /** Which refusal is whose, for one that neither asks to wait nor is worth another try. */
  lemma {:induction false} RefusalsExactly(response: ErrorResponse, operation: Operation, known: bool, now: u64)
    requires !AsksToWait(response)
    ensures Classify(response, operation, known, now).Retryable? <==>
              response.status >= 500 || BaseMoved(response, operation)
    ensures response.status < 500 && !BaseMoved(response, operation) ==>
      var c := Classify(response, operation, known, now);
      && (c.Rejected? || c.Fatal?)
      && (c == Rejected(BatchProgress.RejectReason.NotFound) <==> response.status == 404 && known)
      && (c == Rejected(BatchProgress.Forbidden) <==>
            response.status == 403
            && (operation.Comment? || (known && (operation.Merge? || operation.UpdateBranch?))))
      && (c == Rejected(BatchProgress.MergeMethodDisallowed) <==>
            operation.Merge? && response.status == 405 && Contains(Lower(response.message), "merge method"))
      && (c == Rejected(BatchProgress.NotMergeable) <==>
            || (operation.Merge? && (response.status == 409 || response.status == 422))
            || (operation.Merge? && response.status == 405 && !Contains(Lower(response.message), "merge method"))
            || (operation.UpdateBranch? && response.status == 422))
      && (c.Rejected? ==>
            || c.reason == BatchProgress.RejectReason.NotFound || c.reason == BatchProgress.Forbidden
            || c.reason == BatchProgress.MergeMethodDisallowed || c.reason == BatchProgress.NotMergeable)
  {
  }

  /** What an error ends as that is neither retried nor waited for. */
  lemma {:induction false} SettledExactly(result: Result<Landed, GithubError>, operation: Operation, known: bool, now: u64)
    ensures Journal(result, operation, known, now).Terminal? <==>
              result.Failure? && (result.error.Protocol? || result.error.Config?)
    ensures result.Failure? && result.error.Http? ==>
      var response := result.error.response;
      match Classify(response, operation, known || result.error.knownResource, now)
      case Retryable => Journal(result, operation, known, now) == Retry
      case RateLimited(until) => Journal(result, operation, known, now) == Journaled(Wait(until, response))
      case Rejected(reason) =>
        Reported(Journal(result, operation, known, now))
        == Some(Success(BatchProgress.ActionOutcome.Rejected(reason)))
      case Fatal => Reported(Journal(result, operation, known, now)) == Some(Failure(response))
  {
  }
}
