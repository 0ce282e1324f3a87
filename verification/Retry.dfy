/** The retry loop around one provider call. */
module Retry {
  import opened Rounding
  import opened Clocks
  import opened CircuitBreaker

  /** A provider payload reduced to its text content. */
  datatype Response = Response(content: Option<string>)

  /** The exceptions a call can raise; a status error may carry no status. */
  datatype Error = ConnectionError | TimeoutError | HttpStatusError(status: Option<int>)
                 | ConnectError | RemoteProtocolError | ReadTimeout | WriteTimeout | PoolTimeout
                 | EnvelopeError(detail: string) | OtherError(name: string)

  const RETRYABLE_STATUSES := {429, 500, 502, 503, 504}

  predicate IsRetryable(e: Error) {
    match e
    case HttpStatusError(status) => status.Some? && status.value in RETRYABLE_STATUSES
    case EnvelopeError(_) => false
    case OtherError(_) => false
    case _ => true
  }

  /** Transport errors are retried, unusable or unknown answers never; a status exactly for rate limiting and the transient
      server errors, so no other client error ever is. */
  lemma TransientErrors(status: int, e: Error)
    ensures e.HttpStatusError? || (IsRetryable(e) <==> !e.EnvelopeError? && !e.OtherError?)
    ensures !IsRetryable(HttpStatusError(None))
    ensures 400 <= status < 500 ==> (IsRetryable(HttpStatusError(Some(status))) <==> status == 429)
    ensures status >= 500 ==> (IsRetryable(HttpStatusError(Some(status))) <==> 500 <= status <= 504 && status != 501)
    ensures status < 400 ==> !IsRetryable(HttpStatusError(Some(status)))
  {
  }

  datatype CallResult = Returned(response: Response) | Raised(error: Error)

  datatype Outcome = Success(response: Response) | Failure(error: Error) | BreakerOpen | NothingTried

  datatype RetryResult = RetryResult(outcome: Outcome, attempts: nat)

  /** One request that reached the provider. */
  datatype Sent = Sent(model: string, result: CallResult)

  function Labelled(model: string, calls: seq<CallResult>): (r: seq<Sent>)
    ensures |r| == |calls| && forall i | 0 <= i < |r| :: r[i] == Sent(model, calls[i])
  {
    seq(|calls|, i requires 0 <= i < |calls| => Sent(model, calls[i]))
  }

  /** The outcome each call owes the breaker. */
  function Owed(calls: seq<CallResult>): (r: seq<bool>)
    ensures |r| == |calls| && forall i | 0 <= i < |r| :: r[i] == calls[i].Returned?
  {
    seq(|calls|, i requires 0 <= i < |calls| => calls[i].Returned?)
  }

  ghost predicate AllTransient(calls: seq<CallResult>) {
    forall i | 0 <= i < |calls| :: calls[i].Raised? && IsRetryable(calls[i].error)
  }

  /** How the calls made and the outcome returned fit together. */
  ghost predicate Explains(r: RetryResult, calls: seq<CallResult>, maxRetries: int) {
    match r.outcome
    case Success(response) =>
      calls != [] && r.attempts == |calls| <= maxRetries + 1 && calls[|calls| - 1] == Returned(response)
      && AllTransient(calls[..|calls| - 1])
    case Failure(error) =>
      calls != [] && r.attempts == |calls| <= maxRetries + 1 && calls[|calls| - 1] == Raised(error)
      && AllTransient(calls[..|calls| - 1]) && (IsRetryable(error) ==> |calls| == maxRetries + 1)
    case BreakerOpen =>
      r.attempts == |calls| + 1 <= maxRetries + 1 && AllTransient(calls)
    case NothingTried =>
      maxRetries < 0 && r.attempts == 0 && calls == []
  }

  /** The exhausted-retries ending after the loop is reached exactly when the retry count is negative. */
  lemma TailIffNegative(r: RetryResult, calls: seq<CallResult>, maxRetries: int)
    requires Explains(r, calls, maxRetries)
    ensures r.outcome.NothingTried? <==> maxRetries < 0
    ensures maxRetries >= 0 && r.outcome.Failure? && |calls| <= maxRetries ==> !IsRetryable(r.outcome.error)
  {
  }

  /** Other requests of the process, which report to the same breaker while this one is suspended. */
  class Peers {
    constructor () {}

    method Interleave(breaker: ModelCircuitBreaker, clock: Clock, ghost me: Owner)
      requires breaker.Valid()
      modifies breaker, clock
      ensures breaker.Valid() && clock.time >= old(clock.time)
      ensures OutcomesBy(breaker.log, me) == OutcomesBy(old(breaker.log), me)
    {
      hide After, Events;
      var reports: int := *;
      for i := 0 to Max0(reports)
        invariant breaker.Valid() && clock.time >= old(clock.time)
        invariant OutcomesBy(breaker.log, me) == OutcomesBy(old(breaker.log), me)
      {
        ghost var before := breaker.log;
        var kind: int := *;
        if kind == 0 {
          var _ := breaker.Check(clock, me + 1);
        } else if kind == 1 {
          breaker.RecordSuccess(me + 1);
        } else {
          breaker.RecordFailure(clock, me + 1);
        }
        OutcomesOneMore(before, breaker.log[|before|], me);
      }
    }
  }

  lemma OutcomesOneMore(log: seq<Entry>, e: Entry, owner: Owner)
    ensures OutcomesBy(log + [e], owner)
            == OutcomesBy(log, owner) + if e.who == owner && !e.event.Checked? then [e.event.Succeeded?] else []
  {
    assert (log + [e])[..|log|] == log;
  }

  /** The provider; any result of a call is possible, and peers run meanwhile. */
  class Provider {
    const peers: Peers
    ghost var sent: seq<Sent>

    constructor ()
      ensures sent == []
    {
      peers := new Peers();
      sent := [];
    }

    /** Never entered while the breaker is open. */
    method Call(model: string, breaker: ModelCircuitBreaker?, clock: Clock, ghost me: Owner) returns (r: CallResult)
      requires breaker != null ==> breaker.Valid() && Allows(breaker.Now())
      modifies this, clock, breaker
      ensures sent == old(sent) + [Sent(model, r)] && clock.time >= old(clock.time)
      ensures breaker != null ==> breaker.Valid() && OutcomesBy(breaker.log, me) == OutcomesBy(old(breaker.log), me)
    {
      if breaker != null {
        peers.Interleave(breaker, clock, me);
      }
      r := *;
      sent := sent + [Sent(model, r)];
    }

    /** The corrective call, which no breaker guards. */
    method CallUnguarded(model: string, breaker: ModelCircuitBreaker, clock: Clock, ghost me: Owner)
        returns (r: CallResult)
      requires breaker.Valid()
      modifies this, clock, breaker
      ensures sent == old(sent) + [Sent(model, r)] && clock.time >= old(clock.time)
      ensures breaker.Valid() && OutcomesBy(breaker.log, me) == OutcomesBy(old(breaker.log), me)
    {
      peers.Interleave(breaker, clock, me);
      r := *;
      sent := sent + [Sent(model, r)];
    }

    method Backoff(breaker: ModelCircuitBreaker?, clock: Clock, ghost me: Owner)
      requires breaker != null ==> breaker.Valid()
      modifies clock, breaker
      ensures clock.time >= old(clock.time)
      ensures breaker != null ==> breaker.Valid() && OutcomesBy(breaker.log, me) == OutcomesBy(old(breaker.log), me)
    {
      var delay: real := *;
      clock.Sleep(delay);
      if breaker != null {
        peers.Interleave(breaker, clock, me);
      }
    }
  }

  /** Without a breaker every call is allowed. */
  method Admits(breaker: ModelCircuitBreaker?, clock: Clock, ghost me: Owner) returns (allowed: bool)
    requires breaker != null ==> breaker.Valid()
    modifies breaker, clock
    ensures clock.time >= old(clock.time)
    ensures if breaker == null then allowed else breaker.Valid() && allowed == Allows(breaker.Now())
    ensures breaker != null ==> OutcomesBy(breaker.log, me) == OutcomesBy(old(breaker.log), me)
  {
    hide After, Events, OutcomesBy;
    allowed := true;
    if breaker != null {
      allowed := breaker.Check(clock, me);
      OutcomesOneMore(old(breaker.log), breaker.log[|old(breaker.log)|], me);
    }
  }

  /** Reports one outcome to the breaker, if there is one. */
  method Report(breaker: ModelCircuitBreaker?, success: bool, clock: Clock, ghost me: Owner)
    requires breaker != null ==> breaker.Valid()
    modifies breaker, clock
    ensures clock.time >= old(clock.time)
    ensures breaker != null ==> breaker.Valid()
                                && OutcomesBy(breaker.log, me) == OutcomesBy(old(breaker.log), me) + [success]
  {
    hide After, Events, OutcomesBy;
    if breaker != null {
      if success {
        breaker.RecordSuccess(me);
      } else {
        breaker.RecordFailure(clock, me);
      }
      OutcomesOneMore(old(breaker.log), breaker.log[|old(breaker.log)|], me);
    }
  }

  /** Calls at most `maxRetries` + 1 times, only while the breaker allows it, and reports exactly one outcome per call. */
  method WithRetry(func: Provider, model: string, maxRetries: int, breaker: ModelCircuitBreaker?, clock: Clock,
                   ghost me: Owner)
      returns (r: RetryResult, ghost calls: seq<CallResult>)
    requires breaker != null ==> breaker.Valid()
    modifies func, breaker, clock
    ensures func.sent == old(func.sent) + Labelled(model, calls) && |calls| <= Max0(maxRetries + 1)
    ensures Explains(r, calls, maxRetries)
    ensures breaker == null ==> !r.outcome.BreakerOpen?
    ensures breaker != null ==> breaker.Valid() && OutcomesBy(breaker.log, me) == OutcomesBy(old(breaker.log), me) + Owed(calls)
    ensures clock.time >= old(clock.time)
  {
    hide After, Events, OutcomesBy, IsRetryable, Labelled, Owed;
    calls := [];
    for attempt := 0 to Max0(maxRetries + 1)
      invariant |calls| == attempt && AllTransient(calls) && func.sent == old(func.sent) + Labelled(model, calls)
      invariant breaker != null ==> breaker.Valid()
      invariant breaker != null ==> OutcomesBy(breaker.log, me) == OutcomesBy(old(breaker.log), me) + Owed(calls)
      invariant clock.time >= old(clock.time)
      invariant maxRetries >= 0 ==> attempt < maxRetries + 1
    {
      var allowed := Admits(breaker, clock, me);
      if !allowed {
        return RetryResult(BreakerOpen, attempt + 1), calls;
      }
      var output := func.Call(model, breaker, clock, me);
      ghost var made := calls + [output];
      OneMoreCall(model, calls, output);
      Report(breaker, output.Returned?, clock, me);
      match output
      case Returned(response) =>
        return RetryResult(Success(response), attempt + 1), made;
      case Raised(error) =>
        if attempt < maxRetries && IsRetryable(error) {
          func.Backoff(breaker, clock, me);
          calls := made;
        } else {
          return RetryResult(Failure(error), attempt + 1), made;
        }
    }
    r := RetryResult(NothingTried, 0);
  }

  lemma OneMoreCall(model: string, calls: seq<CallResult>, output: CallResult)
    ensures Labelled(model, calls + [output]) == Labelled(model, calls) + [Sent(model, output)]
    ensures Owed(calls + [output]) == Owed(calls) + [output.Returned?]
    ensures (calls + [output])[..|calls|] == calls
  {
  }

  function Max0(n: int): nat {
    if n > 0 then n else 0
  }
}
