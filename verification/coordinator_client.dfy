/** One operation sent to whichever coordinator owns the repository: what the
    owner's connection handler does with a request, and how the client retries.

    The adversary chooses everything outside the code: what arrives, the state of
    each owner's slot, what the operation returns, which replies are lost, when
    time runs out and whether a new route is found. */
module CoordinatorClient {
  import opened Basics
  import D = Dispatcher

  datatype Code =
    | AuthenticationFailed
    | RequestReceiveFailed
    | InvalidDeadline
    | DeadlineExpired
    | GraphBusy
    | TransportError
    | Unavailable
    | RouteStale
    | OtherCode(n: nat)

  datatype ApiError = ApiError(code: Code, retryable: bool)

  datatype Reply = Pong | Success | Failure(error: ApiError)

  // --------------------------------------------------- the owner's side of a request

  /** A request as the handler meets it. `frameRead` is false when the frame did
      not arrive whole in time; `prepared` carries the error of the preparation. */
  datatype Arrival = Arrival(
    frameRead: bool,
    versionMatches: bool,
    tokenMatches: bool,
    ping: bool,
    timeoutMs: Option<nat>,
    boundedOperation: bool,
    prepared: Option<ApiError>,
    expired: bool,
    streamCloned: bool,
    job: D.Job)

  /** An immediate reply, or none when the job went to the dispatcher or the
      stream could not be cloned. */
  datatype Handled = Handled(reply: Option<Reply>, submitted: bool)

  function Reject(code: Code, retryable: bool): Handled {
    Handled(Some(Failure(ApiError(code, retryable))), false)
  }

  function Handle(a: Arrival, slot: D.Slot): Handled {
    if !a.frameRead then Reject(RequestReceiveFailed, true)
    else if !a.versionMatches || !a.tokenMatches then Reject(AuthenticationFailed, false)
    else if a.ping then Handled(Some(Pong), false)
    else if a.timeoutMs.Some? && !a.boundedOperation then Reject(InvalidDeadline, false)
    else if a.timeoutMs == Some(0) then Reject(InvalidDeadline, false)
    else if a.prepared.Some? then Handled(Some(Failure(a.prepared.value)), false)
    else if a.timeoutMs.Some? && a.expired then Reject(DeadlineExpired, false)
    else if !a.streamCloned then Handled(None, false)
    else if !D.Admits(slot) then Reject(GraphBusy, true)
    else Handled(None, true)
  }

  method HandleConnection(d: D.ExecutionDispatcher, a: Arrival) returns (h: Handled)
    requires d.Valid()
    modifies d
    ensures d.Valid() && h == Handle(a, old(d.View()))
    ensures d.View() == if h.submitted then D.Submit(old(d.View()), a.job) else old(d.View())
    ensures h.reply.Some? ==> d.View() == old(d.View())
  {
    if !a.frameRead { return Reject(RequestReceiveFailed, true); }
    if !a.versionMatches || !a.tokenMatches { return Reject(AuthenticationFailed, false); }
    if a.ping { return Handled(Some(Pong), false); }
    if a.timeoutMs.Some? && !a.boundedOperation { return Reject(InvalidDeadline, false); }
    if a.timeoutMs == Some(0) { return Reject(InvalidDeadline, false); }
    if a.prepared.Some? { return Handled(Some(Failure(a.prepared.value)), false); }
    if a.timeoutMs.Some? && a.expired { return Reject(DeadlineExpired, false); }
    if !a.streamCloned { return Handled(None, false); }
    var accepted := d.TrySubmit(a.job);
    if !accepted { return Reject(GraphBusy, true); }
    return Handled(None, true);
  }

  // --------------------------------------------------------------- one exchange

  /** `NotSent`: no route, no connection, or time ran out before the request left.
      `Sent`: the request reached a handler, and the executed job, if any, ended
      with `executed` (none when it panicked or expired); `delivered` says that
      the reply came back whole, and `timedOut` that else the call's deadline passed. */
  datatype Exchange =
    | NotSent(error: ApiError)
    | Sent(a: Arrival, slot: D.Slot, executed: Option<Reply>, delivered: bool, timedOut: bool)

  datatype Observation = Heard(reply: Reply) | Lost(error: ApiError)

  predicate Accepted(x: Exchange) {
    x.Sent? && Handle(x.a, x.slot).submitted
  }

  function OwnerReply(x: Exchange): Option<Reply>
    requires x.Sent?
  {
    var h := Handle(x.a, x.slot);
    if h.submitted then x.executed else h.reply
  }

  function Observe(x: Exchange): Observation {
    match x
    case NotSent(error) => Lost(error)
    case Sent(_, _, _, delivered, timedOut) =>
      if delivered && OwnerReply(x).Some? then Heard(OwnerReply(x).value)
      else Lost(ApiError(if timedOut then DeadlineExpired else TransportError, false))
  }

  predicate SafeToRetry(r: Reply) {
    r.Failure? && r.error.code == RequestReceiveFailed && r.error.retryable
  }

  predicate RequiresRouteRefresh(r: Reply) {
    r.Failure? && r.error.code == AuthenticationFailed
  }

  // ------------------------------------------------------------- the retry loop

  /** One turn: the deadline may have passed before it; after its reply it may be too
      late; a stale route may or may not be replaced. */
  datatype Turn = Turn(expired: bool, exchange: Exchange, late: bool, refreshed: bool)
  {
    /** Only a call with a deadline of its own, a bounded one, gives up before a turn. */
    predicate Skipped(bounded: bool) { bounded && expired }
  }

  datatype Outcome = Replied(reply: Reply) | Failed(error: ApiError) | Unfinished

  predicate Retries(r: Reply) { SafeToRetry(r) || RequiresRouteRefresh(r) }

  /** The turn ends in another try. */
  predicate Retried(t: Turn, bounded: bool) {
    !t.Skipped(bounded) && Observe(t.exchange).Heard? &&
    var r := Observe(t.exchange).reply;
    !t.late && (SafeToRetry(r) || (RequiresRouteRefresh(r) && !bounded && t.refreshed))
  }

  /** How a turn ends a call that it does not try again. */
  function Ending(t: Turn, bounded: bool): Outcome {
    if t.Skipped(bounded) then Failed(ApiError(DeadlineExpired, false))
    else
      match Observe(t.exchange)
      case Lost(error) => Failed(error)
      case Heard(reply) =>
        if !Retries(reply) then Replied(reply)
        else if Retried(t, bounded) then Unfinished
        else if t.late && bounded then Failed(ApiError(DeadlineExpired, false))
        else if bounded then Failed(ApiError(RouteStale, true))
        else Failed(ApiError(Unavailable, true))
  }

  /** How many turns the call takes part in, out of an endless supply. */
  function Used(script: seq<Turn>, bounded: bool): (n: nat)
    ensures n <= |script|
    ensures forall i :: 0 <= i < n - 1 ==> Retried(script[i], bounded)
    ensures 0 < n < |script| ==> !Retried(script[n - 1], bounded)
  {
    if script == [] then 0
    else if Retried(script[0], bounded) then 1 + Used(script[1..], bounded)
    else 1
  }

  /** Dispatcher submissions accepted anywhere on behalf of the call. */
  function Submissions(script: seq<Turn>, bounded: bool): nat {
    if script == [] then 0
    else (if !script[0].Skipped(bounded) && Accepted(script[0].exchange) then 1 else 0) + Submissions(script[1..], bounded)
  }

  /** Every turn but the last is tried again, and the last turn decides: a reply that is
      not to be retried is returned, and each error is told by its cause. */
  method SendCommandWithRecovery(script: seq<Turn>, bounded: bool) returns (outcome: Outcome, used: nat)
    ensures used == Used(script, bounded) && (script != [] ==> used > 0)
    ensures outcome == if used == 0 then Unfinished else Ending(script[used - 1], bounded)
    ensures outcome.Unfinished? <==> used == |script| && forall i :: 0 <= i < |script| ==> Retried(script[i], bounded)
    ensures used > 0 ==>
              var t := script[used - 1];
              var seen := Observe(t.exchange);
              && (t.Skipped(bounded) ==> outcome == Failed(ApiError(DeadlineExpired, false)))
              && (!t.Skipped(bounded) && seen.Lost? ==> outcome == Failed(seen.error))
              && (!t.Skipped(bounded) && seen.Heard? && !Retries(seen.reply) ==> outcome == Replied(seen.reply))
              && (!t.Skipped(bounded) && seen.Heard? && Retries(seen.reply) && !Retried(t, bounded) ==>
                    outcome == Failed(if !bounded then ApiError(Unavailable, true)
                                      else if t.late then ApiError(DeadlineExpired, false)
                                      else ApiError(RouteStale, true)))
    ensures outcome.Replied? ==> !Retries(outcome.reply)
  {
    used := 0;
    while used < |script|
      invariant used <= |script|
      invariant forall i :: 0 <= i < used ==> Retried(script[i], bounded)
      invariant Used(script, bounded) == used + Used(script[used..], bounded)
    {
      var t := script[used];
      assert script[used..][1..] == script[used + 1..];
      used := used + 1;
      if t.Skipped(bounded) { return Failed(ApiError(DeadlineExpired, false)), used; }
      match Observe(t.exchange)
      case Lost(error) => return Failed(error), used;
      case Heard(reply) =>
        if SafeToRetry(reply) {
          if t.late { return Failed(if bounded then ApiError(DeadlineExpired, false) else ApiError(Unavailable, true)), used; }
        } else if RequiresRouteRefresh(reply) {
          if t.late { return Failed(if bounded then ApiError(DeadlineExpired, false) else ApiError(Unavailable, true)), used; }
          if bounded { return Failed(ApiError(RouteStale, true)), used; }
          if !t.refreshed { return Failed(ApiError(Unavailable, true)), used; }
        } else {
          return Replied(reply), used;
        }
    }
    return Unfinished, used;
  }

  // --------------------------------------------------------------- main results

  /** A well-formed request of this owner, with time left. */
  predicate Executable(a: Arrival) {
    && a.frameRead && a.versionMatches && a.tokenMatches && !a.ping && a.prepared.None? && a.streamCloned
    && (a.timeoutMs.Some? ==> a.boundedOperation && a.timeoutMs.value > 0 && !a.expired)
  }

  /** Any reply the handler gives itself comes before dispatch: the request was
      not submitted and the slot is as it was. A request is submitted exactly when it is
      executable and the slot admits it, and told to come back exactly when it is not. */
  lemma ImmediateReplyIsPreDispatch(a: Arrival, slot: D.Slot)
    ensures Handle(a, slot).reply.Some? ==> !Handle(a, slot).submitted
    ensures Handle(a, slot).submitted <==> Executable(a) && D.Admits(slot)
    ensures Executable(a) && !D.Admits(slot) ==> Handle(a, slot).reply == Some(Failure(ApiError(GraphBusy, true)))
    ensures Handle(a, slot).reply.None? && !Handle(a, slot).submitted ==> !a.streamCloned
    ensures Handle(a, slot).reply == Some(Pong) <==> a.frameRead && a.versionMatches && a.tokenMatches && a.ping
    ensures Handle(a, slot).reply.Some? && a.prepared.None? ==>
              && (SafeToRetry(Handle(a, slot).reply.value) <==> !a.frameRead)
              && (RequiresRouteRefresh(Handle(a, slot).reply.value) <==> a.frameRead && !(a.versionMatches && a.tokenMatches))
  {}

  /** The errors on which the client tries again. */
  predicate Reserved(e: ApiError, bounded: bool) {
    (e.code == RequestReceiveFailed && e.retryable) || (e.code == AuthenticationFailed && !bounded)
  }

  /** Every executed operation of the script fails only with errors in `errors`. */
  predicate FailsOnlyWith(script: seq<Turn>, errors: set<ApiError>) {
    forall i :: 0 <= i < |script| && script[i].exchange.Sent? ==>
      var r := script[i].exchange.executed;
      r.Some? && r.value.Failure? ==> r.value.error in errors
  }

  predicate NoneReserved(errors: set<ApiError>, bounded: bool) {
    forall e :: e in errors ==> !Reserved(e, bounded)
  }

  /** A turn that is retried was not submitted, unless the operation itself
      answered with a reserved error. */
  lemma RetriedTurnWasNotSubmitted(t: Turn, bounded: bool)
    requires Retried(t, bounded) && Accepted(t.exchange)
    ensures var r := t.exchange.executed;
            r.Some? && r.value.Failure? && Reserved(r.value.error, bounded)
  {}

  lemma {:induction false} OnlyLastTurnSubmits(script: seq<Turn>, bounded: bool, errors: set<ApiError>, n: nat)
    requires n <= |script| && FailsOnlyWith(script, errors) && NoneReserved(errors, bounded)
    requires forall i :: 0 <= i < n - 1 ==> Retried(script[i], bounded)
    ensures Submissions(script[..n], bounded) <= 1
    ensures n > 0 ==>
              (Submissions(script[..n], bounded) == 1 <==> !script[n - 1].Skipped(bounded) && Accepted(script[n - 1].exchange))
  {
    if n > 0 {
      assert script[..n][0] == script[0] && script[..n][1..] == script[1..n] == script[1..][..n - 1];
      if n > 1 && Accepted(script[0].exchange) { RetriedTurnWasNotSubmitted(script[0], bounded); }
      if n > 1 { OnlyLastTurnSubmits(script[1..], bounded, errors, n - 1); }
    }
  }

  /** However owners change, replies get lost and the call retries, it causes at
      most one accepted submission, and a successful reply exactly one, when no
      operation answers with a reserved error. */
  lemma AtMostOneSubmission(script: seq<Turn>, bounded: bool, errors: set<ApiError>)
    requires FailsOnlyWith(script, errors) && NoneReserved(errors, bounded)
    ensures Submissions(script[..Used(script, bounded)], bounded) <= 1
    ensures var n := Used(script, bounded);
            n > 0 && !script[n - 1].Skipped(bounded) && Observe(script[n - 1].exchange) == Heard(Success) ==>
              Submissions(script[..n], bounded) == 1
  {
    OnlyLastTurnSubmits(script, bounded, errors, Used(script, bounded));
  }

  /** Without reserved errors, an operation that was accepted and whose reply came back
      ends the call with this reply, whichever turn it was. */
  lemma AnswerIsReturned(script: seq<Turn>, bounded: bool, errors: set<ApiError>, i: nat, r: Reply)
    requires FailsOnlyWith(script, errors) && NoneReserved(errors, bounded) && i < Used(script, bounded)
    requires !script[i].Skipped(bounded) && Accepted(script[i].exchange) && Observe(script[i].exchange) == Heard(r)
    ensures i == Used(script, bounded) - 1 || (bounded && RequiresRouteRefresh(r))
    ensures Ending(script[i], bounded) == Replied(r) || (bounded && RequiresRouteRefresh(r))
  {
    if Retried(script[i], bounded) { RetriedTurnWasNotSubmitted(script[i], bounded); }
  }

  /** Two owners in turn accept the job when the operation answers with `e`. A call with
      a deadline of its own sends a timeout along. */
  function DoubleSubmission(e: ApiError, bounded: bool): seq<Turn> {
    var a := Arrival(true, true, true, false, if bounded then Some(1) else None, true, None, false, true, 0);
    var t := Turn(false, Sent(a, D.EMPTY_SLOT, Some(Failure(e)), true, false), false, true);
    [t, t]
  }

  lemma ReservedErrorSubmitsTwice(e: ApiError, bounded: bool)
    requires Reserved(e, bounded)
    ensures Submissions(DoubleSubmission(e, bounded)[..Used(DoubleSubmission(e, bounded), bounded)], bounded) == 2
  {
    var s := DoubleSubmission(e, bounded);
    assert Observe(s[0].exchange) == Heard(Failure(e));
    assert Retried(s[0], bounded) && Retried(s[1], bounded);
    assert s[1..][1..] == [];
    assert Used(s[1..], bounded) == 1 && Used(s, bounded) == 2;
    assert s[..2] == s;
    assert Submissions(s[1..], bounded) == 1;
  }

  /** At-most-once submission holds for every behaviour of owners and network
      exactly when operations keep the reserved errors to the coordinator. */
  lemma AtMostOnceExactlyWithoutReservedErrors(errors: set<ApiError>, bounded: bool)
    ensures (forall script: seq<Turn> :: FailsOnlyWith(script, errors) ==>
               Submissions(script[..Used(script, bounded)], bounded) <= 1)
            <==> NoneReserved(errors, bounded)
  {
    if NoneReserved(errors, bounded) {
      forall script: seq<Turn> | FailsOnlyWith(script, errors)
        ensures Submissions(script[..Used(script, bounded)], bounded) <= 1
      {
        AtMostOneSubmission(script, bounded, errors);
      }
    } else {
      var e :| e in errors && Reserved(e, bounded);
      ReservedErrorSubmitsTwice(e, bounded);
      assert FailsOnlyWith(DoubleSubmission(e, bounded), errors);
    }
  }

  // ------------------------------------------------- what a retryable failure says

  /** The call fails with an error that invites another call. */
  predicate InvitesRetry(script: seq<Turn>, bounded: bool) {
    var n := Used(script, bounded);
    n > 0 && var end := Ending(script[n - 1], bounded); end.Failed? && end.error.retryable
  }

  predicate NoneRetries(errors: set<ApiError>) {
    forall e :: e in errors ==> !Retries(Failure(e))
  }

  lemma RetryableFailureSubmittedNothing(script: seq<Turn>, bounded: bool, errors: set<ApiError>)
    requires FailsOnlyWith(script, errors) && NoneRetries(errors) && InvitesRetry(script, bounded)
    ensures Submissions(script[..Used(script, bounded)], bounded) == 0
  {
    OnlyLastTurnSubmits(script, bounded, errors, Used(script, bounded));
  }

  /** The operation answers with `e`; then no route is left. */
  function AnswerThenNoRoute(e: ApiError, bounded: bool): seq<Turn> {
    [DoubleSubmission(e, bounded)[0], Turn(false, NotSent(ApiError(Unavailable, true)), false, false)]
  }

  lemma RetriedErrorInvitesRetry(e: ApiError, bounded: bool)
    requires Retries(Failure(e))
    ensures var s := AnswerThenNoRoute(e, bounded);
            InvitesRetry(s, bounded) && Submissions(s[..Used(s, bounded)], bounded) == 1
  {
    var s := AnswerThenNoRoute(e, bounded);
    assert Observe(s[0].exchange) == Heard(Failure(e));
    assert Used(s[1..], bounded) == 1 && Submissions(s[1..], bounded) == 0 + Submissions(s[1..][1..], bounded);
    assert s[1..][1..] == [];
    if Retried(s[0], bounded) {
      assert s[..2] == s;
    } else {
      assert s[..1][1..] == [];
    }
  }

  /** An error that invites another call comes of calls that no owner accepted only,
      exactly when operations answer with no error that the client itself retries. */
  lemma RetryableFailureIsSafeExactlyWithoutRetriedErrors(errors: set<ApiError>, bounded: bool)
    ensures (forall script: seq<Turn> :: FailsOnlyWith(script, errors) && InvitesRetry(script, bounded) ==>
               Submissions(script[..Used(script, bounded)], bounded) == 0)
            <==> NoneRetries(errors)
  {
    if NoneRetries(errors) {
      forall script: seq<Turn> | FailsOnlyWith(script, errors) && InvitesRetry(script, bounded)
        ensures Submissions(script[..Used(script, bounded)], bounded) == 0
      {
        RetryableFailureSubmittedNothing(script, bounded, errors);
      }
    } else {
      var e :| e in errors && Retries(Failure(e));
      RetriedErrorInvitesRetry(e, bounded);
      assert FailsOnlyWith(AnswerThenNoRoute(e, bounded), errors);
    }
  }
}
