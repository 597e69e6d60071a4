/** What the statuses of an await mean: the outcome of every kind of submitted
    call (rust/core-bridge/src/abi.rs), and the answers of `await_call` over
    whole runs of the call protocol when those outcomes are what tasks publish. */
module AwaitStatus {
  import opened Common
  import opened ClientCalls
  import CallProtocol
  import CallRuns
  import StartTickets

  // ---- The futures ----

  type ClientError = StartTickets.ClientError

  /** Requests answered by one RPC whose response is encoded. */
  datatype Kind = WaitRun | Cancel | Terminate | Reset | Signal | Query | Update | PollUpdate | Visibility

  datatype RpcResult = Answered(body: string, encodes: bool) | Refused(error: ClientError)

  datatype AsyncError = NotFound | AsyncRpc(code: string) | OtherAsync

  datatype AsyncResult = Recorded(body: string) | AsyncFailed(error: AsyncError)

  /** How the heartbeat throttle admits a heartbeat; a send whose driver ended
      first has no outcome. */
  datatype HeartbeatAdmission = SentBy(reported: Option<AsyncResult>) | Coalesced(body: string) | Unthrottled(outcome: AsyncResult)

  /** A submitted call together with everything its surroundings answer. */
  datatype Future =
    | Start(request: StartTickets.StartRequest, start: StartTickets.StartResult)
    | Plain(kind: Kind, result: RpcResult)
    | History(result: RpcResult)
    | AsyncActivity(bound: bool, clientBuilt: bool, sent: AsyncResult)
    | AsyncHeartbeat(bound: bool, clientBuilt: bool, admission: HeartbeatAdmission)

  /** `client_operation_failure`. */
  function ClientStatus(error: ClientError): nat {
    match error
    case AlreadyStarted(_, _) => STATUS_ALREADY_STARTED
    case RpcError(_) => STATUS_CONNECTION
    case QueryFailed(_) => STATUS_CONNECTION
    case CoreError(_) => STATUS_PROTOCOL
  }

  const REJECTED_CODES := {
    "invalid_argument", "permission_denied", "failed_precondition", "out_of_range", "unimplemented", "unauthenticated"
  }

  /** `async_activity_failure`. */
  function AsyncStatus(error: AsyncError): nat {
    match error
    case NotFound => STATUS_INVALID_STATE
    case AsyncRpc(code) => if code in REJECTED_CODES then STATUS_ASYNC_HEARTBEAT_REJECTED else STATUS_CONNECTION
    case OtherAsync => STATUS_CONNECTION
  }

  function Fails(status: nat): Operation {
    Err(Failure(status, ""))
  }

  function OfAsync(r: AsyncResult): Operation {
    match r
    case Recorded(body) => Ok(body)
    case AsyncFailed(error) => Fails(AsyncStatus(error))
  }

  const NOT_FOUND_OUTCOME := "not_found"

  /** `submitted_async_activity_outcome`. */
  function Submitted(outcome: Operation): Operation {
    if outcome.Err? && outcome.failure.status == STATUS_INVALID_STATE then Ok(NOT_FOUND_OUTCOME) else outcome
  }

  function OfPlain(r: RpcResult): Operation {
    match r
    case Refused(error) => Fails(ClientStatus(error))
    case Answered(body, encodes) => if encodes then Ok(body) else Fails(STATUS_PROTOCOL)
  }

  /** `into_future`, run to its end. A start encodes its own outcome. */
  function Outcome(f: Future): Operation {
    match f
    case Start(request, result) =>
      if StartTickets.ValidOutcome(StartTickets.OutcomeOf(request, Some(result))) then Ok("start outcome") else Fails(STATUS_PROTOCOL)
    case Plain(_, result) => OfPlain(result)
    case History(result) => OfPlain(result)
    case AsyncActivity(bound, clientBuilt, sent) =>
      if !bound then Fails(STATUS_INTERNAL)
      else if !clientBuilt then Fails(STATUS_CONNECTION)
      else Submitted(OfAsync(sent))
    case AsyncHeartbeat(bound, clientBuilt, admission) =>
      if !bound then Fails(STATUS_INTERNAL)
      else if !clientBuilt then Fails(STATUS_CONNECTION)
      else
        match admission
        case SentBy(outcome) => Submitted(if outcome.Some? then OfAsync(outcome.value) else Fails(STATUS_CONNECTION))
        case Coalesced(body) => Submitted(Ok(body))
        case Unthrottled(outcome) => Submitted(OfAsync(outcome))
  }

  predicate HasStatus(a: Operation, status: nat) {
    a.Err? && a.failure.status == status
  }

  // ---- What each status means ----

  /** The answer of the RPC behind a call of one of the plain kinds. */
  function RpcOf(f: Future): Option<RpcResult> {
    match f
    case Plain(_, result) => Some(result)
    case History(result) => Some(result)
    case _ => None
  }

  /** An asynchronous activity call that has its client. */
  predicate Reached(f: Future) {
    (f.AsyncActivity? || f.AsyncHeartbeat?) && f.bound && f.clientBuilt
  }

  /** What was reported for such a call, if anything. */
  function Reported(f: Future): Option<AsyncResult> {
    if !Reached(f) then None
    else if f.AsyncActivity? then Some(f.sent)
    else
      match f.admission
      case SentBy(reported) => reported
      case Coalesced(body) => Some(Recorded(body))
      case Unthrottled(outcome) => Some(outcome)
  }

  predicate RejectedCode(code: string) {
    || code == "invalid_argument" || code == "permission_denied" || code == "failed_precondition"
    || code == "out_of_range" || code == "unimplemented" || code == "unauthenticated"
  }

  /** Every status of a failed call has exactly its causes. */
  lemma StatusHasItsCauses(f: Future)
    ensures HasStatus(Outcome(f), STATUS_ALREADY_STARTED) <==>
              RpcOf(f).Some? && RpcOf(f).value.Refused? && RpcOf(f).value.error.AlreadyStarted?
    ensures HasStatus(Outcome(f), STATUS_INTERNAL) <==> (f.AsyncActivity? || f.AsyncHeartbeat?) && !f.bound
    ensures HasStatus(Outcome(f), STATUS_ASYNC_HEARTBEAT_REJECTED) <==>
              Reported(f).Some? && Reported(f).value.AsyncFailed? && Reported(f).value.error.AsyncRpc?
              && RejectedCode(Reported(f).value.error.code)
    ensures HasStatus(Outcome(f), STATUS_CONNECTION) <==>
              || (RpcOf(f).Some? && RpcOf(f).value.Refused? && (RpcOf(f).value.error.RpcError? || RpcOf(f).value.error.QueryFailed?))
              || ((f.AsyncActivity? || f.AsyncHeartbeat?) && f.bound && !f.clientBuilt)
              || (Reached(f) && Reported(f).None?)
              || (Reported(f).Some? && Reported(f).value.AsyncFailed?
                  && (Reported(f).value.error.OtherAsync?
                      || (Reported(f).value.error.AsyncRpc? && !RejectedCode(Reported(f).value.error.code))))
    ensures HasStatus(Outcome(f), STATUS_PROTOCOL) && !f.Start? <==>
              RpcOf(f).Some? && ((RpcOf(f).value.Answered? && !RpcOf(f).value.encodes)
                                 || (RpcOf(f).value.Refused? && RpcOf(f).value.error.CoreError?))
  {
  }

  /** A call succeeds exactly with what its RPC answered, with what was recorded
      for its activity, or, for a discarded activity token, with the not-found
      outcome; a start of a valid request always has an outcome. */
  lemma SuccessHasItsCauses(f: Future, body: string)
    requires !f.Start?
    ensures Outcome(f) == Ok(body) <==>
              || RpcOf(f) == Some(Answered(body, true))
              || Reported(f) == Some(Recorded(body))
              || (Reported(f) == Some(AsyncFailed(NotFound)) && body == "not_found")
  {
  }

  lemma StartHasAnOutcome(request: StartTickets.StartRequest, start: StartTickets.StartResult)
    requires StartTickets.ValidRequest(request)
    ensures Outcome(Start(request, start)).Ok?
  {
    StartTickets.OutcomeIsHonest(request, Some(start));
  }

  predicate Reserved(status: nat) {
    status == STATUS_INVALID_STATE || status == STATUS_NOT_READY
  }

  /** No future of any kind fails with a status that an await reserves. */
  lemma NoReservedStatus(f: Future)
    ensures Outcome(f).Err? ==> !Reserved(Outcome(f).failure.status)
  {
  }

  /** Without the conversion a discarded activity token would be mistaken for a
      closed call: exactly that failure uses the reserved status. */
  lemma OnlyNotFoundIsConverted(r: AsyncResult)
    ensures OfAsync(r).Err? && Reserved(OfAsync(r).failure.status) <==> r == AsyncFailed(NotFound)
    ensures Submitted(OfAsync(r)) != OfAsync(r) <==> r == AsyncFailed(NotFound)
  {
  }

  // ---- Whole runs ----

  /** How a completion guard is consumed: its task's future ends, or the guard
      is dropped, with a panic unwinding the task or without one because the
      task was aborted or its executor shut down. */
  datatype Cause = Ended(f: Future) | Panicked | Dropped

  /** What each way of consuming the guard publishes. */
  predicate Published(cause: Cause, outcome: Operation) {
    match cause
    case Ended(f) => SameStatus(outcome, Outcome(f))
    case Panicked => outcome == PanicFailure()
    case Dropped => outcome == ClosedFailure()
  }

  /** `causes` tells for every publication of a run how it came about. */
  predicate Caused(es: seq<CallProtocol.Event>, causes: seq<Cause>) {
    |causes| == |es| && forall k | 0 <= k < |es| && es[k].Publish? :: Published(causes[k], es[k].outcome)
  }

  /** Equal up to the text of the failure. */
  predicate SameStatus(a: Operation, b: Operation) {
    if a.Ok? then a == b else b.Err? && a.failure.status == b.failure.status
  }

  /** Of all publications, only a dropped guard's uses a reserved status, and
      only a contained panic is reported as one. */
  lemma OnlyDropsAreReserved(cause: Cause, outcome: Operation)
    requires Published(cause, outcome)
    ensures HasStatus(outcome, STATUS_INVALID_STATE) <==> cause.Dropped?
    ensures HasStatus(outcome, STATUS_PANIC) <==> cause.Panicked?
    ensures !HasStatus(outcome, STATUS_NOT_READY)
  {
    if cause.Ended? {
      NoReservedStatus(cause.f);
    }
  }

  /** The answer hands over what a dropped guard published. */
  predicate FromDrop(why: CallRuns.Source, causes: seq<Cause>) {
    why.Outcome? && why.published < |causes| && causes[why.published].Dropped?
  }

  /** In every run, an await answers INVALID_STATE exactly when the call was
      unknown, foreign, retired, closed or aborted, NOT_READY exactly when it
      was still pending, and anything else exactly when it hands over what its
      future ended with or a contained panic. */
  lemma StatusesAreUnambiguous(ss: seq<CallProtocol.State>, es: seq<CallProtocol.Event>, causes: seq<Cause>, i: nat)
    returns (why: CallRuns.Source)
    requires CallRuns.IsRun(ss, es) && Caused(es, causes)
    requires i < |es| && CallProtocol.Answer(ss[i], es[i]).Some?
    ensures var a := CallProtocol.Answer(ss[i], es[i]).value;
            && CallRuns.Explains(ss, es, i, a, why)
            && (HasStatus(a, STATUS_INVALID_STATE) <==> why.NotAddressed? || why.FoundClosed? || FromDrop(why, causes))
            && (HasStatus(a, STATUS_NOT_READY) <==> why.StillPending?)
  {
    why := CallRuns.AwaitAnswers(ss, es, i);
    if why.Outcome? {
      assert es[why.published].Publish? && es[why.published].outcome == CallProtocol.Answer(ss[i], es[i]).value;
      OnlyDropsAreReserved(causes[why.published], es[why.published].outcome);
    }
  }
}
