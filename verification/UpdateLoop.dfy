/** Starting a workflow update: the retry loop of
    rust/core-bridge/src/client_protocol.rs against any server and any
    monotone clock. Times are in nanoseconds. */
module UpdateLoop {
  import opened Common

  datatype Request = Request(namespace: string, workflowId: string, runId: string, updateId: string)

  /** What a server sends back. The stage is any 32-bit number. */
  datatype CoreExecution = CoreExecution(workflowId: string, runId: string)

  datatype UpdateRef = UpdateRef(updateId: string, execution: Option<CoreExecution>)

  datatype CoreOutcome = HandlerSuccess(result: string) | HandlerFailure(message: string, convertible: bool) | NoValue

  datatype CoreResponse = CoreResponse(updateRef: Option<UpdateRef>, outcome: Option<CoreOutcome>, stage: int)

  datatype Execution = Execution(namespace: string, workflowId: string, runId: string)

  datatype Outcome = Completed(result: string) | Failed(message: string)

  datatype Response = Response(updateId: string, execution: Execution, outcome: Option<Outcome>)

  datatype ClientError = Rpc(code: string) | Core

  datatype Result<+T> = Okay(value: T) | Fault(error: ClientError)

  const DEADLINE_EXCEEDED := Rpc("deadline_exceeded")

  const STAGE_ACCEPTED := 2
  const STAGE_COMPLETED := 3

  // ---- One response ----

  function ConvertOutcome(o: CoreOutcome): Result<Outcome> {
    match o
    case HandlerSuccess(result) => Okay(Completed(result))
    case HandlerFailure(message, convertible) => if convertible then Okay(Failed(message)) else Fault(Core)
    case NoValue => Fault(Core)
  }

  /** `update_response_from_core`. */
  function Convert(request: Request, response: CoreResponse): Result<Response> {
    if response.updateRef.None? || response.updateRef.value.execution.None? then Fault(Core)
    else
      var ref, core := response.updateRef.value, response.updateRef.value.execution.value;
      if ref.updateId != request.updateId then Fault(Core)
      else
        var execution :=
          Execution(request.namespace, core.workflowId, if core.runId == "" then request.runId else core.runId);
        var changedRun := request.runId != "" && execution.runId != request.runId;
        if execution.workflowId != request.workflowId || changedRun then Fault(Core)
        else if execution.runId == "" then Fault(Core)
        else if response.outcome.None? then Okay(Response(ref.updateId, execution, None))
        else
          match ConvertOutcome(response.outcome.value)
          case Fault(error) => Fault(error)
          case Okay(outcome) => Okay(Response(ref.updateId, execution, Some(outcome)))
  }

  /** The response answers for the requested update of the requested run. */
  predicate AnswersFor(request: Request, response: CoreResponse) {
    && response.updateRef.Some? && response.updateRef.value.execution.Some?
    && response.updateRef.value.updateId == request.updateId
    && var core := response.updateRef.value.execution.value;
       core.workflowId == request.workflowId
       && (if request.runId == "" then core.runId != "" else core.runId == "" || core.runId == request.runId)
  }

  /** The outcome, if any, can be handed over. */
  predicate Representable(o: Option<CoreOutcome>) {
    o.None? || o.value.HandlerSuccess? || (o.value.HandlerFailure? && o.value.convertible)
  }

  /** What is handed over is what the update's handler ended with. */
  ghost predicate Reports(o: Option<CoreOutcome>, r: Option<Outcome>) {
    && (r.None? <==> o.None?)
    && (forall x :: r == Some(Completed(x)) <==> o == Some(HandlerSuccess(x)))
    && (forall m :: r == Some(Failed(m)) <==> o == Some(HandlerFailure(m, true)))
  }

  /** A response converts iff it answers for the request and its outcome, if
      any, is representable; the result then names exactly what was asked, or
      the run the server chose when none was, and reports that very outcome.
      Every other response is a Core fault. */
  lemma ConvertIsExact(request: Request, response: CoreResponse)
    ensures Convert(request, response).Okay? <==> AnswersFor(request, response) && Representable(response.outcome)
    ensures Convert(request, response).Okay? ==> Names(request, Convert(request, response).value)
    ensures Convert(request, response).Okay? ==> Reports(response.outcome, Convert(request, response).value.outcome)
    ensures Convert(request, response).Okay? && request.runId == "" ==>
              Convert(request, response).value.execution.runId == response.updateRef.value.execution.value.runId
    ensures Convert(request, response).Fault? ==> Convert(request, response).error == Core
  {
  }

  predicate Names(request: Request, r: Response) {
    && r.updateId == request.updateId
    && r.execution.namespace == request.namespace && r.execution.workflowId == request.workflowId
    && r.execution.runId != ""
    && (request.runId != "" ==> r.execution.runId == request.runId)
  }

  /** `update_stage_is_accepted`, for a response without an outcome. */
  function StageIsAccepted(stage: int): Result<bool> {
    if stage == STAGE_ACCEPTED then Okay(true) else if stage == STAGE_COMPLETED then Fault(Core) else Okay(false)
  }

  datatype Decision = Return(result: Result<Response>) | Retry

  function Decide(request: Request, response: CoreResponse): Decision {
    match Convert(request, response)
    case Fault(error) => Return(Fault(error))
    case Okay(converted) =>
      if converted.outcome.Some? then Return(Okay(converted))
      else
        match StageIsAccepted(response.stage)
        case Fault(error) => Return(Fault(error))
        case Okay(accepted) => if accepted then Return(Okay(converted)) else Retry
  }

  /** The server says the update was accepted, or gives its outcome. */
  predicate Durable(response: CoreResponse) {
    response.outcome.Some? || response.stage == STAGE_ACCEPTED
  }

  /** A handle is made exactly of a final outcome or an accepted update; a retry
      exactly of an update that is neither; anything else is a Core fault. */
  lemma DecisionIsDurable(request: Request, response: CoreResponse)
    ensures Decide(request, response) == Retry <==>
              AnswersFor(request, response) && response.outcome.None?
              && response.stage != STAGE_ACCEPTED && response.stage != STAGE_COMPLETED
    ensures Decide(request, response).Return? && Decide(request, response).result.Okay? <==>
              AnswersFor(request, response) && Representable(response.outcome) && Durable(response)
    ensures Decide(request, response).Return? && Decide(request, response).result.Okay? ==>
              Decide(request, response).result == Convert(request, response)
    ensures Decide(request, response).Return? && Decide(request, response).result.Fault? ==>
              Decide(request, response).result.error == Core
  {
    ConvertIsExact(request, response);
  }

  // ---- The loop ----

  const MILLISECOND := 1_000_000
  const UPDATE_READMISSION_PAUSE := 100 * MILLISECOND

  /** What one RPC attempt ends with. */
  datatype Reply = TimedOut | Status(code: string) | Answer(response: CoreResponse)

  function CeilDiv(a: nat, b: nat): nat
    requires b > 0
  {
    (a + b - 1) / b
  }

  /** The clock never goes back, and time passes. */
  ghost predicate Monotone(clock: nat -> nat) {
    (forall i: nat, j: nat | i <= j :: InOrder(clock, i, j)) && forall i: nat, t: nat :: Passes(clock, i, t)
  }

  predicate InOrder(clock: nat -> nat, i: nat, j: nat) {
    clock(i) <= clock(j)
  }

  ghost predicate Passes(clock: nat -> nat, i: nat, t: nat) {
    exists j: nat :: i <= j && clock(j) >= t
  }

  /** `budget_status`: an expired budget has one name. */
  function StatusError(code: string, expired: bool): ClientError {
    if expired && (code == "cancelled" || code == "deadline_exceeded") then DEADLINE_EXCEEDED else Rpc(code)
  }

  /** What an attempt that does not ask for a retry returns; `expired` tells
      whether it took all of its budget. */
  predicate Ends(request: Request, reply: Reply, expired: bool, r: Result<Response>) {
    match reply
    case TimedOut => r == Fault(DEADLINE_EXCEEDED)
    case Status(code) => r == Fault(StatusError(code, expired))
    case Answer(response) => Decide(request, response) == Return(r)
  }

  /** A success answers for what was asked, is final or accepted, and reports
      the outcome that the server gave. */
  ghost predicate Confirms(request: Request, reply: Reply, r: Response) {
    && reply.Answer? && AnswersFor(request, reply.response) && Durable(reply.response)
    && Names(request, r) && Reports(reply.response.outcome, r.outcome)
  }

  predicate Conclusive(request: Request, reply: Reply) {
    reply.Answer? && AnswersFor(request, reply.response) && Representable(reply.response.outcome) && Durable(reply.response)
  }

  /** An attempt succeeds exactly with a conclusive answer, which it reports; it
      meets the deadline, repeats the server's status, or is a Core fault. */
  lemma EndIsExact(request: Request, reply: Reply, expired: bool, r: Result<Response>)
    requires Ends(request, reply, expired, r)
    ensures r.Okay? <==> Conclusive(request, reply)
    ensures r.Okay? ==> Confirms(request, reply, r.value)
    ensures reply.TimedOut? ==> r == Fault(Rpc("deadline_exceeded"))
    ensures reply.Status? && !expired ==> r == Fault(Rpc(reply.code))
    ensures reply.Answer? && !r.Okay? ==> r == Fault(Core)
  {
    if reply.Answer? {
      DecisionIsDurable(request, reply.response);
      ConvertIsExact(request, reply.response);
    }
  }

  /** An attempt that took all of its budget and was cancelled for it counts as
      one that met its deadline; every other status is kept. */
  lemma OneNameForExpiry(code: string, expired: bool)
    ensures StatusError(code, expired) == Rpc("deadline_exceeded") <==> code == "deadline_exceeded" || (expired && code == "cancelled")
    ensures StatusError(code, expired) != Rpc("deadline_exceeded") ==> StatusError(code, expired) == Rpc(code)
  {
  }

  predicate Retries(request: Request, reply: Reply) {
    reply.Answer? && Decide(request, reply.response) == Retry
  }

  lemma StepsFit(n: nat, budget: nat, pause: nat)
    requires pause > 0 && n * pause < budget
    ensures n + 1 <= CeilDiv(budget, pause)
  {
    var k := CeilDiv(budget, pause);
    assert k * pause + (budget + pause - 1) % pause == budget + pause - 1;
    assert (k - n) * pause > 0;
  }

  // ---- When attempts happen ----

  ghost predicate IsFirst(clock: nat -> nat, i: nat, t: nat, j: nat) {
    i <= j && clock(j) >= t && forall k | i <= k < j :: clock(k) < t
  }

  /** Whether `c` is the reading at which the attempt after the one checked at
      `b` is checked: the next one after the pause that follows the attempt's
      end, which is read two readings after its check. */
  ghost predicate Follows(clock: nat -> nat, b: nat, c: nat) {
    c > 0 && IsFirst(clock, b + 2, clock(b + 2) + UPDATE_READMISSION_PAUSE, c - 1)
  }

  /** The readings at which the budget of each attempt is checked. They are
      determined by the clock alone. */
  ghost predicate Schedule(clock: nat -> nat, checks: seq<nat>) {
    (checks != [] ==> checks[0] == 1) && forall n | 0 < n < |checks| :: Follows(clock, checks[n - 1], checks[n])
  }

  /** The pause after the attempt checked at `c` would take the rest of the budget. */
  predicate PauseSpends(clock: nat -> nat, budget: nat, c: nat) {
    clock(c + 2) + UPDATE_READMISSION_PAUSE >= clock(0) + budget
  }

  /** The budget is spent when the attempt after `checks` is due: already at
      its check, or, for a repeated attempt, by the pause before it. */
  ghost predicate Spent(clock: nat -> nat, budget: nat, checks: seq<nat>) {
    if checks == [] then clock(1) >= clock(0) + budget
    else
      var b := checks[|checks| - 1];
      PauseSpends(clock, budget, b)
      || exists c: nat :: Follows(clock, b, c) && clock(c) >= clock(0) + budget
  }

  /** `sleep_until`: the first later reading of the clock that has reached `t`. */
  method SleepUntil(clock: nat -> nat, i: nat, t: nat) returns (j: nat)
    requires Monotone(clock)
    ensures IsFirst(clock, i, t, j)
  {
    assert Passes(clock, i, t);
    ghost var end :| i <= end && clock(end) >= t;
    j := i;
    while clock(j) < t
      invariant i <= j <= end && forall k | i <= k < j :: clock(k) < t
      decreases end - j
    {
      j := j + 1;
    }
  }

  method Attempt(request: Request, reply: Reply, expired: bool) returns (d: Decision)
    ensures d.Retry? <==> Retries(request, reply)
    ensures d.Return? ==> Ends(request, reply, expired, d.result)
  {
    match reply
    case TimedOut => d := Return(Fault(DEADLINE_EXCEEDED));
    case Status(code) => d := Return(Fault(StatusError(code, expired)));
    case Answer(response) => d := Decide(request, response);
  }

  /** Checks are at least a pause apart. */
  lemma {:induction false} ChecksAreSpaced(clock: nat -> nat, checks: seq<nat>, n: nat)
    requires Monotone(clock) && Schedule(clock, checks) && n < |checks|
    ensures clock(checks[n]) >= clock(0) + n * UPDATE_READMISSION_PAUSE
  {
    if n > 0 {
      ChecksAreSpaced(clock, checks, n - 1);
      SpacedByPause(clock, checks[n - 1], checks[n]);
    } else {
      assert InOrder(clock, 0, 1);
    }
  }

  lemma SpacedByPause(clock: nat -> nat, b: nat, c: nat)
    requires Monotone(clock) && Follows(clock, b, c)
    ensures clock(c) >= clock(b) + UPDATE_READMISSION_PAUSE
  {
    assert InOrder(clock, b, b + 2) && InOrder(clock, c - 1, c);
  }

  /** Every check so far found budget left. */
  ghost predicate InBudget(clock: nat -> nat, budget: nat, checks: seq<nat>) {
    Schedule(clock, checks) && forall n | 0 <= n < |checks| :: clock(checks[n]) < clock(0) + budget
  }

  /** The check that comes after `checks`. */
  ghost predicate IsNext(clock: nat -> nat, checks: seq<nat>, c: nat) {
    if checks == [] then c == 1 else Follows(clock, checks[|checks| - 1], c)
  }

  /** An attempt with budget left is one of the first `ceil(budget / pause)`. */
  lemma AttemptFits(clock: nat -> nat, budget: nat, checks: seq<nat>, c: nat)
    requires Monotone(clock) && InBudget(clock, budget, checks) && IsNext(clock, checks, c)
    requires clock(c) < clock(0) + budget
    ensures InBudget(clock, budget, checks + [c])
    ensures |checks| + 1 <= CeilDiv(budget, UPDATE_READMISSION_PAUSE)
  {
    ChecksAreSpaced(clock, checks + [c], |checks|);
    StepsFit(|checks|, budget, UPDATE_READMISSION_PAUSE);
  }

  predicate AllRetry(request: Request, server: nat -> Reply, count: int) {
    forall n: nat | n < count :: Retries(request, server(n))
  }

  /** Whether the attempt checked at reading `c`, and started at the next one,
      had taken all that was left of the budget when it ended. */
  predicate Expired(clock: nat -> nat, budget: nat, c: nat) {
    clock(c + 2) - clock(c + 1) >= clock(0) + budget - clock(c)
  }

  /** What the loop answers after the attempts checked at `checks`. */
  ghost predicate Answers(request: Request, budget: nat, clock: nat -> nat, server: nat -> Reply, checks: seq<nat>, r: Result<Response>) {
    var last := |checks| - 1;
    if last >= 0 && !Retries(request, server(last))
    then Ends(request, server(last), Expired(clock, budget, checks[last]), r)
    else r == Fault(DEADLINE_EXCEEDED) && Spent(clock, budget, checks)
  }

  /** One round of the loop, its budget checked at reading `c`: the attempt
      and, before a retry that still fits, the pause. */
  method Round(request: Request, budget: nat, clock: nat -> nat, reply: Reply, c: nat)
    returns (r: Option<Result<Response>>, i: nat)
    requires Monotone(clock) && clock(c) < clock(0) + budget
    ensures r.None? ==> Retries(request, reply) && Follows(clock, c, i + 1)
    ensures r.Some? && Retries(request, reply) ==> r.value == Fault(DEADLINE_EXCEEDED) && PauseSpends(clock, budget, c)
    ensures r.Some? && !Retries(request, reply) ==> Ends(request, reply, Expired(clock, budget, c), r.value)
    ensures Retries(request, reply) ==> (r.None? <==> clock(c + 2) + 100 * MILLISECOND < clock(0) + budget)
    ensures reply.Status? ==>
              r == Some(Fault(if reply.code == "cancelled" && clock(c + 2) - clock(c + 1) >= clock(0) + budget - clock(c)
                              then Rpc("deadline_exceeded") else Rpc(reply.code)))
  {
    var deadline := clock(0) + budget;
    var remaining := deadline - clock(c);
    var started := clock(c + 1);
    i := c + 2;
    var d := Attempt(request, reply, clock(i) - started >= remaining);
    if d.Return? {
      return Some(d.result), i;
    }
    var pauseUntil := clock(i) + UPDATE_READMISSION_PAUSE;
    if pauseUntil >= deadline {
      return Some(Fault(DEADLINE_EXCEEDED)), i;
    }
    i := SleepUntil(clock, i, pauseUntil);
    r := None;
  }

  /** `update_workflow_within`. `clock(i)` is the i-th reading of the clock and
      `server(n)` the end of attempt `n`. At most one attempt per 100 ms of
      budget is made, each with budget left; every attempt but the last asks
      for a retry; and the result is what the last attempt ends with, unless
      the budget was spent when the next one was due. */
  method UpdateWithin(request: Request, budget: nat, clock: nat -> nat, server: nat -> Reply)
    returns (r: Result<Response>, attempts: nat, ghost checks: seq<nat>)
    requires Monotone(clock)
    ensures attempts <= CeilDiv(budget, 100 * MILLISECOND)
    ensures |checks| == attempts && InBudget(clock, budget, checks)
    ensures AllRetry(request, server, attempts - 1)
    ensures Answers(request, budget, clock, server, checks, r)
    ensures r.Okay? <==> attempts > 0 && Conclusive(request, server(attempts - 1))
    ensures r.Okay? ==> Confirms(request, server(attempts - 1), r.value)
  {
    var i := 0;
    attempts, checks := 0, [];
    while true
      invariant |checks| == attempts && InBudget(clock, budget, checks) && IsNext(clock, checks, i + 1)
      invariant AllRetry(request, server, attempts)
      invariant attempts <= CeilDiv(budget, UPDATE_READMISSION_PAUSE)
      decreases CeilDiv(budget, UPDATE_READMISSION_PAUSE) - attempts
    {
      var c := i + 1;
      if clock(c) >= clock(0) + budget {
        if attempts > 0 {
          DecisionIsDurable(request, server(attempts - 1).response);
        }
        return Fault(DEADLINE_EXCEEDED), attempts, checks;
      }
      AttemptFits(clock, budget, checks, c);
      checks := checks + [c];
      var reply := server(attempts);
      attempts := attempts + 1;
      var end;
      end, i := Round(request, budget, clock, reply, c);
      if end.Some? {
        if Retries(request, reply) {
          DecisionIsDurable(request, reply.response);
        } else {
          EndIsExact(request, reply, Expired(clock, budget, c), end.value);
        }
        return end.value, attempts, checks;
      }
    }
  }
}
