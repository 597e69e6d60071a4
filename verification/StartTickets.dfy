/** Asynchronous workflow starts (rust/core-bridge/src/abi.rs): tickets, their
    one-shot result channels, and the closed accepted/rejected/unknown outcome. */
module StartTickets {
  import opened Common
  import Admission
  import AdmissionClasses

  type StartRequest = Admission.StartRequest

  predicate SameStartRequest(a: StartRequest, b: StartRequest) {
    Admission.SameStartRequest(a, b)
  }

  type Ticket = string

  datatype Execution = Execution(namespace: string, workflowId: string, runId: string)

  datatype Response = Response(execution: Execution, started: bool)

  datatype ClientError =
    | AlreadyStarted(workflowId: string, existingRunId: Option<string>)
    | RpcError(code: string)
    | QueryFailed(message: string)
    | CoreError(code: string)

  datatype StartResult = Completed(response: Response) | Failed(error: ClientError)

  datatype Outcome =
    | Accepted(response: Response)
    | Rejected(error: ClientError)
    | Unknown(requestId: string, workflowId: string)

  // ---- Outcomes ----

  const UNCERTAIN_CODES := {
    "cancelled", "unknown", "deadline_exceeded", "resource_exhausted", "aborted", "internal", "unavailable", "data_loss"
  }

  /** `uncertain_start`: Temporal may have accepted the request all the same. */
  predicate Uncertain(error: ClientError) {
    match error
    case AlreadyStarted(_, _) => false
    case QueryFailed(_) => false
    case CoreError(_) => true
    case RpcError(code) => code in UNCERTAIN_CODES
  }

  predicate ValidExecution(x: Execution) {
    ValidIdentifier(x.namespace) && ValidIdentifier(x.workflowId) && ValidIdentifier(x.runId)
  }

  /** `validate_start_outcome_document`. */
  predicate ValidOutcome(o: Outcome) {
    match o
    case Accepted(response) => ValidExecution(response.execution)
    case Rejected(AlreadyStarted(workflowId, existing)) =>
      ValidIdentifier(workflowId) && (existing.Some? ==> ValidIdentifier(existing.value))
    case Rejected(RpcError(code)) => ValidIdentifier(code)
    case Rejected(CoreError(code)) => ValidIdentifier(code)
    case Rejected(QueryFailed(_)) => false
    case Unknown(requestId, workflowId) => ValidIdentifier(requestId) && ValidIdentifier(workflowId)
  }

  predicate ValidRequest(request: StartRequest) {
    ValidIdentifier(request.requestId) && ValidIdentifier(request.workflowId)
  }

  function UnknownOf(request: StartRequest): Outcome {
    Unknown(request.requestId, request.workflowId)
  }

  /** `start_outcome_bytes`; a task that ended without a result has none. */
  function OutcomeOf(request: StartRequest, result: Option<StartResult>): Outcome {
    var outcome :=
      if result.None? then UnknownOf(request)
      else
        match result.value
        case Completed(response) => Accepted(response)
        case Failed(error) => if Uncertain(error) then UnknownOf(request) else Rejected(error);
    if ValidOutcome(outcome) then outcome else UnknownOf(request)
  }

  /** The codes after which a start may have been accepted all the same. */
  predicate MayHaveStarted(code: string) {
    || code == "cancelled" || code == "unknown" || code == "deadline_exceeded" || code == "resource_exhausted"
    || code == "aborted" || code == "internal" || code == "unavailable" || code == "data_loss"
  }

  /** Failure by failure: only a workflow that already exists and a status with
      a certain code are reported as rejected; a failure of Core or of a query,
      and a task that ended without a result, never are. */
  lemma RejectedFailures(request: StartRequest, result: Option<StartResult>)
    requires ValidRequest(request)
    ensures forall code :: result == Some(Failed(RpcError(code))) ==>
              OutcomeOf(request, result)
              == if MayHaveStarted(code) || !ValidIdentifier(code) then UnknownOf(request) else Rejected(RpcError(code))
    ensures forall id, run :: result == Some(Failed(AlreadyStarted(id, run))) ==>
              (OutcomeOf(request, result) == Rejected(AlreadyStarted(id, run)) <==>
                 ValidIdentifier(id) && (run.Some? ==> ValidIdentifier(run.value)))
    ensures (result.None? || (result.value.Failed? && (result.value.error.CoreError? || result.value.error.QueryFailed?))) ==>
              OutcomeOf(request, result) == UnknownOf(request)
    ensures UnknownOf(request).requestId == request.requestId && UnknownOf(request).workflowId == request.workflowId
  {
  }

  /** The document always encodes; it says accepted or rejected exactly when
      that is certain and representable, and otherwise names the request. */
  lemma OutcomeIsHonest(request: StartRequest, result: Option<StartResult>)
    requires ValidRequest(request)
    ensures ValidOutcome(OutcomeOf(request, result))
    ensures forall r :: OutcomeOf(request, result) == Accepted(r) <==>
                        result == Some(Completed(r)) && ValidExecution(r.execution)
    ensures forall x :: OutcomeOf(request, result) == Rejected(x) <==>
                        result == Some(Failed(x)) && !Uncertain(x) && ValidOutcome(Rejected(x))
    ensures OutcomeOf(request, result).Unknown? ==> OutcomeOf(request, result) == UnknownOf(request)
  {
  }

  // ---- The registry ----

  /** The receiving end of a task's one-shot channel. */
  datatype Channel = Empty | Holds(result: StartResult) | Hung

  datatype Pending = Pending(request: StartRequest, channel: Channel)

  datatype Registry = Registry(connected: bool, limit: nat, pending: map<Ticket, Pending>)

  datatype Answer = Issued(ticket: Ticket) | Finished(outcome: Outcome) | Started | Refused(status: nat) | Silent

  function Matching(pending: map<Ticket, Pending>, requestId: string): set<Ticket> {
    set t | t in pending && pending[t].request.requestId == requestId
  }

  function Without(pending: map<Ticket, Pending>, ticket: Ticket): map<Ticket, Pending> {
    map t | t in pending && t != ticket :: pending[t]
  }

  /** `begin_start_workflow_json`. `reserved` is the outcome of the allocation,
      `unused` the identifier the generator settled on. */
  ghost predicate Begins(r: Registry, request: StartRequest, reserved: bool, unused: Ticket, r': Registry, a: Answer) {
    if !r.connected then r' == r && a == Refused(STATUS_INVALID_STATE)
    else if Matching(r.pending, request.requestId) != {} then
      r' == r
      && exists t | t in Matching(r.pending, request.requestId) ::
           a == if SameStartRequest(r.pending[t].request, request) then Issued(t) else Refused(STATUS_PROTOCOL)
    else if |r.pending| >= r.limit then r' == r && a == Refused(STATUS_RESOURCE_EXHAUSTED)
    else if !reserved then r' == r && a == Refused(STATUS_INTERNAL)
    else
      unused !in r.pending && r' == r.(pending := r.pending[unused := Pending(request, Empty)]) && a == Issued(unused)
  }

  /** `read_start_workflow_json` and `finish_start`. */
  function Read(r: Registry, ticket: Ticket): (Registry, Answer) {
    if !r.connected then (r, Refused(STATUS_INVALID_STATE))
    else if ticket !in r.pending then (r, Refused(STATUS_PROTOCOL))
    else
      var p := r.pending[ticket];
      if p.channel.Empty? then (r, Refused(STATUS_NOT_READY))
      else
        var result := if p.channel.Holds? then Some(p.channel.result) else None;
        (r.(pending := Without(r.pending, ticket)), Finished(OutcomeOf(p.request, result)))
  }

  /** `start_workflow_json` up to its RPC. */
  ghost predicate SyncStarts(r: Registry, request: StartRequest, a: Answer) {
    if Matching(r.pending, request.requestId) != {} then
      exists t | t in Matching(r.pending, request.requestId) ::
        a == Refused(if SameStartRequest(r.pending[t].request, request) then STATUS_INVALID_STATE else STATUS_PROTOCOL)
    else a == if r.connected then Started else Refused(STATUS_INVALID_STATE)
  }

  datatype Event =
    | Connect(limit: nat)
    | Begin(request: StartRequest, reserved: bool, unused: Ticket)
    | ReadTicket(ticket: Ticket)
    | SyncStart(request: StartRequest)
    | TaskSends(ticket: Ticket, result: StartResult)
    | TaskEnds(ticket: Ticket)
    | Disconnect

  /** A task sends at most once, and its channel hangs up when it ended first. */
  function Arrived(r: Registry, ticket: Ticket, channel: Channel): Registry {
    if ticket in r.pending && r.pending[ticket].channel.Empty? then
      r.(pending := r.pending[ticket := r.pending[ticket].(channel := channel)])
    else r
  }

  ghost predicate Next(r: Registry, e: Event, r': Registry, a: Answer) {
    match e
    case Connect(limit) =>
      if r.connected then r' == r && a == Refused(STATUS_INVALID_STATE)
      else limit >= 1 && r' == r.(connected := true, limit := limit) && a == Silent
    case Begin(request, reserved, unused) => ValidRequest(request) && Begins(r, request, reserved, unused, r', a)
    case ReadTicket(ticket) => (r', a) == Read(r, ticket)
    case SyncStart(request) => r' == r && SyncStarts(r, request, a)
    case TaskSends(ticket, result) => r' == Arrived(r, ticket, Holds(result)) && a == Silent
    case TaskEnds(ticket) => r' == Arrived(r, ticket, Hung) && a == Silent
    case Disconnect => r' == Registry(false, Admission.DEFAULT_LIMITS.starts, map[]) && a == Silent
  }

  const INIT := Registry(false, Admission.DEFAULT_LIMITS.starts, map[])

  predicate Distinct(pending: map<Ticket, Pending>) {
    forall t, u | t in pending && u in pending && pending[t].request.requestId == pending[u].request.requestId :: t == u
  }

  predicate AllValid(pending: map<Ticket, Pending>) {
    forall t | t in pending :: ValidRequest(pending[t].request)
  }

  predicate Inv(r: Registry) {
    Distinct(r.pending) && AllValid(r.pending) && |r.pending| <= r.limit && (!r.connected ==> r.pending == map[])
  }

  lemma IssueKeeps(pending: map<Ticket, Pending>, t: Ticket, p: Pending)
    requires Distinct(pending) && AllValid(pending) && ValidRequest(p.request)
    requires Matching(pending, p.request.requestId) == {} && t !in pending
    ensures Distinct(pending[t := p]) && AllValid(pending[t := p]) && |pending[t := p]| == |pending| + 1
  {
    assert pending[t := p].Keys == pending.Keys + {t};
    forall u | u in pending ensures pending[u].request.requestId != p.request.requestId {
      assert u !in Matching(pending, p.request.requestId);
    }
  }

  lemma RetireKeeps(pending: map<Ticket, Pending>, t: Ticket)
    requires Distinct(pending) && AllValid(pending)
    ensures Distinct(Without(pending, t)) && AllValid(Without(pending, t)) && |Without(pending, t)| <= |pending|
  {
    SubsetSize(Without(pending, t).Keys, pending.Keys);
  }

  lemma ReadKeeps(r: Registry, ticket: Ticket)
    requires Inv(r)
    ensures Inv(Read(r, ticket).0)
  {
    RetireKeeps(r.pending, ticket);
  }

  lemma ArrivalKeeps(r: Registry, t: Ticket, channel: Channel)
    requires Inv(r)
    ensures Inv(Arrived(r, t, channel))
  {
    assert Arrived(r, t, channel).pending.Keys == r.pending.Keys;
  }

  lemma NextKeepsInv(r: Registry, e: Event, r': Registry, a: Answer)
    requires Inv(r) && Next(r, e, r', a)
    ensures Inv(r')
  {
    match e
    case Begin(request, reserved, unused) =>
      if r' != r {
        IssueKeeps(r.pending, unused, Pending(request, Empty));
      }
    case ReadTicket(ticket) => ReadKeeps(r, ticket);
    case TaskSends(ticket, result) => ArrivalKeeps(r, ticket, Holds(result));
    case TaskEnds(ticket) => ArrivalKeeps(r, ticket, Hung);
    case _ =>
  }

  // ---- Runs ----

  ghost predicate IsRun(rs: seq<Registry>, es: seq<Event>, ans: seq<Answer>) {
    |rs| == |es| + 1 && |ans| == |es| && rs[0] == INIT
    && forall i | 0 <= i < |es| :: Next(rs[i], es[i], rs[i + 1], ans[i])
  }

  lemma {:induction false} InvHolds(rs: seq<Registry>, es: seq<Event>, ans: seq<Answer>, i: nat)
    requires IsRun(rs, es, ans) && i <= |es|
    ensures Inv(rs[i])
  {
    if i > 0 {
      InvHolds(rs, es, ans, i - 1);
      assert Next(rs[i - 1], es[i - 1], rs[i - 1 + 1], ans[i - 1]);
      NextKeepsInv(rs[i - 1], es[i - 1], rs[i], ans[i - 1]);
    }
  }

  /** Live tickets have distinct request ids and never exceed the limit. */
  lemma TicketsAreBounded(rs: seq<Registry>, es: seq<Event>, ans: seq<Answer>, i: nat)
    requires IsRun(rs, es, ans) && i <= |es|
    ensures |rs[i].pending| <= rs[i].limit
    ensures forall t, u | t in rs[i].pending && u in rs[i].pending
                          && rs[i].pending[t].request.requestId == rs[i].pending[u].request.requestId :: t == u
  {
    InvHolds(rs, es, ans, i);
  }

  /** While a ticket is live, its request id is taken: the same request gets
      that ticket again, a changed one is refused, a blocking start is refused,
      and none of them changes the registry. */
  lemma RetryIsIdempotent(rs: seq<Registry>, es: seq<Event>, ans: seq<Answer>, i: nat, t: Ticket)
    requires IsRun(rs, es, ans) && i < |es| && rs[i].connected && t in rs[i].pending
    requires (es[i].Begin? || es[i].SyncStart?) && es[i].request.requestId == rs[i].pending[t].request.requestId
    ensures rs[i + 1] == rs[i]
    ensures !SameStartRequest(rs[i].pending[t].request, es[i].request) ==> ans[i] == Refused(STATUS_PROTOCOL)
    ensures SameStartRequest(rs[i].pending[t].request, es[i].request) ==>
              ans[i] == if es[i].Begin? then Issued(t) else Refused(STATUS_INVALID_STATE)
  {
    InvHolds(rs, es, ans, i);
    assert Next(rs[i], es[i], rs[i + 1], ans[i]);
    assert t in Matching(rs[i].pending, es[i].request.requestId);
  }

  /** `t` is the live ticket of the request id. */
  predicate Live(r: Registry, t: Ticket, requestId: string) {
    t in r.pending && r.pending[t].request.requestId == requestId
  }

  /** When a ticket is issued, and what each refusal means: there is no client,
      the request id belongs to another request, the limit is reached, or the
      reservation failed. Only a new ticket changes the registry. */
  lemma IssueIsExact(rs: seq<Registry>, es: seq<Event>, ans: seq<Answer>, i: nat)
    requires IsRun(rs, es, ans) && i < |es| && es[i].Begin?
    ensures var r, request := rs[i], es[i].request;
            var taken := exists t :: Live(r, t, request.requestId);
            && (!r.connected ==> ans[i] == Refused(STATUS_INVALID_STATE))
            && (forall t | r.connected && Live(r, t, request.requestId) ::
                  ans[i] == if r.pending[t].request.workflowId == request.workflowId && r.pending[t].request.body == request.body
                            then Issued(t) else Refused(STATUS_PROTOCOL))
            && (r.connected && !taken && |r.pending| == r.limit ==> ans[i] == Refused(STATUS_RESOURCE_EXHAUSTED))
            && (r.connected && !taken && |r.pending| < r.limit && !es[i].reserved ==> ans[i] == Refused(STATUS_INTERNAL))
            && (r.connected && !taken && |r.pending| < r.limit && es[i].reserved ==>
                  ans[i] == Issued(es[i].unused) && es[i].unused !in r.pending
                  && rs[i + 1].pending == r.pending[es[i].unused := Pending(request, Empty)])
            && (!r.connected || taken || |r.pending| == r.limit || !es[i].reserved ==> rs[i + 1] == r)
  {
    InvHolds(rs, es, ans, i);
    assert Next(rs[i], es[i], rs[i + 1], ans[i]);
    var r, request := rs[i], es[i].request;
    assert forall t :: t in Matching(r.pending, request.requestId) <==> Live(r, t, request.requestId);
    forall t | Live(r, t, request.requestId)
      ensures SameStartRequest(r.pending[t].request, request) <==>
                r.pending[t].request.workflowId == request.workflowId && r.pending[t].request.body == request.body
    {
      AdmissionClasses.SameStartRequestIsExact(r.pending[t].request, request);
    }
  }

  /** Step `k` of the run admits a new start under ticket `t`. */
  predicate IssuedAt(rs: seq<Registry>, es: seq<Event>, k: nat, t: Ticket)
    requires |rs| == |es| + 1 && k < |es|
  {
    es[k].Begin? && t !in rs[k].pending && t in rs[k + 1].pending
  }

  lemma PendingStep(r: Registry, e: Event, r': Registry, a: Answer, t: Ticket)
    requires Next(r, e, r', a) && t in r'.pending && t !in r.pending
    ensures e.Begin? && r'.pending[t] == Pending(e.request, Empty) && a == Issued(t)
  {
  }

  /** A live ticket was issued, and was live ever since. */
  lemma {:induction false} LiveWasIssued(rs: seq<Registry>, es: seq<Event>, ans: seq<Answer>, i: nat, t: Ticket) returns (k: nat)
    requires IsRun(rs, es, ans) && i <= |es| && t in rs[i].pending
    ensures k < i && IssuedAt(rs, es, k, t) && es[k].request == rs[i].pending[t].request && ans[k] == Issued(t)
    ensures forall m | k < m <= i :: t in rs[m].pending && rs[m].pending[t].request == es[k].request
  {
    assert i > 0;
    assert Next(rs[i - 1], es[i - 1], rs[i - 1 + 1], ans[i - 1]);
    if t in rs[i - 1].pending {
      k := LiveWasIssued(rs, es, ans, i - 1, t);
      SameRequestStays(rs[i - 1], es[i - 1], rs[i], ans[i - 1], t);
    } else {
      PendingStep(rs[i - 1], es[i - 1], rs[i], ans[i - 1], t);
      k := i - 1;
    }
  }

  lemma SameRequestStays(r: Registry, e: Event, r': Registry, a: Answer, t: Ticket)
    requires Next(r, e, r', a) && t in r.pending && t in r'.pending
    ensures r'.pending[t].request == r.pending[t].request
    ensures r'.pending[t].channel != r.pending[t].channel ==> r.pending[t].channel.Empty?
    ensures r'.pending[t].channel != r.pending[t].channel && r'.pending[t].channel.Holds? ==>
              e == TaskSends(t, r'.pending[t].channel.result)
  {
  }

  /** A result waiting in a ticket's channel was sent while the ticket was live. */
  lemma {:induction false} HeldWasSent(rs: seq<Registry>, es: seq<Event>, ans: seq<Answer>, i: nat, t: Ticket) returns (m: nat)
    requires IsRun(rs, es, ans) && i <= |es| && t in rs[i].pending && rs[i].pending[t].channel.Holds?
    ensures m < i && es[m] == TaskSends(t, rs[i].pending[t].channel.result)
    ensures forall j | m <= j <= i :: t in rs[j].pending
  {
    assert i > 0;
    assert Next(rs[i - 1], es[i - 1], rs[i - 1 + 1], ans[i - 1]);
    if t !in rs[i - 1].pending {
      PendingStep(rs[i - 1], es[i - 1], rs[i], ans[i - 1], t);
      assert false;
    }
    SameRequestStays(rs[i - 1], es[i - 1], rs[i], ans[i - 1], t);
    if rs[i - 1].pending[t].channel.Holds? {
      m := HeldWasSent(rs, es, ans, i - 1, t);
    } else {
      m := i - 1;
    }
  }

  /** The task of ticket `t` ends here, with or without a result. */
  predicate Arrives(e: Event, t: Ticket) {
    (e.TaskSends? || e.TaskEnds?) && e.ticket == t
  }

  lemma ArrivalStep(r: Registry, e: Event, r': Registry, a: Answer, t: Ticket)
    requires Next(r, e, r', a) && t in r.pending && t in r'.pending
    ensures r'.pending[t].channel.Empty? <==> r.pending[t].channel.Empty? && !Arrives(e, t)
  {
  }

  /** A live ticket's channel is empty exactly until its task has ended. */
  lemma {:induction false} EmptyUntilEnded(rs: seq<Registry>, es: seq<Event>, ans: seq<Answer>, k: nat, i: nat, t: Ticket)
    requires IsRun(rs, es, ans) && k < i <= |es| && IssuedAt(rs, es, k, t) && forall m | k < m <= i :: t in rs[m].pending
    ensures rs[i].pending[t].channel.Empty? <==> forall m | k < m < i :: !Arrives(es[m], t)
    decreases i
  {
    assert Next(rs[i - 1], es[i - 1], rs[i - 1 + 1], ans[i - 1]);
    if k == i - 1 {
      PendingStep(rs[k], es[k], rs[k + 1], ans[k], t);
    } else {
      EmptyUntilEnded(rs, es, ans, k, i - 1, t);
      ArrivalStep(rs[i - 1], es[i - 1], rs[i], ans[i - 1], t);
    }
  }

  /** A live ticket can be read exactly when its task has ended since the ticket
      was issued, whatever else happened. */
  lemma ReadableWhenEnded(rs: seq<Registry>, es: seq<Event>, ans: seq<Answer>, i: nat, t: Ticket) returns (k: nat)
    requires IsRun(rs, es, ans) && i < |es| && es[i] == ReadTicket(t) && t in rs[i].pending
    ensures k < i && IssuedAt(rs, es, k, t) && forall m | k < m <= i :: t in rs[m].pending
    ensures if exists m | k < m < i :: Arrives(es[m], t) then ans[i].Finished? && t !in rs[i + 1].pending
            else ans[i] == Refused(STATUS_NOT_READY) && rs[i + 1] == rs[i]
  {
    InvHolds(rs, es, ans, i);
    assert Next(rs[i], es[i], rs[i + 1], ans[i]);
    k := LiveWasIssued(rs, es, ans, i, t);
    EmptyUntilEnded(rs, es, ans, k, i, t);
  }

  /** A connection begins with its own limit and no tickets, a second one is
      refused, and a disconnect leaves a new registry. */
  lemma ConnectionIsExact(rs: seq<Registry>, es: seq<Event>, ans: seq<Answer>, i: nat)
    requires IsRun(rs, es, ans) && i < |es|
    ensures es[i].Connect? && rs[i].connected ==> ans[i] == Refused(STATUS_INVALID_STATE) && rs[i + 1] == rs[i]
    ensures es[i].Connect? && !rs[i].connected ==> ans[i] == Silent && rs[i + 1] == Registry(true, es[i].limit, map[])
    ensures es[i].Disconnect? ==> rs[i + 1] == INIT
  {
    InvHolds(rs, es, ans, i);
    assert Next(rs[i], es[i], rs[i + 1], ans[i]);
  }

  /** A blocking start is let through exactly over a client and with a request
      id that no ticket has. */
  lemma BlockingStartIsExact(rs: seq<Registry>, es: seq<Event>, ans: seq<Answer>, i: nat)
    requires IsRun(rs, es, ans) && i < |es| && es[i].SyncStart?
    ensures ans[i] == Started <==> rs[i].connected && forall t :: !Live(rs[i], t, es[i].request.requestId)
    ensures rs[i + 1] == rs[i]
  {
    InvHolds(rs, es, ans, i);
    assert Next(rs[i], es[i], rs[i + 1], ans[i]);
    assert forall t :: t in Matching(rs[i].pending, es[i].request.requestId) <==> Live(rs[i], t, es[i].request.requestId);
  }

  predicate Answered(es: seq<Event>, ans: seq<Answer>, i: nat, t: Ticket)
    requires i < |es| && |ans| == |es|
  {
    es[i] == ReadTicket(t) && ans[i].Finished?
  }

  /** One outcome per ticket: between two outcomes under one identifier, that
      identifier was issued again. */
  lemma TicketAnsweredOnce(rs: seq<Registry>, es: seq<Event>, ans: seq<Answer>, i: nat, j: nat, t: Ticket) returns (k: nat)
    requires IsRun(rs, es, ans) && i < j < |es| && Answered(es, ans, i, t) && Answered(es, ans, j, t)
    ensures i < k < j && IssuedAt(rs, es, k, t)
  {
    assert Next(rs[i], es[i], rs[i + 1], ans[i]) && Next(rs[j], es[j], rs[j + 1], ans[j]);
    assert t !in rs[i + 1].pending;
    k := LiveWasIssued(rs, es, ans, j, t);
    assert forall m | k < m <= j :: t in rs[m].pending;
  }

  /** Every outcome belongs to the start its ticket was issued for: it names
      that request when unknown, and otherwise repeats what that start's own
      task sent; a rejection is always a certain one. */
  lemma OutcomeIsTheTasks(rs: seq<Registry>, es: seq<Event>, ans: seq<Answer>, i: nat, t: Ticket) returns (k: nat, m: nat)
    requires IsRun(rs, es, ans) && i < |es| && Answered(es, ans, i, t)
    ensures k < i && IssuedAt(rs, es, k, t) && (forall j | k < j <= i :: t in rs[j].pending)
    ensures ValidOutcome(ans[i].outcome)
    ensures ans[i].outcome.Unknown? ==> ans[i].outcome == UnknownOf(es[k].request)
    ensures !ans[i].outcome.Unknown? ==> k < m < i
    ensures ans[i].outcome.Rejected? ==>
              es[m] == TaskSends(t, Failed(ans[i].outcome.error)) && !Uncertain(ans[i].outcome.error)
    ensures ans[i].outcome.Accepted? ==> es[m] == TaskSends(t, Completed(ans[i].outcome.response))
  {
    InvHolds(rs, es, ans, i);
    assert Next(rs[i], es[i], rs[i + 1], ans[i]);
    k := LiveWasIssued(rs, es, ans, i, t);
    m := 0;
    var p := rs[i].pending[t];
    OutcomeIsHonest(p.request, if p.channel.Holds? then Some(p.channel.result) else None);
    if p.channel.Holds? {
      m := HeldWasSent(rs, es, ans, i, t);
      assert t in rs[m].pending && t !in rs[k].pending;
      assert es[k].Begin?;
    }
  }

  // ---- The code ----

  class StartRegistry {
    var connected: bool
    var limit: nat
    var pending: map<Ticket, Pending>

    ghost function State(): Registry
      reads this
    {
      Registry(connected, limit, pending)
    }

    constructor ()
      ensures State() == INIT
    {
      connected, limit, pending := false, Admission.DEFAULT_LIMITS.starts, map[];
    }

    /** The search through the registry, in whatever order it iterates. */
    method Find(requestId: string) returns (found: Option<Ticket>)
      ensures found.Some? ==> found.value in Matching(pending, requestId)
      ensures found.None? ==> Matching(pending, requestId) == {}
    {
      var rest := pending.Keys;
      while rest != {}
        invariant rest <= pending.Keys
        invariant forall t | t in pending && t !in rest :: pending[t].request.requestId != requestId
        decreases rest
      {
        var t :| t in rest;
        if pending[t].request.requestId == requestId {
          return Some(t);
        }
        rest := rest - {t};
      }
      found := None;
    }

    /** Draws identifiers until one is not in use. */
    method DrawTicket(drawn: seq<Ticket>) returns (ticket: Ticket)
      requires exists k | 0 <= k < |drawn| :: drawn[k] !in pending
      ensures ticket !in pending && ticket in drawn
    {
      var i := 0;
      while drawn[i] in pending
        invariant 0 <= i < |drawn| && exists k | i <= k < |drawn| :: drawn[k] !in pending
        decreases |drawn| - i
      {
        i := i + 1;
      }
      ticket := drawn[i];
    }

    method BeginStart(request: StartRequest, reserved: bool, drawn: seq<Ticket>) returns (a: Answer, ghost unused: Ticket)
      requires exists k | 0 <= k < |drawn| :: drawn[k] !in pending
      modifies this
      ensures Begins(old(State()), request, reserved, unused, State(), a)
    {
      unused := "";
      if !connected {
        return Refused(STATUS_INVALID_STATE), unused;
      }
      var found := Find(request.requestId);
      if found.Some? {
        if !SameStartRequest(pending[found.value].request, request) {
          return Refused(STATUS_PROTOCOL), unused;
        }
        return Issued(found.value), unused;
      }
      if |pending| >= limit {
        return Refused(STATUS_RESOURCE_EXHAUSTED), unused;
      }
      if !reserved {
        return Refused(STATUS_INTERNAL), unused;
      }
      var ticket := DrawTicket(drawn);
      pending := pending[ticket := Pending(request, Empty)];
      a, unused := Issued(ticket), ticket;
    }

    /** Finishes exactly a live ticket whose task has ended, once: the ticket is
        gone afterwards and no other one is touched. The outcome encodes, and is
        accepted or rejected only if the task sent just that. */
    method ReadStart(ticket: Ticket) returns (a: Answer)
      requires Inv(State())
      modifies this
      ensures (State(), a) == Read(old(State()), ticket)
      ensures Inv(State()) && connected == old(connected) && limit == old(limit)
      ensures a.Finished? <==> ticket in old(pending) && !old(pending)[ticket].channel.Empty?
      ensures a.Finished? ==> pending.Keys == old(pending).Keys - {ticket} && forall t | t in pending :: pending[t] == old(pending)[t]
      ensures a.Finished? ==>
                var p := old(pending)[ticket];
                && ValidOutcome(a.outcome)
                && (a.outcome.Accepted? ==> p.channel == Holds(Completed(a.outcome.response)))
                && (a.outcome.Rejected? ==> p.channel == Holds(Failed(a.outcome.error)) && !Uncertain(a.outcome.error))
                && (a.outcome.Unknown? ==> a.outcome == UnknownOf(p.request))
      ensures !a.Finished? ==> pending == old(pending) && a.Refused?
      ensures a == Refused(STATUS_NOT_READY) <==> ticket in old(pending) && old(pending)[ticket].channel.Empty?
    {
      if !connected {
        return Refused(STATUS_INVALID_STATE);
      }
      if ticket !in pending {
        return Refused(STATUS_PROTOCOL);
      }
      var p := pending[ticket];
      ReadKeeps(State(), ticket);
      OutcomeIsHonest(p.request, if p.channel.Holds? then Some(p.channel.result) else None);
      match p.channel {
        case Empty => a := Refused(STATUS_NOT_READY);
        case Holds(result) =>
          pending := Without(pending, ticket);
          a := Finished(OutcomeOf(p.request, Some(result)));
        case Hung =>
          pending := Without(pending, ticket);
          a := Finished(OutcomeOf(p.request, None));
      }
    }

    method CheckSyncStart(request: StartRequest) returns (a: Answer)
      ensures SyncStarts(State(), request, a)
    {
      var found := Find(request.requestId);
      if found.Some? {
        a := Refused(if SameStartRequest(pending[found.value].request, request) then STATUS_INVALID_STATE else STATUS_PROTOCOL);
      } else {
        a := if connected then Started else Refused(STATUS_INVALID_STATE);
      }
    }
  }
}
