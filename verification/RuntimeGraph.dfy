/** The lifecycle of one runtime graph (rust/core-bridge/src/abi.rs): client,
    worker, replay worker, what belongs to each, and every way an operation on
    them can fail. What Core, the network and the drains answer is part of the
    operation. */
module RuntimeGraph {
  import opened Common
  import Admission
  import StartTickets
  import ActivityLeases
  import WorkflowLeases

  type Limits = Admission.Limits

  type Documents = ActivityLeases.Docs

  type Activations = map<string, WorkflowLeases.Activation>

  datatype Graph = Graph(
    client: bool,
    limits: Limits,
    worker: bool,
    replay: bool,
    namespace: Option<string>,
    activations: Activations,
    documents: Documents,
    starts: map<string, StartTickets.Pending>,
    waits: set<string>,
    calls: map<nat, Admission.Scope>)

  const EMPTY := Graph(false, Admission.DEFAULT_LIMITS, false, false, None, map[], map[], map[], {}, map[])

  // ---- Limits ----

  const MAX_CONFIGURABLE_PENDING_WAITS := 4_096
  const MAX_CONFIGURABLE_PENDING_STARTS := 4_096
  const MAX_CONFIGURABLE_IN_FLIGHT_CALLS := 65_536

  function Limit(value: Option<nat>, maximum: nat, default: nat): Option<nat> {
    if value.None? then Some(default) else if 1 <= value.value <= maximum then value else None
  }

  predicate InRange(value: Option<nat>, maximum: nat) {
    value.Some? ==> 1 <= value.value <= maximum
  }

  function Or(value: Option<nat>, default: nat): nat {
    if value.Some? then value.value else default
  }

  datatype ClientConfig = ClientConfig(urlOk: bool, identityOk: bool, waits: Option<nat>, starts: Option<nat>, calls: Option<nat>)

  function LimitsFrom(c: ClientConfig): Option<Limits> {
    var waits := Limit(c.waits, MAX_CONFIGURABLE_PENDING_WAITS, Admission.DEFAULT_LIMITS.waits);
    var starts := Limit(c.starts, MAX_CONFIGURABLE_PENDING_STARTS, Admission.DEFAULT_LIMITS.starts);
    var calls := Limit(c.calls, MAX_CONFIGURABLE_IN_FLIGHT_CALLS, Admission.DEFAULT_LIMITS.inFlight);
    if waits.Some? && starts.Some? && calls.Some? then Some(Admission.Limits(waits.value, starts.value, calls.value)) else None
  }

  // ---- Operations ----

  datatype Finalize = FinalizeRefused(status: nat) | Finalized(abandoned: nat) | FinalizePanicked | FinalizeDetached

  /** A task that cannot be represented is rejected, which Core may refuse. */
  datatype Polled = NothingReady | LaneFailed | Unrepresentable(refused: Option<nat>) | Ready

  datatype WaitResult = StillPending | Observed | WaitFailed(status: nat)

  datatype Op =
    | Connect(config: ClientConfig, handshake: Option<nat>)
    | StartWorker(namespace: string, configOk: bool, constructed: bool, validated: bool)
    | StartReplay(namespace: string, configOk: bool, failed: Option<nat>)
    | ShutdownWorker(drained: bool, finalize: Finalize)
    | FinalizeReplay(failed: Option<nat>)
    | DisposeReplay(failed: Option<nat>)
    | PollWorkflow(activation: WorkflowLeases.Activation, polled: Polled)
    | PollReplay(activation: WorkflowLeases.Activation, polled: Polled)
    | PollActivity(doc: ActivityLeases.Doc, polled: Polled)
    | CompleteWorkflow(runId: string, failed: Option<nat>)
    | CompleteReplay(runId: string, failed: Option<nat>)
    | RejectWorkflow(activation: WorkflowLeases.Activation, failed: Option<nat>)
    | RejectReplay(activation: WorkflowLeases.Activation, failed: Option<nat>)
    | CompleteActivity(token: ActivityLeases.Token, failed: Option<nat>)
    | RejectActivity(doc: ActivityLeases.Doc, failed: Option<nat>)
    | BeginStart(ticket: string, pending: StartTickets.Pending)
    | FinishStart(ticket: string)
    | WaitRun(request: string, reserved: bool, result: WaitResult)
    | StoreCall(call: nat, scope: Admission.Scope)
    | ForgetCalls(calls: set<nat>)
    | Disconnect

  /** The status of a refused operation. */
  type Result = Option<nat>

  const DONE: Result := None

  function Refused(status: nat): Result {
    Some(status)
  }

  /** Everything a worker graph owns goes with it. */
  function WorkerGone(g: Graph): Graph {
    g.(worker := false, replay := false, namespace := None, activations := map[], documents := map[])
  }

  function ConnectOp(g: Graph, config: ClientConfig, handshake: Option<nat>): (Graph, Result) {
    if g.client then (g, Refused(STATUS_INVALID_STATE))
    else if !config.urlOk || !config.identityOk || LimitsFrom(config).None? then (g, Refused(STATUS_CONFIGURATION))
    else if handshake.Some? then (g, Refused(handshake.value))
    else (g.(limits := LimitsFrom(config).value, client := true), DONE)
  }

  function StartWorkerOp(g: Graph, namespace: string, configOk: bool, constructed: bool, validated: bool): (Graph, Result) {
    if g.worker || g.replay || !g.client then (g, Refused(STATUS_INVALID_STATE))
    else if !configOk then (g, Refused(STATUS_CONFIGURATION))
    else if !constructed || !validated then (g, Refused(STATUS_WORKER))
    else (g.(worker := true, namespace := Some(namespace)), DONE)
  }

  function StartReplayOp(g: Graph, namespace: string, configOk: bool, failed: Option<nat>): (Graph, Result) {
    if g.worker || g.replay then (g, Refused(STATUS_INVALID_STATE))
    else if !configOk then (g, Refused(STATUS_CONFIGURATION))
    else if failed.Some? then (g, failed)
    else (g.(replay := true, namespace := Some(namespace)), DONE)
  }

  /** The worker is kept only when the drain failed or finalization was refused;
      abandoned leases are reported although the worker is gone. */
  function ShutdownWorkerOp(g: Graph, drained: bool, finalize: Finalize): (Graph, Result) {
    if !g.worker then (g, DONE)
    else if !drained then (g, Refused(STATUS_WORKER))
    else
      match finalize
      case FinalizeRefused(status) => (g, Refused(status))
      case Finalized(abandoned) => (WorkerGone(g), if abandoned == 0 then DONE else Refused(STATUS_OUTSTANDING_TASKS))
      case FinalizePanicked => (WorkerGone(g), Refused(STATUS_WORKER))
      case FinalizeDetached => (WorkerGone(g), Refused(STATUS_WORKER))
  }

  function EndReplayOp(g: Graph, failed: Option<nat>, absent: Result): (Graph, Result) {
    if !g.replay then (g, absent)
    else if failed.Some? then (g, failed)
    else (WorkerGone(g), DONE)
  }

  function PollOp(g: Graph, running: bool, a: WorkflowLeases.Activation, polled: Polled): (Graph, Result) {
    if !running then (g, Refused(STATUS_INVALID_STATE))
    else
      match polled
      case NothingReady => (g, Refused(STATUS_NOT_READY))
      case LaneFailed => (g, Refused(STATUS_WORKER))
      case Unrepresentable(refused) => (g, if refused.Some? then refused else Refused(STATUS_NOT_READY))
      case Ready =>
        var kept := WorkflowLeases.Kept(g.activations, a);
        if kept.Some? then (g.(activations := kept.value), DONE) else (g, Refused(STATUS_INTERNAL))
  }

  function PollActivityOp(g: Graph, d: ActivityLeases.Doc, polled: Polled): (Graph, Result) {
    if !g.worker then (g, Refused(STATUS_INVALID_STATE))
    else
      match polled
      case NothingReady => (g, Refused(STATUS_NOT_READY))
      case LaneFailed => (g, Refused(STATUS_WORKER))
      case Unrepresentable(refused) => (g, if refused.Some? then refused else Refused(STATUS_NOT_READY))
      case Ready => (g.(documents := ActivityLeases.Retained(g.documents, d)), DONE)
  }

  function CompleteOp(g: Graph, running: bool, runId: string, failed: Option<nat>): (Graph, Result) {
    if runId !in g.activations then (g, Refused(STATUS_PROTOCOL))
    else if g.namespace.None? || !running then (g, Refused(STATUS_INVALID_STATE))
    else if failed.Some? then (g, failed)
    else (g.(activations := WorkflowLeases.Dropped(g.activations, runId)), DONE)
  }

  /** The retained activation goes even when the rejection fails, so that a
      failed one cannot block the run. */
  function RejectOp(g: Graph, running: bool, a: WorkflowLeases.Activation, failed: Option<nat>): (Graph, Result) {
    if !(a.runId in g.activations && g.activations[a.runId] == a) then (g, Refused(STATUS_PROTOCOL))
    else
      (g.(activations := WorkflowLeases.Dropped(g.activations, a.runId)),
       if !running then Refused(STATUS_INVALID_STATE) else failed)
  }

  function RejectActivityOp(g: Graph, d: ActivityLeases.Doc, failed: Option<nat>): (Graph, Result) {
    if !ActivityLeases.IsRetained(g.documents, d) then (g, Refused(STATUS_PROTOCOL))
    else
      (g.(documents := ActivityLeases.OneRetired(g.documents, d)),
       if d.Cancel? then DONE else if !g.worker then Refused(STATUS_INVALID_STATE) else failed)
  }

  function CompleteActivityOp(g: Graph, token: ActivityLeases.Token, failed: Option<nat>): (Graph, Result) {
    if !g.worker then (g, Refused(STATUS_INVALID_STATE))
    else if failed.Some? then (g, failed)
    else (g.(documents := ActivityLeases.AllRetired(g.documents, token)), DONE)
  }

  function WaitOp(g: Graph, request: string, reserved: bool, result: WaitResult): (Graph, Result) {
    if !g.client then (g, Refused(STATUS_INVALID_STATE))
    else if request !in g.waits && |g.waits| >= g.limits.waits then (g, Refused(STATUS_RESOURCE_EXHAUSTED))
    else if request !in g.waits && !reserved then (g, Refused(STATUS_INTERNAL))
    else
      match result
      case StillPending => (g.(waits := g.waits + {request}), Refused(STATUS_NOT_READY))
      case Observed => (g.(waits := g.waits - {request}), DONE)
      case WaitFailed(status) => (g.(waits := g.waits - {request}), Refused(status))
  }

  /** Waits, starts and calls are gone before the client is, and the limits
      return to the defaults; a live worker refuses the whole operation. */
  function DisconnectOp(g: Graph): (Graph, Result) {
    if g.worker then (g, Refused(STATUS_INVALID_STATE))
    else (g.(waits := {}, starts := map[], calls := map[], client := false, limits := Admission.DEFAULT_LIMITS), DONE)
  }

  function Apply(g: Graph, op: Op): (Graph, Result) {
    match op
    case Connect(config, handshake) => ConnectOp(g, config, handshake)
    case StartWorker(namespace, configOk, constructed, validated) => StartWorkerOp(g, namespace, configOk, constructed, validated)
    case StartReplay(namespace, configOk, failed) => StartReplayOp(g, namespace, configOk, failed)
    case ShutdownWorker(drained, finalize) => ShutdownWorkerOp(g, drained, finalize)
    case FinalizeReplay(failed) => EndReplayOp(g, failed, Refused(STATUS_INVALID_STATE))
    case DisposeReplay(failed) => EndReplayOp(g, failed, DONE)
    case PollWorkflow(a, polled) => PollOp(g, g.worker, a, polled)
    case PollReplay(a, polled) => PollOp(g, g.replay, a, polled)
    case PollActivity(d, polled) => PollActivityOp(g, d, polled)
    case CompleteWorkflow(runId, failed) => CompleteOp(g, g.worker, runId, failed)
    case CompleteReplay(runId, failed) => CompleteOp(g, g.replay, runId, failed)
    case RejectWorkflow(a, failed) => RejectOp(g, g.worker, a, failed)
    case RejectReplay(a, failed) => RejectOp(g, g.replay, a, failed)
    case CompleteActivity(token, failed) => CompleteActivityOp(g, token, failed)
    case RejectActivity(d, failed) => RejectActivityOp(g, d, failed)
    case BeginStart(ticket, pending) =>
      if !g.client then (g, Refused(STATUS_INVALID_STATE))
      else if |g.starts| >= g.limits.starts then (g, Refused(STATUS_RESOURCE_EXHAUSTED))
      else (g.(starts := g.starts[ticket := pending]), DONE)
    case FinishStart(ticket) =>
      if !g.client then (g, Refused(STATUS_INVALID_STATE)) else (g.(starts := StartTickets.Without(g.starts, ticket)), DONE)
    case WaitRun(request, reserved, result) => WaitOp(g, request, reserved, result)
    case StoreCall(call, scope) =>
      if g.client then (g.(calls := g.calls[call := scope]), DONE) else (g, Refused(STATUS_INVALID_STATE))
    case ForgetCalls(gone) => (g.(calls := map c | c in g.calls && c !in gone :: g.calls[c]), DONE)
    case Disconnect => DisconnectOp(g)
  }

  // ---- What every operation keeps ----

  predicate WorkerOk(g: Graph) {
    && !(g.worker && g.replay)
    && (g.worker ==> g.client)
    && (g.namespace.Some? <==> g.worker || g.replay)
    && (!g.worker && !g.replay ==> g.activations == map[] && g.documents == map[])
  }

  predicate ClientOk(g: Graph) {
    && |g.starts| <= g.limits.starts && |g.waits| <= g.limits.waits
    && (!g.client ==> g.starts == map[] && g.waits == {} && g.calls == map[] && g.limits == Admission.DEFAULT_LIMITS)
    && 1 <= g.limits.waits <= MAX_CONFIGURABLE_PENDING_WAITS
    && 1 <= g.limits.starts <= MAX_CONFIGURABLE_PENDING_STARTS
    && 1 <= g.limits.inFlight <= MAX_CONFIGURABLE_IN_FLIGHT_CALLS
  }

  predicate Inv(g: Graph) {
    WorkerOk(g) && ClientOk(g)
  }

  /** The operations on what a worker graph handed out. */
  predicate OnLeases(op: Op) {
    || op.PollWorkflow? || op.PollReplay? || op.PollActivity? || op.CompleteWorkflow? || op.CompleteReplay?
    || op.RejectWorkflow? || op.RejectReplay? || op.CompleteActivity? || op.RejectActivity?
  }

  lemma LeasesKept(g: Graph, op: Op)
    requires WorkerOk(g) && OnLeases(op)
    ensures WorkerOk(Apply(g, op).0)
  {
  }

  lemma LifecycleKept(g: Graph, op: Op)
    requires WorkerOk(g) && !OnLeases(op)
    ensures WorkerOk(Apply(g, op).0)
  {
  }

  lemma WorkerKept(g: Graph, op: Op)
    requires Inv(g)
    ensures WorkerOk(Apply(g, op).0)
  {
    if OnLeases(op) {
      LeasesKept(g, op);
    } else {
      LifecycleKept(g, op);
    }
  }

  lemma WaitKept(g: Graph, request: string, reserved: bool, result: WaitResult)
    requires ClientOk(g)
    ensures ClientOk(WaitOp(g, request, reserved, result).0)
  {
    AddSize(g.waits, request);
    RemoveSize(g.waits, request);
  }

  lemma StartsKept(g: Graph, op: Op)
    requires ClientOk(g) && (op.BeginStart? || op.FinishStart?)
    ensures ClientOk(Apply(g, op).0)
  {
    if op.BeginStart? {
      assert g.starts[op.ticket := op.pending].Keys == g.starts.Keys + {op.ticket};
      AddSize(g.starts.Keys, op.ticket);
    } else {
      SubsetSize(StartTickets.Without(g.starts, op.ticket).Keys, g.starts.Keys);
    }
  }

  lemma ClientKept(g: Graph, op: Op)
    requires Inv(g)
    ensures ClientOk(Apply(g, op).0)
  {
    if op.BeginStart? || op.FinishStart? {
      StartsKept(g, op);
    } else if op.WaitRun? {
      WaitKept(g, op.request, op.reserved, op.result);
    }
  }

  /** A refused operation leaves the graph as it was, with three exceptions: a
      shutdown that had to let its worker go, a wait, which is kept for its
      retry or retired with its error, and a rejection, which always retires
      the one document it names. */
  lemma RefusedChangesNothing(g: Graph, op: Op)
    requires Inv(g) && Apply(g, op).1.Some? && Apply(g, op).0 != g
    ensures op.ShutdownWorker? || op.WaitRun? || op.RejectWorkflow? || op.RejectReplay? || op.RejectActivity?
    ensures op.ShutdownWorker? ==>
              g.worker && op.drained && !op.finalize.FinalizeRefused? && Apply(g, op).0 == WorkerGone(g)
    ensures op.WaitRun? ==>
              Apply(g, op).0 == g.(waits := if op.result.StillPending? then g.waits + {op.request} else g.waits - {op.request})
    ensures op.RejectWorkflow? || op.RejectReplay? ==>
              Apply(g, op).0 == g.(activations := WorkflowLeases.Dropped(g.activations, op.activation.runId))
    ensures op.RejectActivity? ==> Apply(g, op).0 == g.(documents := ActivityLeases.OneRetired(g.documents, op.doc))
  {
  }

  predicate IsRun(gs: seq<Graph>, ops: seq<Op>, rs: seq<Result>) {
    |gs| == |ops| + 1 && |rs| == |ops| && gs[0] == EMPTY
    && forall i | 0 <= i < |ops| :: Apply(gs[i], ops[i]) == (gs[i + 1], rs[i])
  }

  /** Every reachable runtime graph is well formed. */
  lemma {:induction false} ReachableIsWellFormed(gs: seq<Graph>, ops: seq<Op>, rs: seq<Result>, i: nat)
    requires IsRun(gs, ops, rs) && i <= |ops|
    ensures WorkerOk(gs[i]) && ClientOk(gs[i])
  {
    if i > 0 {
      ReachableIsWellFormed(gs, ops, rs, i - 1);
      assert Apply(gs[i - 1], ops[i - 1]) == (gs[i - 1 + 1], rs[i - 1]);
      WorkerKept(gs[i - 1], ops[i - 1]);
      ClientKept(gs[i - 1], ops[i - 1]);
    }
  }

  /** What a worker retained never reaches the next one: when a worker graph is
      started, both lease maps are empty. */
  lemma NoLeaseIsInherited(gs: seq<Graph>, ops: seq<Op>, rs: seq<Result>, i: nat)
    requires IsRun(gs, ops, rs) && i < |ops| && rs[i] == DONE && (ops[i].StartWorker? || ops[i].StartReplay?)
    ensures gs[i + 1].activations == map[] && gs[i + 1].documents == map[]
    ensures gs[i + 1].namespace == Some(ops[i].namespace) && (ops[i].StartWorker? ==> gs[i + 1].client)
  {
    ReachableIsWellFormed(gs, ops, rs, i);
    assert Apply(gs[i], ops[i]) == (gs[i + 1], rs[i]);
  }

  // ---- Waits ----

  /** A wait for `request` gets past the checks. */
  predicate LetIn(g: Graph, request: string, reserved: bool) {
    g.client && (request in g.waits || (|g.waits| < g.limits.waits && reserved))
  }

  /** A wait that is let in holds a slot afterwards iff it is still pending,
      and does nothing else; one that is not changes nothing. */
  ghost predicate WaitSettled(g: Graph, g': Graph, request: string, reserved: bool, result: WaitResult, r: Result) {
    if !LetIn(g, request, reserved) then
      g' == g && r == Refused(if !g.client then STATUS_INVALID_STATE
                              else if |g.waits| == g.limits.waits then STATUS_RESOURCE_EXHAUSTED else STATUS_INTERNAL)
    else
      && g' == g.(waits := g'.waits)
      && (forall w | w != request :: w in g'.waits <==> w in g.waits)
      && (request in g'.waits <==> result.StillPending?)
      && (result.StillPending? ==> r == Refused(STATUS_NOT_READY))
      && (result.Observed? <==> r == DONE)
      && (result.WaitFailed? ==> r == Refused(result.status))
  }

  lemma WaitIsExact(g: Graph, request: string, reserved: bool, result: WaitResult)
    requires ClientOk(g)
    ensures var (g', r) := WaitOp(g, request, reserved, result);
            WaitSettled(g, g', request, reserved, result, r)
  {
  }

  // ---- The code ----

  class Runtime {
    var client: bool
    var limits: Limits
    var worker: bool
    var replay: bool
    var namespace: Option<string>
    var activations: Activations
    var documents: Documents
    var starts: map<string, StartTickets.Pending>
    var waits: set<string>
    var calls: map<nat, Admission.Scope>

    ghost function State(): Graph
      reads this
    {
      Graph(client, limits, worker, replay, namespace, activations, documents, starts, waits, calls)
    }

    constructor ()
      ensures State() == EMPTY && Inv(State())
    {
      client, limits, worker, replay, namespace := false, Admission.DEFAULT_LIMITS, false, false, None;
      activations, documents, starts, waits, calls := map[], map[], map[], {}, map[];
    }

    /** Succeeds exactly when there was no client, the whole configuration is
        valid and the handshake succeeds. The limits are then the configured
        ones or the defaults, and nothing is pending yet. */
    method ConnectClient(config: ClientConfig, handshake: Option<nat>) returns (r: Result)
      requires Inv(State())
      modifies this
      ensures (State(), r) == Apply(old(State()), Connect(config, handshake))
      ensures Inv(State()) && (r.Some? ==> State() == old(State()))
      ensures r == DONE <==>
                !old(client) && config.urlOk && config.identityOk && handshake.None?
                && InRange(config.waits, MAX_CONFIGURABLE_PENDING_WAITS)
                && InRange(config.starts, MAX_CONFIGURABLE_PENDING_STARTS)
                && InRange(config.calls, MAX_CONFIGURABLE_IN_FLIGHT_CALLS)
      ensures r == DONE ==>
                client && starts == map[] && waits == {} && calls == map[]
                && limits.waits == Or(config.waits, Admission.DEFAULT_LIMITS.waits)
                && limits.starts == Or(config.starts, Admission.DEFAULT_LIMITS.starts)
                && limits.inFlight == Or(config.calls, Admission.DEFAULT_LIMITS.inFlight)
      ensures worker == old(worker) && replay == old(replay) && namespace == old(namespace)
      ensures activations == old(activations) && documents == old(documents)
    {
      if client {
        return Refused(STATUS_INVALID_STATE);
      }
      if !config.urlOk || !config.identityOk {
        return Refused(STATUS_CONFIGURATION);
      }
      var limits := LimitsFrom(config);
      if limits.None? {
        return Refused(STATUS_CONFIGURATION);
      }
      if handshake.Some? {
        return Refused(handshake.value);
      }
      this.limits := limits.value;
      client := true;
      r := DONE;
    }

    /** Succeeds exactly over a client that runs no worker of either kind, and
        never over leases left by an earlier one. */
    method StartLiveWorker(ns: string, configOk: bool, constructed: bool, validated: bool) returns (r: Result)
      requires Inv(State())
      modifies this
      ensures (State(), r) == Apply(old(State()), StartWorker(ns, configOk, constructed, validated))
      ensures Inv(State()) && (r.Some? ==> State() == old(State()))
      ensures r == DONE <==> old(client && !worker && !replay) && configOk && constructed && validated
      ensures r == DONE ==> worker && !replay && client && namespace == Some(ns) && activations == map[] && documents == map[]
      ensures r == DONE ==> limits == old(limits) && starts == old(starts) && waits == old(waits) && calls == old(calls)
    {
      if worker || replay || !client {
        return Refused(STATUS_INVALID_STATE);
      }
      if !configOk {
        return Refused(STATUS_CONFIGURATION);
      }
      if !constructed || !validated {
        return Refused(STATUS_WORKER);
      }
      worker := true;
      namespace := Some(ns);
      r := DONE;
    }

    /** As for a live worker, but no client is needed and none is touched. */
    method StartReplayWorker(ns: string, configOk: bool, failed: Option<nat>) returns (r: Result)
      requires Inv(State())
      modifies this
      ensures (State(), r) == Apply(old(State()), StartReplay(ns, configOk, failed))
      ensures Inv(State()) && (r.Some? ==> State() == old(State()))
      ensures r == DONE <==> old(!worker && !replay) && configOk && failed.None?
      ensures r == DONE ==> replay && !worker && namespace == Some(ns) && activations == map[] && documents == map[]
      ensures client == old(client) && limits == old(limits)
      ensures starts == old(starts) && waits == old(waits) && calls == old(calls)
    {
      if worker || replay {
        return Refused(STATUS_INVALID_STATE);
      }
      if !configOk {
        return Refused(STATUS_CONFIGURATION);
      }
      if failed.Some? {
        return failed;
      }
      replay := true;
      namespace := Some(ns);
      r := DONE;
    }

    method Shutdown(drained: bool, finalize: Finalize) returns (r: Result)
      requires Inv(State())
      modifies this
      ensures (State(), r) == Apply(old(State()), ShutdownWorker(drained, finalize))
      ensures worker <==> old(worker) && (!drained || finalize.FinalizeRefused?)
      ensures r == DONE <==> !old(worker) || (drained && finalize == Finalized(0))
      ensures r == Refused(STATUS_OUTSTANDING_TASKS) <==>
                old(worker) && drained
                && ((finalize.Finalized? && finalize.abandoned > 0) || finalize == FinalizeRefused(STATUS_OUTSTANDING_TASKS))
      ensures worker && drained ==> r == Refused(finalize.status)
      ensures old(worker) && (!drained || finalize.FinalizePanicked? || finalize.FinalizeDetached?) ==> r == Refused(STATUS_WORKER)
      ensures Inv(State()) && (worker ==> State() == old(State()))
    {
      if !worker {
        return DONE;
      }
      if !drained {
        return Refused(STATUS_WORKER);
      }
      worker := false;
      match finalize {
        case FinalizeRefused(status) =>
          worker := true;
          return Refused(status);
        case Finalized(abandoned) => r := if abandoned == 0 then DONE else Refused(STATUS_OUTSTANDING_TASKS);
        case FinalizePanicked => r := Refused(STATUS_WORKER);
        case FinalizeDetached => r := Refused(STATUS_WORKER);
      }
      namespace := None;
      activations := map[];
      documents := map[];
    }

    method EndReplay(failed: Option<nat>, dispose: bool) returns (r: Result)
      requires Inv(State())
      modifies this
      ensures (State(), r) == Apply(old(State()), if dispose then DisposeReplay(failed) else FinalizeReplay(failed))
    {
      if !replay {
        return if dispose then DONE else Refused(STATUS_INVALID_STATE);
      }
      replay := false;
      if failed.Some? {
        replay := true;
        return failed;
      }
      namespace := None;
      activations := map[];
      documents := map[];
      r := DONE;
    }

    /** A wait is let in iff there is a client and it repeats a retained one or
        finds a free slot. It keeps its slot exactly while it is pending. */
    method WaitForRun(request: string, reserved: bool, result: WaitResult) returns (r: Result)
      requires ClientOk(State())
      modifies this`waits
      ensures (State(), r) == WaitOp(old(State()), request, reserved, result)
      ensures ClientOk(State()) && WaitSettled(old(State()), State(), request, reserved, result, r)
    {
      ghost var g := State();
      r := PollWait(request, reserved, result);
      WaitKept(g, request, reserved, result);
      WaitIsExact(g, request, reserved, result);
    }

    method PollWait(request: string, reserved: bool, result: WaitResult) returns (r: Result)
      modifies this`waits
      ensures (State(), r) == WaitOp(old(State()), request, reserved, result)
    {
      if !client {
        r := Refused(STATUS_INVALID_STATE);
      } else if request !in waits && |waits| >= limits.waits {
        r := Refused(STATUS_RESOURCE_EXHAUSTED);
      } else if request !in waits && !reserved {
        r := Refused(STATUS_INTERNAL);
      } else {
        if request !in waits {
          waits := waits + {request};
        }
        assert waits == old(waits) + {request};
        if result.StillPending? {
          r := Refused(STATUS_NOT_READY);
        } else {
          waits := waits - {request};
          assert waits == old(waits) - {request};
          r := if result.WaitFailed? then Refused(result.status) else DONE;
        }
      }
    }

    /** Refused exactly while a live worker uses the client. Afterwards the
        client side is as in a new graph and a replay worker is untouched. */
    method DisconnectClient() returns (r: Result)
      requires Inv(State())
      modifies this
      ensures (State(), r) == Apply(old(State()), Disconnect)
      ensures Inv(State()) && (r.Some? <==> old(worker)) && (r.Some? ==> State() == old(State()))
      ensures r == DONE ==> State() == EMPTY.(replay := old(replay), namespace := old(namespace),
                                              activations := old(activations), documents := old(documents))
    {
      if worker {
        return Refused(STATUS_INVALID_STATE);
      }
      waits := {};
      starts := map[];
      calls := map[];
      client := false;
      limits := Admission.DEFAULT_LIMITS;
      r := DONE;
    }
  }
}
