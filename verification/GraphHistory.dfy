/** The runtime graph as its history makes it: when each operation succeeds, and
    what is true of the graph after any run of operations, told from the
    operations and their answers. */
module GraphHistory {
  import opened Common
  import Admission
  import StartTickets
  import ActivityLeases
  import WorkflowLeases
  import opened RuntimeGraph

  // ---- Answers ----

  predicate ValidConfig(c: ClientConfig) {
    && c.urlOk && c.identityOk
    && InRange(c.waits, MAX_CONFIGURABLE_PENDING_WAITS)
    && InRange(c.starts, MAX_CONFIGURABLE_PENDING_STARTS)
    && InRange(c.calls, MAX_CONFIGURABLE_IN_FLIGHT_CALLS)
  }

  predicate Retains(g: Graph, a: WorkflowLeases.Activation) {
    a.runId in g.activations && g.activations[a.runId] == a
  }

  /** What each operation needs to succeed. */
  predicate Succeeds(g: Graph, op: Op) {
    match op
    case Connect(config, handshake) => !g.client && ValidConfig(config) && handshake.None?
    case StartWorker(_, configOk, constructed, validated) =>
      g.client && !g.worker && !g.replay && configOk && constructed && validated
    case StartReplay(_, configOk, failed) => !g.worker && !g.replay && configOk && failed.None?
    case ShutdownWorker(drained, finalize) => g.worker ==> drained && finalize == Finalized(0)
    case FinalizeReplay(failed) => g.replay && failed.None?
    case DisposeReplay(failed) => g.replay ==> failed.None?
    case PollWorkflow(a, polled) => g.worker && polled.Ready? && a.runId !in g.activations
    case PollReplay(a, polled) => g.replay && polled.Ready? && a.runId !in g.activations
    case PollActivity(_, polled) => g.worker && polled.Ready?
    case CompleteWorkflow(runId, failed) => g.worker && runId in g.activations && failed.None?
    case CompleteReplay(runId, failed) => g.replay && runId in g.activations && failed.None?
    case RejectWorkflow(a, failed) => g.worker && Retains(g, a) && failed.None?
    case RejectReplay(a, failed) => g.replay && Retains(g, a) && failed.None?
    case CompleteActivity(_, failed) => g.worker && failed.None?
    case RejectActivity(d, failed) => ActivityLeases.IsRetained(g.documents, d) && (d.Start? ==> g.worker && failed.None?)
    case BeginStart(_, _) => g.client && |g.starts| < g.limits.starts
    case FinishStart(_) => g.client
    case WaitRun(request, reserved, result) => LetIn(g, request, reserved) && result.Observed?
    case StoreCall(_, _) => g.client
    case ForgetCalls(_) => true
    case Disconnect => !g.worker
  }

  lemma LimitsAreConfigured(c: ClientConfig)
    ensures LimitsFrom(c).Some? <==>
              InRange(c.waits, MAX_CONFIGURABLE_PENDING_WAITS) && InRange(c.starts, MAX_CONFIGURABLE_PENDING_STARTS)
              && InRange(c.calls, MAX_CONFIGURABLE_IN_FLIGHT_CALLS)
    ensures LimitsFrom(c).Some? ==> LimitsFrom(c).value == Configured(c)
  {
  }

  function Configured(c: ClientConfig): Limits {
    Admission.Limits(Or(c.waits, Admission.DEFAULT_LIMITS.waits), Or(c.starts, Admission.DEFAULT_LIMITS.starts),
                     Or(c.calls, Admission.DEFAULT_LIMITS.inFlight))
  }

  lemma LeaseAnswer(g: Graph, op: Op)
    requires Inv(g) && OnLeases(op)
    ensures Apply(g, op).1 == DONE <==> Succeeds(g, op)
  {
  }

  lemma OtherAnswer(g: Graph, op: Op)
    requires Inv(g) && !OnLeases(op)
    ensures Apply(g, op).1 == DONE <==> Succeeds(g, op)
  {
    if op.Connect? {
      LimitsAreConfigured(op.config);
    }
  }

  /** In every reachable graph an operation succeeds iff its needs are met. */
  lemma AnswersAreExact(gs: seq<Graph>, ops: seq<Op>, rs: seq<Result>, i: nat)
    requires IsRun(gs, ops, rs) && i < |ops|
    ensures rs[i] == DONE <==> Succeeds(gs[i], ops[i])
  {
    ReachableIsWellFormed(gs, ops, rs, i);
    assert Apply(gs[i], ops[i]) == (gs[i + 1], rs[i]);
    if OnLeases(ops[i]) {
      LeaseAnswer(gs[i], ops[i]);
    } else {
      OtherAnswer(gs[i], ops[i]);
    }
  }

  predicate Polls(op: Op) {
    op.PollWorkflow? || op.PollReplay? || op.PollActivity?
  }

  /** Whether the worker that an operation addresses is there. */
  predicate HasItsWorker(g: Graph, op: Op) {
    if op.PollReplay? || op.CompleteReplay? || op.RejectReplay? then g.replay else g.worker
  }

  /** What polls answer when they hand out nothing. */
  lemma PollsAreNamed(g: Graph, op: Op)
    requires Inv(g) && Polls(op)
    ensures !HasItsWorker(g, op) ==> Apply(g, op).1 == Refused(STATUS_INVALID_STATE)
    ensures HasItsWorker(g, op) && op.polled.NothingReady? ==> Apply(g, op).1 == Refused(STATUS_NOT_READY)
    ensures HasItsWorker(g, op) && op.polled.LaneFailed? ==> Apply(g, op).1 == Refused(STATUS_WORKER)
    ensures HasItsWorker(g, op) && op.polled == Unrepresentable(None) ==> Apply(g, op).1 == Refused(STATUS_NOT_READY)
    ensures HasItsWorker(g, op) && op.polled.Unrepresentable? && op.polled.refused.Some? ==> Apply(g, op).1 == op.polled.refused
    ensures HasItsWorker(g, op) && op.polled.Ready? && Apply(g, op).1 != DONE ==>
              Apply(g, op).1 == Refused(STATUS_INTERNAL) && !op.PollActivity?
  {
  }

  /** What completions and rejections answer when they are refused: the lease is
      unknown, its worker is not there, or Core refused. */
  lemma ReturnsAreNamed(g: Graph, op: Op)
    requires Inv(g) && OnLeases(op) && !Polls(op)
    ensures (op.CompleteWorkflow? || op.CompleteReplay?) && op.runId !in g.activations ==> Apply(g, op).1 == Refused(STATUS_PROTOCOL)
    ensures (op.CompleteWorkflow? || op.CompleteReplay?) && op.runId in g.activations && !HasItsWorker(g, op) ==>
              Apply(g, op).1 == Refused(STATUS_INVALID_STATE)
    ensures (op.RejectWorkflow? || op.RejectReplay?) && !Retains(g, op.activation) ==> Apply(g, op).1 == Refused(STATUS_PROTOCOL)
    ensures (op.RejectWorkflow? || op.RejectReplay?) && Retains(g, op.activation) && !HasItsWorker(g, op) ==>
              Apply(g, op).1 == Refused(STATUS_INVALID_STATE)
    ensures op.RejectActivity? && !ActivityLeases.IsRetained(g.documents, op.doc) ==> Apply(g, op).1 == Refused(STATUS_PROTOCOL)
    ensures op.CompleteActivity? && !g.worker ==> Apply(g, op).1 == Refused(STATUS_INVALID_STATE)
  {
  }

  /** What the other operations answer when they are refused. */
  lemma RefusalsAreNamed(g: Graph, op: Op)
    requires Inv(g) && !OnLeases(op)
    ensures op.Connect? && g.client ==> Apply(g, op).1 == Refused(STATUS_INVALID_STATE)
    ensures op.Connect? && !g.client && !ValidConfig(op.config) ==> Apply(g, op).1 == Refused(STATUS_CONFIGURATION)
    ensures op.Connect? && !g.client && ValidConfig(op.config) ==> Apply(g, op).1 == op.handshake
    ensures (op.StartWorker? || op.StartReplay?) && (g.worker || g.replay) ==> Apply(g, op).1 == Refused(STATUS_INVALID_STATE)
    ensures op.StartWorker? && !g.client ==> Apply(g, op).1 == Refused(STATUS_INVALID_STATE)
    ensures op.StartWorker? && g.client && !g.worker && !g.replay ==>
              (!op.configOk ==> Apply(g, op).1 == Refused(STATUS_CONFIGURATION))
              && (op.configOk && !(op.constructed && op.validated) ==> Apply(g, op).1 == Refused(STATUS_WORKER))
    ensures op.StartReplay? && !g.worker && !g.replay ==>
              Apply(g, op).1 == if op.configOk then op.failed else Refused(STATUS_CONFIGURATION)
    ensures op.FinalizeReplay? && !g.replay ==> Apply(g, op).1 == Refused(STATUS_INVALID_STATE)
    ensures (op.BeginStart? || op.FinishStart? || op.StoreCall?) && !g.client ==> Apply(g, op).1 == Refused(STATUS_INVALID_STATE)
    ensures op.BeginStart? && g.client && |g.starts| == g.limits.starts ==> Apply(g, op).1 == Refused(STATUS_RESOURCE_EXHAUSTED)
    ensures op.Disconnect? && g.worker ==> Apply(g, op).1 == Refused(STATUS_INVALID_STATE)
  {
    if op.Connect? {
      LimitsAreConfigured(op.config);
    }
  }

  // ---- Facts ----

  /** Something that is true of a graph or not. */
  datatype Fact =
    | HasClient
    | HasWorker
    | HasReplay
    | InNamespace(name: string)
    | HasLimits(limits: Limits)
    | Retained(activation: WorkflowLeases.Activation)
    | Starting(ticket: string, pending: StartTickets.Pending)
    | WaitingFor(request: string)
    | Holding(call: nat, scope: Admission.Scope)

  predicate Holds(g: Graph, f: Fact) {
    match f
    case HasClient => g.client
    case HasWorker => g.worker
    case HasReplay => g.replay
    case InNamespace(name) => g.namespace == Some(name)
    case HasLimits(limits) => g.limits == limits
    case Retained(a) => Retains(g, a)
    case Starting(t, p) => t in g.starts && g.starts[t] == p
    case WaitingFor(request) => request in g.waits
    case Holding(c, scope) => c in g.calls && g.calls[c] == scope
  }

  /** The wait was answered not ready. */
  predicate KeepsWaiting(op: Op, r: Result, request: string) {
    op.WaitRun? && op.request == request && op.result.StillPending? && r == Refused(STATUS_NOT_READY)
  }

  /** The answered operation makes the fact true. */
  predicate Sets(op: Op, r: Result, f: Fact) {
    match f
    case HasClient => op.Connect? && r == DONE
    case HasWorker => op.StartWorker? && r == DONE
    case HasReplay => op.StartReplay? && r == DONE
    case InNamespace(name) => (op.StartWorker? || op.StartReplay?) && r == DONE && op.namespace == name
    case HasLimits(limits) =>
      || (op.Connect? && r == DONE && limits == Configured(op.config))
      || (op.Disconnect? && r == DONE && limits == Admission.DEFAULT_LIMITS)
    case Retained(a) => (op.PollWorkflow? || op.PollReplay?) && r == DONE && op.activation == a
    case Starting(t, p) => op == BeginStart(t, p) && r == DONE
    case WaitingFor(request) => KeepsWaiting(op, r, request)
    case Holding(c, scope) => op == StoreCall(c, scope) && r == DONE
  }

  /** The worker, live or replay, is gone after the operation. */
  predicate EndsWorker(g: Graph, op: Op, r: Result) {
    || (op.ShutdownWorker? && g.worker && op.drained && !op.finalize.FinalizeRefused?)
    || ((op.FinalizeReplay? || op.DisposeReplay?) && g.replay && r == DONE)
  }

  /** The answered operation ends the fact, unless it makes it true. */
  predicate Clears(g: Graph, op: Op, r: Result, f: Fact) {
    match f
    case HasClient => op.Disconnect? && r == DONE
    case HasWorker => EndsWorker(g, op, r)
    case HasReplay => EndsWorker(g, op, r)
    case InNamespace(_) => EndsWorker(g, op, r)
    case HasLimits(_) => (op.Connect? || op.Disconnect?) && r == DONE
    case Retained(a) =>
      || EndsWorker(g, op, r)
      || ((op.CompleteWorkflow? || op.CompleteReplay?) && r == DONE && op.runId == a.runId)
      || ((op.RejectWorkflow? || op.RejectReplay?) && op.activation == a)
    case Starting(t, _) =>
      || ((op.FinishStart? || op.BeginStart?) && r == DONE && op.ticket == t)
      || (op.Disconnect? && r == DONE)
    case WaitingFor(request) =>
      || (op.WaitRun? && op.request == request && !op.result.StillPending?)
      || (op.Disconnect? && r == DONE)
    case Holding(c, _) =>
      || (op.StoreCall? && r == DONE && op.call == c)
      || (op.ForgetCalls? && c in op.calls)
      || (op.Disconnect? && r == DONE)
  }

  predicate Follows(g: Graph, op: Op, g': Graph, r: Result, f: Fact) {
    Holds(g', f) <==> Sets(op, r, f) || (Holds(g, f) && !Clears(g, op, r, f))
  }

  /** The operations that start or end a worker graph. */
  predicate OnWorker(op: Op) {
    op.StartWorker? || op.StartReplay? || op.ShutdownWorker? || op.FinalizeReplay? || op.DisposeReplay?
  }

  predicate OnClient(op: Op) {
    op.Connect? || op.Disconnect?
  }

  lemma LeasesLeaveTheRest(g: Graph, op: Op)
    requires OnLeases(op)
    ensures Apply(g, op).0 == g.(activations := Apply(g, op).0.activations, documents := Apply(g, op).0.documents)
  {
  }

  lemma WorkersLeaveTheRest(g: Graph, op: Op)
    requires OnWorker(op)
    ensures var g' := Apply(g, op).0;
            g'.client == g.client && g'.limits == g.limits && g'.starts == g.starts && g'.waits == g.waits && g'.calls == g.calls
  {
  }

  lemma ClientsLeaveWorkers(g: Graph, op: Op)
    requires OnClient(op)
    ensures SameWorker(g, Apply(g, op).0)
  {
  }

  lemma CallersLeaveBoth(g: Graph, op: Op)
    requires !OnLeases(op) && !OnWorker(op) && !OnClient(op)
    ensures var g' := Apply(g, op).0; g' == g.(starts := g'.starts, waits := g'.waits, calls := g'.calls)
  {
    if op.WaitRun? {
      WaitsLeaveTheRest(g, op.request, op.reserved, op.result);
    }
  }

  lemma WaitsLeaveTheRest(g: Graph, request: string, reserved: bool, result: WaitResult)
    ensures WaitOp(g, request, reserved, result).0 == g.(waits := WaitOp(g, request, reserved, result).0.waits)
  {
  }

  predicate SameWorker(g: Graph, g': Graph) {
    && g'.worker == g.worker && g'.replay == g.replay && g'.namespace == g.namespace
    && g'.activations == g.activations && g'.documents == g.documents
  }

  lemma CallersLeaveTheRest(g: Graph, op: Op)
    requires !OnLeases(op) && !OnWorker(op)
    ensures SameWorker(g, Apply(g, op).0)
    ensures !OnClient(op) ==> Apply(g, op).0.client == g.client && Apply(g, op).0.limits == g.limits
  {
    if OnClient(op) {
      ClientsLeaveWorkers(g, op);
    } else {
      CallersLeaveBoth(g, op);
    }
  }

  lemma ClientFollows(g: Graph, op: Op, f: Fact)
    requires Inv(g) && (f.HasClient? || f.HasLimits?)
    ensures Follows(g, op, Apply(g, op).0, Apply(g, op).1, f)
  {
    if OnLeases(op) {
      LeasesLeaveTheRest(g, op);
    } else if OnWorker(op) {
      WorkersLeaveTheRest(g, op);
    } else if !OnClient(op) {
      CallersLeaveTheRest(g, op);
    } else if op.Connect? {
      LimitsAreConfigured(op.config);
    }
  }

  lemma WorkerFollows(g: Graph, op: Op, f: Fact)
    requires Inv(g) && (f.HasWorker? || f.HasReplay? || f.InNamespace?)
    ensures Follows(g, op, Apply(g, op).0, Apply(g, op).1, f)
  {
    if OnLeases(op) {
      LeasesLeaveTheRest(g, op);
    } else if !OnWorker(op) {
      CallersLeaveTheRest(g, op);
    } else {
      OwnWorkerFollows(g, op, f);
    }
  }

  lemma OwnWorkerFollows(g: Graph, op: Op, f: Fact)
    requires Inv(g) && OnWorker(op) && (f.HasWorker? || f.HasReplay? || f.InNamespace?)
    ensures Follows(g, op, Apply(g, op).0, Apply(g, op).1, f)
  {
  }

  lemma LeaseFollows(g: Graph, op: Op, a: WorkflowLeases.Activation)
    requires Inv(g) && OnLeases(op)
    ensures Follows(g, op, Apply(g, op).0, Apply(g, op).1, Retained(a))
  {
    if op.PollWorkflow? || op.PollReplay? {
      PollFollows(g, op, if op.PollWorkflow? then g.worker else g.replay, op.activation, op.polled, a);
    } else if op.CompleteWorkflow? || op.CompleteReplay? {
      CompleteFollows(g, op, a);
    } else if op.RejectWorkflow? || op.RejectReplay? {
      RejectFollows(g, op, a);
    } else {
      assert Apply(g, op).0.activations == g.activations;
    }
  }

  lemma PollFollows(g: Graph, op: Op, running: bool, p: WorkflowLeases.Activation, polled: Polled, a: WorkflowLeases.Activation)
    requires op == PollWorkflow(p, polled) || op == PollReplay(p, polled)
    ensures Follows(g, op, PollOp(g, running, p, polled).0, PollOp(g, running, p, polled).1, Retained(a))
  {
  }

  lemma CompleteFollows(g: Graph, op: Op, a: WorkflowLeases.Activation)
    requires op.CompleteWorkflow? || op.CompleteReplay?
    ensures Follows(g, op, Apply(g, op).0, Apply(g, op).1, Retained(a))
  {
  }

  lemma RejectFollows(g: Graph, op: Op, a: WorkflowLeases.Activation)
    requires op.RejectWorkflow? || op.RejectReplay?
    ensures Follows(g, op, Apply(g, op).0, Apply(g, op).1, Retained(a))
  {
  }

  lemma ActivationFollows(g: Graph, op: Op, a: WorkflowLeases.Activation)
    requires Inv(g)
    ensures Follows(g, op, Apply(g, op).0, Apply(g, op).1, Retained(a))
  {
    if OnLeases(op) {
      LeaseFollows(g, op, a);
    } else if !OnWorker(op) {
      CallersLeaveTheRest(g, op);
    }
  }

  lemma StartingFollows(g: Graph, op: Op, t: string, p: StartTickets.Pending)
    requires !OnLeases(op) && !OnWorker(op)
    ensures Follows(g, op, Apply(g, op).0, Apply(g, op).1, Starting(t, p))
  {
    if op.WaitRun? {
      WaitsLeaveTheRest(g, op.request, op.reserved, op.result);
    }
  }

  lemma HoldingFollows(g: Graph, op: Op, c: nat, scope: Admission.Scope)
    requires !OnLeases(op) && !OnWorker(op)
    ensures Follows(g, op, Apply(g, op).0, Apply(g, op).1, Holding(c, scope))
  {
    if op.WaitRun? {
      WaitsLeaveTheRest(g, op.request, op.reserved, op.result);
    }
  }

  lemma StartFollows(g: Graph, op: Op, f: Fact)
    requires Inv(g) && (f.Starting? || f.Holding?)
    ensures Follows(g, op, Apply(g, op).0, Apply(g, op).1, f)
  {
    if OnLeases(op) {
      LeasesLeaveTheRest(g, op);
    } else if OnWorker(op) {
      WorkersLeaveTheRest(g, op);
    } else if f.Starting? {
      StartingFollows(g, op, f.ticket, f.pending);
    } else {
      HoldingFollows(g, op, f.call, f.scope);
    }
  }

  lemma WaitFollows(g: Graph, op: Op, f: Fact)
    requires Inv(g) && f.WaitingFor?
    ensures Follows(g, op, Apply(g, op).0, Apply(g, op).1, f)
  {
    if op.WaitRun? {
      WaitIsExact(g, op.request, op.reserved, op.result);
    } else if !op.Disconnect? {
      OthersLeaveWaits(g, op);
    }
  }

  lemma OthersLeaveWaits(g: Graph, op: Op)
    requires !op.WaitRun? && !op.Disconnect?
    ensures Apply(g, op).0.waits == g.waits
  {
  }

  lemma FactFollows(g: Graph, op: Op, f: Fact)
    requires Inv(g)
    ensures Follows(g, op, Apply(g, op).0, Apply(g, op).1, f)
  {
    match f
    case HasClient => ClientFollows(g, op, f);
    case HasLimits(_) => ClientFollows(g, op, f);
    case Retained(a) => ActivationFollows(g, op, a);
    case Starting(_, _) => StartFollows(g, op, f);
    case Holding(_, _) => StartFollows(g, op, f);
    case WaitingFor(_) => WaitFollows(g, op, f);
    case _ => WorkerFollows(g, op, f);
  }

  // ---- Runs ----

  /** The fact was true before step `k`, and no step from `k` on ended it. */
  predicate StandsFrom(gs: seq<Graph>, ops: seq<Op>, rs: seq<Result>, i: nat, f: Fact, k: nat)
    requires i <= |ops| == |rs| && |gs| == |ops| + 1
  {
    k <= i && forall m | k <= m < i :: !Clears(gs[m], ops[m], rs[m], f) || Sets(ops[m], rs[m], f)
  }

  /** The fact stands since the start of the run, or since step `k - 1`, which
      made it true. */
  predicate StandsSince(gs: seq<Graph>, ops: seq<Op>, rs: seq<Result>, i: nat, f: Fact, k: nat)
    requires i <= |ops| == |rs| && |gs| == |ops| + 1
  {
    StandsFrom(gs, ops, rs, i, f, k) && (if k == 0 then Holds(EMPTY, f) else Sets(ops[k - 1], rs[k - 1], f))
  }

  ghost predicate Stands(gs: seq<Graph>, ops: seq<Op>, rs: seq<Result>, i: nat, f: Fact)
    requires i <= |ops| == |rs| && |gs| == |ops| + 1
  {
    exists k: nat :: StandsSince(gs, ops, rs, i, f, k)
  }

  lemma StandsOneMore(gs: seq<Graph>, ops: seq<Op>, rs: seq<Result>, i: nat, f: Fact)
    requires 0 < i <= |ops| == |rs| && |gs| == |ops| + 1
    ensures Stands(gs, ops, rs, i, f) <==>
              Sets(ops[i - 1], rs[i - 1], f) || (Stands(gs, ops, rs, i - 1, f) && !Clears(gs[i - 1], ops[i - 1], rs[i - 1], f))
  {
    var h := i - 1;
    if Sets(ops[h], rs[h], f) {
      assert StandsSince(gs, ops, rs, i, f, i);
    } else {
      if Stands(gs, ops, rs, i, f) {
        var k: nat :| StandsSince(gs, ops, rs, i, f, k);
        assert StandsSince(gs, ops, rs, h, f, k);
      }
      if Stands(gs, ops, rs, h, f) && !Clears(gs[h], ops[h], rs[h], f) {
        var k: nat :| StandsSince(gs, ops, rs, h, f, k);
        assert StandsSince(gs, ops, rs, i, f, k);
      }
    }
  }

  /** In every run a fact is true of the graph iff an operation made it true, or
      the new graph did, and none ended it since. So a client is there exactly
      since a successful connect, a worker until a shutdown let it go, an
      activation until its completion was accepted or it was rejected, a start
      until it was finished, a wait while it was last answered not ready, a call
      until it was forgotten, and all of a client's until a disconnect. */
  lemma {:induction false} GraphIsItsHistory(gs: seq<Graph>, ops: seq<Op>, rs: seq<Result>, i: nat, f: Fact)
    requires IsRun(gs, ops, rs) && i <= |ops|
    ensures Holds(gs[i], f) <==> Stands(gs, ops, rs, i, f)
  {
    if i == 0 {
      assert StandsSince(gs, ops, rs, 0, f, 0) <==> Holds(EMPTY, f);
    } else {
      GraphIsItsHistory(gs, ops, rs, i - 1, f);
      ReachableIsWellFormed(gs, ops, rs, i - 1);
      assert Apply(gs[i - 1], ops[i - 1]) == (gs[i - 1 + 1], rs[i - 1]);
      FactFollows(gs[i - 1], ops[i - 1], f);
      StandsOneMore(gs, ops, rs, i, f);
    }
  }

  // ---- Documents ----

  /** How often a document is retained. */
  function Copies(docs: ActivityLeases.Docs, d: ActivityLeases.Doc): nat {
    multiset(ActivityLeases.DocsFor(docs, d.token))[d]
  }

  predicate ClearsDocuments(g: Graph, op: Op, r: Result, d: ActivityLeases.Doc) {
    EndsWorker(g, op, r) || (op.CompleteActivity? && r == DONE && op.token == d.token)
  }

  /** What an operation makes of the documents. */
  predicate DocumentsMove(g: Graph, op: Op, docs: ActivityLeases.Docs, r: Result) {
    if EndsWorker(g, op, r) then docs == map[]
    else if op.CompleteActivity? && r == DONE then docs == ActivityLeases.AllRetired(g.documents, op.token)
    else if op.PollActivity? && r == DONE then docs == ActivityLeases.Retained(g.documents, op.doc)
    else if op.RejectActivity? && ActivityLeases.IsRetained(g.documents, op.doc) then
      docs == ActivityLeases.OneRetired(g.documents, op.doc)
    else docs == g.documents
  }

  lemma LeasesMoveDocuments(g: Graph, op: Op)
    requires OnLeases(op)
    ensures DocumentsMove(g, op, Apply(g, op).0.documents, Apply(g, op).1)
  {
  }

  lemma WorkersMoveDocuments(g: Graph, op: Op)
    requires Inv(g) && OnWorker(op)
    ensures DocumentsMove(g, op, Apply(g, op).0.documents, Apply(g, op).1)
  {
  }

  lemma OperationsMoveDocuments(g: Graph, op: Op)
    requires Inv(g)
    ensures DocumentsMove(g, op, Apply(g, op).0.documents, Apply(g, op).1)
  {
    if OnLeases(op) {
      LeasesMoveDocuments(g, op);
    } else if OnWorker(op) {
      WorkersMoveDocuments(g, op);
    } else {
      CallersLeaveTheRest(g, op);
    }
  }

  /** A document is there once more after it was polled and once less after it
      was rejected; the completion of its activity and the end of the worker
      take all of its token. */
  lemma DocumentsAreCounted(g: Graph, op: Op, d: ActivityLeases.Doc, g': Graph, r: Result)
    requires Inv(g) && Apply(g, op) == (g', r)
    ensures Copies(g'.documents, d)
         == if ClearsDocuments(g, op, r, d) then 0
            else if op.PollActivity? && r == DONE && op.doc == d then Copies(g.documents, d) + 1
            else if op.RejectActivity? && op.doc == d && Copies(g.documents, d) > 0 then Copies(g.documents, d) - 1
            else Copies(g.documents, d)
  {
    OperationsMoveDocuments(g, op);
    MovedAreCounted(g, op, d, g'.documents, r);
  }

  lemma MovedAreCounted(g: Graph, op: Op, d: ActivityLeases.Doc, docs: ActivityLeases.Docs, r: Result)
    requires DocumentsMove(g, op, docs, r)
    ensures Copies(docs, d)
         == if ClearsDocuments(g, op, r, d) then 0
            else if op.PollActivity? && r == DONE && op.doc == d then Copies(g.documents, d) + 1
            else if op.RejectActivity? && op.doc == d && Copies(g.documents, d) > 0 then Copies(g.documents, d) - 1
            else Copies(g.documents, d)
  {
    if op.PollActivity? {
      PolledCopies(g.documents, op.doc, d);
    } else if op.RejectActivity? {
      RejectedCopies(g.documents, op.doc, d);
    }
  }

  lemma PolledCopies(docs: ActivityLeases.Docs, polled: ActivityLeases.Doc, d: ActivityLeases.Doc)
    ensures Copies(ActivityLeases.Retained(docs, polled), d) == Copies(docs, d) + One(polled == d)
  {
    var before := ActivityLeases.DocsFor(docs, polled.token);
    assert multiset(before + [polled]) == multiset(before) + multiset{polled};
  }

  lemma RejectedCopies(docs: ActivityLeases.Docs, rejected: ActivityLeases.Doc, d: ActivityLeases.Doc)
    ensures ActivityLeases.IsRetained(docs, rejected) <==> Copies(docs, rejected) > 0
    ensures ActivityLeases.IsRetained(docs, rejected) ==>
              Copies(ActivityLeases.OneRetired(docs, rejected), d) == Copies(docs, d) - One(rejected == d)
  {
    if ActivityLeases.IsRetained(docs, rejected) {
      RetiredDocs(docs, rejected, d.token);
      ActivityLeases.WithoutFirstRemovesOne(docs[rejected.token], rejected);
    }
  }

  lemma RetiredDocs(docs: ActivityLeases.Docs, d: ActivityLeases.Doc, t: ActivityLeases.Token)
    requires ActivityLeases.IsRetained(docs, d)
    ensures ActivityLeases.DocsFor(ActivityLeases.OneRetired(docs, d), t)
         == if t == d.token then ActivityLeases.WithoutFirst(docs[t], d) else ActivityLeases.DocsFor(docs, t)
  {
  }
}
