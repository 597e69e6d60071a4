/** Admission of submitted client calls: `Runtime::submit_client_call` and
    `Runtime::disconnect_client` of rust/core-bridge/src/abi.rs, run by one
    owner against the call protocol while every other thread and owner keeps
    taking protocol steps. */
module Admission {
  import opened Common
  import opened ClientCalls
  import CallProtocol

  type Net = CallProtocol.State

  /** `body` stands for every other field that takes part in request equality. */
  datatype StartRequest = StartRequest(requestId: string, workflowId: string, body: string, rpcTimeoutMs: Option<nat>)

  predicate SameStartRequest(a: StartRequest, b: StartRequest) {
    a.(rpcTimeoutMs := None) == b.(rpcTimeoutMs := None)
  }

  datatype Rpc = Start(start: StartRequest) | Wait(wait: string) | OtherRpc

  datatype Scope = StartScope(start: StartRequest) | WaitScope(wait: string) | Bounded | Released

  datatype Limits = Limits(waits: nat, starts: nat, inFlight: nat)

  const DEFAULT_LIMITS := Limits(64, 64, 4096)

  // ---- What the owner computes from its task map ----

  function StartIds(pending: map<nat, Scope>): set<string> {
    set c | c in pending && pending[c].StartScope? :: pending[c].start.requestId
  }

  function Waits(pending: map<nat, Scope>): set<string> {
    set c | c in pending && pending[c].WaitScope? :: pending[c].wait
  }

  function InFlight(pending: map<nat, Scope>): set<nat> {
    set c | c in pending && !pending[c].Released?
  }

  ghost predicate Conflicts(pending: map<nat, Scope>, request: StartRequest) {
    exists c <- pending ::
      pending[c].StartScope? && pending[c].start.requestId == request.requestId
      && !SameStartRequest(pending[c].start, request)
  }

  /** The capacity class of a request, or why it may not be admitted. */
  ghost function Verdict(pending: map<nat, Scope>, limits: Limits, rpc: Rpc): (r: (Option<Scope>, Option<nat>)) {
    match rpc
    case Start(request) =>
      if Conflicts(pending, request) then (None, Some(STATUS_PROTOCOL))
      else if |StartIds(pending)| >= limits.starts && request.requestId !in StartIds(pending)
      then (None, Some(STATUS_RESOURCE_EXHAUSTED))
      else (Some(StartScope(request)), None)
    case Wait(request) =>
      if |Waits(pending)| >= limits.waits && request !in Waits(pending)
      then (None, Some(STATUS_RESOURCE_EXHAUSTED))
      else (Some(WaitScope(request)), None)
    case OtherRpc => (Some(Bounded), None)
  }

  function Marked(pending: map<nat, Scope>, gone: set<nat>): map<nat, Scope> {
    map c | c in pending :: if c in gone then Released else pending[c]
  }

  function WithoutReleased(pending: map<nat, Scope>): map<nat, Scope> {
    map c | c in pending && !pending[c].Released? :: pending[c]
  }

  // ---- The system ----

  /** Where the owner is. `seen` is what the registry held for this owner when
      the submission consulted it. */
  datatype Phase =
    | Idle
    | Pruned(rpc: Rpc)
    | Consulted(rpc: Rpc, seen: set<nat>)
    | Scoped(scope: Scope, seen: set<nat>)
    | Reaped(scope: Scope, seen: set<nat>)
    | Admitted(scope: Scope)
    | Allocated(scope: Scope)
    | Inserted(scope: Scope, call: nat)
    | Spawned(scope: Scope, call: nat)
    | Unregistering
    | Joining(tasks: set<nat>)

  datatype Sys = Sys(
    net: Net,
    owner: nat,
    thread: nat,
    connected: bool,
    limits: Limits,
    pending: map<nat, Scope>,
    phase: Phase)

  datatype Event =
    | Env(e: CallProtocol.Event)
    | Connect(limits: Limits)
    | Prune(rpc: Rpc, finished: set<nat>)
    | Consult
    | CheckScope
    | Reap
    | CheckCeiling
    | ReserveFails
    | Fetch
    | InsertEntry
    | InsertFails
    | SpawnTask
    | Store
    | BeginDisconnect
    | CloseOne(call: nat)
    | Drain
    | Joined

  /** Steps of the protocol that are not this owner's: no registration for the
      owner, nothing done by its thread, no spawn or attach for its calls, no
      use of the guard that its submission still holds. */
  predicate Foreign(s: Sys, e: CallProtocol.Event) {
    match e
    case FetchId(t, owner) => t != s.thread && owner != s.owner
    case Spawn(call) => call !in s.net.owners || s.net.owners[call] != s.owner
    case Attach(owner, _) => owner != s.owner
    case Publish(call, _) => !(s.phase.Inserted? && s.phase.call == call)
    case TaskEnds(_) => true
    case _ => e.thread != s.thread
  }

  function OwnCalls(s: Sys): set<nat> {
    CallsOf(s.net.reg.calls, s.owner)
  }

  function Gone(s: Sys): set<nat> {
    set c | c in s.pending && !s.pending[c].Released? && !Owns(s.net.reg, s.owner, c)
  }

  function ReleasedCalls(s: Sys): set<nat> {
    set c | c in s.pending && s.pending[c].Released?
  }

  predicate OverCeiling(s: Sys) {
    |InFlight(s.pending)| >= s.limits.inFlight || RegisteredCount(s.net.reg, s.owner) >= s.limits.inFlight
  }

  /** The protocol step that a step of the system takes, if any. */
  function NetEvent(s: Sys, ev: Event): Option<CallProtocol.Event> {
    match ev
    case Env(e) => Some(e)
    case Fetch => Some(CallProtocol.FetchId(s.thread, s.owner))
    case InsertEntry => Some(CallProtocol.Insert(s.thread))
    case InsertFails => Some(CallProtocol.InsertFails(s.thread))
    case SpawnTask => if s.phase.Inserted? then Some(CallProtocol.Spawn(s.phase.call)) else None
    case Store => if s.phase.Spawned? then Some(CallProtocol.Attach(s.owner, s.phase.call)) else None
    case BeginDisconnect => Some(CallProtocol.ReleaseOwner(s.thread, s.owner))
    case CloseOne(call) => Some(CallProtocol.Close(s.thread, call))
    case Drain => Some(CallProtocol.FinishClosing(s.thread))
    case _ => None
  }

  predicate NetEnabled(s: Sys, ev: Event) {
    NetEvent(s, ev).Some? ==> CallProtocol.Enabled(s.net, NetEvent(s, ev).value)
  }

  predicate Enabled(s: Sys, ev: Event) {
    NetEnabled(s, ev)
    && match ev
       case Env(e) => Foreign(s, e)
       case Connect(_) => !s.connected && s.phase.Idle?
       case Prune(_, finished) => s.connected && s.phase.Idle? && finished !! s.net.running
       case Consult => s.phase.Pruned?
       case CheckScope => s.phase.Consulted?
       case Reap => s.phase.Scoped? && (|s.pending| < s.limits.inFlight || ReleasedCalls(s) !! s.net.running)  // joined
       case CheckCeiling => s.phase.Reaped?
       case ReserveFails => s.phase.Admitted?
       case Fetch => s.phase.Admitted?
       case InsertEntry => s.phase.Allocated?
       case InsertFails => s.phase.Allocated?
       case SpawnTask => s.phase.Inserted?
       case Store => s.phase.Spawned?
       case BeginDisconnect => s.connected && s.phase.Idle?
       case CloseOne(_) => s.phase.Unregistering?
       case Drain => s.phase.Unregistering?
       case Joined => s.phase.Joining? && s.phase.tasks !! s.net.running
  }

  // What each step does to each part of the state.

  /** Tasks the owner aborts besides those the protocol step aborts. */
  function AlsoAborted(s: Sys, ev: Event): set<nat> {
    match ev
    case Consult => Gone(s)
    case Drain => s.pending.Keys
    case _ => {}
  }

  function NetAfter(s: Sys, ev: Event): Net
    requires NetEnabled(s, ev)
  {
    var e := NetEvent(s, ev);
    var net := if e.Some? then CallProtocol.Step(s.net, e.value).value else s.net;
    net.(aborted := net.aborted + AlsoAborted(s, ev))
  }

  function PendingAfter(s: Sys, ev: Event): map<nat, Scope>
    requires Enabled(s, ev)
  {
    match ev
    case Prune(_, finished) => s.pending - finished
    case Consult => Marked(s.pending, Gone(s))
    case Reap => if |s.pending| < s.limits.inFlight then s.pending else WithoutReleased(s.pending)
    case Store => s.pending[s.phase.call := s.phase.scope]
    case Drain => map[]
    case _ => s.pending
  }

  function LimitsAfter(s: Sys, ev: Event): Limits {
    match ev
    case Connect(limits) => limits
    case Joined => DEFAULT_LIMITS
    case _ => s.limits
  }

  ghost function PhaseAfter(s: Sys, ev: Event): Phase
    requires Enabled(s, ev)
  {
    match ev
    case Env(_) => s.phase
    case Connect(_) => s.phase
    case Prune(rpc, _) => Pruned(rpc)
    case Consult => Consulted(s.phase.rpc, OwnCalls(s))
    case CheckScope =>
      var v := Verdict(s.pending, s.limits, s.phase.rpc).0;
      if v.Some? then Scoped(v.value, s.phase.seen) else Idle
    case Reap => Reaped(s.phase.scope, s.phase.seen)
    case CheckCeiling => if OverCeiling(s) then Idle else Admitted(s.phase.scope)
    case ReserveFails => Idle
    case Fetch => if s.net.nextCall >= MAX_CALL_ID then Idle else Allocated(s.phase.scope)
    case InsertEntry => Inserted(s.phase.scope, s.net.threads[s.thread].call)
    case InsertFails => Idle
    case SpawnTask => Spawned(s.phase.scope, s.phase.call)
    case Store => Idle
    case BeginDisconnect => Unregistering
    case CloseOne(_) => Unregistering
    case Drain => Joining(s.pending.Keys)
    case Joined => Idle
  }

  function ConnectedAfter(s: Sys, ev: Event): bool {
    ev.Connect? || (s.connected && !ev.Joined?)
  }

  /** The system after the step, its registry being `net`. */
  ghost function After(s: Sys, ev: Event, net: Net): Sys
    requires Enabled(s, ev)
  {
    Sys(net, s.owner, s.thread, ConnectedAfter(s, ev), LimitsAfter(s, ev), PendingAfter(s, ev), PhaseAfter(s, ev))
  }

  ghost function Step(s: Sys, ev: Event): Option<Sys> {
    if Enabled(s, ev) then Some(After(s, ev, NetAfter(s, ev))) else None
  }

  ghost predicate IsInit(s: Sys) {
    s.net == CallProtocol.Init && !s.connected && s.limits == DEFAULT_LIMITS && s.pending == map[] && s.phase.Idle?
  }

  // ---- Invariants ----

  /** The thread of the owner is inside exactly the operation its phase names,
      and no other thread registers calls for the owner. */
  ghost predicate ThreadsFit(s: Sys) {
    && (forall t <- s.net.threads ::
          s.net.threads[t].Registering? && s.net.threads[t].owner == s.owner ==> t == s.thread && s.phase.Allocated?)
    && (s.phase.Allocated? || s.phase.Unregistering? || s.thread !in s.net.threads)
    && (s.phase.Allocated? ==>
          s.thread in s.net.threads && s.net.threads[s.thread].Registering? && s.net.threads[s.thread].owner == s.owner)
  }

  /** At most `inFlight` registered calls and task handles, with room for one
      more while a call is being admitted. */
  ghost predicate WithinCeiling(s: Sys) {
    CallsWithin(s) && HandlesWithin(s) && ReapedIsClean(s)
  }

  ghost predicate CallsWithin(s: Sys) {
    |OwnCalls(s)| + One(s.phase.Admitted? || s.phase.Allocated?) <= s.limits.inFlight
  }

  ghost predicate HandlesWithin(s: Sys) {
    |s.pending| + One(s.phase.Admitted? || s.phase.Allocated? || s.phase.Inserted? || s.phase.Spawned?) <= s.limits.inFlight
  }

  ghost predicate ReapedIsClean(s: Sys) {
    s.phase.Reaped? ==> |s.pending| < s.limits.inFlight || InFlight(s.pending) == s.pending.Keys
  }

  /** Distinct pending starts and waits stay within their limits even with the
      call being admitted added, and starts with one request id are one request. */
  ghost predicate Fits(pending: map<nat, Scope>, limits: Limits, scope: Scope) {
    && |StartsWith(pending, scope)| <= limits.starts
    && |WaitsWith(pending, scope)| <= limits.waits
    && Agrees(pending, scope)
  }

  function StartsWith(pending: map<nat, Scope>, scope: Scope): set<string> {
    StartIds(pending) + (if scope.StartScope? then {scope.start.requestId} else {})
  }

  function WaitsWith(pending: map<nat, Scope>, scope: Scope): set<string> {
    Waits(pending) + (if scope.WaitScope? then {scope.wait} else {})
  }

  /** Every pending start with the same request id is the same request. */
  ghost predicate Agrees(pending: map<nat, Scope>, scope: Scope) {
    scope.StartScope? ==>
      forall c <- pending ::
        pending[c].StartScope? && pending[c].start.requestId == scope.start.requestId
        ==> SameStartRequest(pending[c].start, scope.start)
  }

  ghost predicate StartsAgree(pending: map<nat, Scope>) {
    forall c <- pending :: Agrees(pending, pending[c])
  }

  function ScopeOf(phase: Phase): Scope {
    match phase
    case Scoped(scope, _) => scope
    case Reaped(scope, _) => scope
    case Admitted(scope) => scope
    case Allocated(scope) => scope
    case Inserted(scope, _) => scope
    case Spawned(scope, _) => scope
    case _ => Bounded
  }

  ghost predicate WithinClassLimits(s: Sys) {
    Fits(s.pending, s.limits, ScopeOf(s.phase)) && StartsAgree(s.pending)
  }

  /** Whatever is not marked released was registered when the registry was
      consulted. */
  ghost predicate SeenIsFair(s: Sys) {
    s.phase.Consulted? || s.phase.Scoped? || s.phase.Reaped? ==>
      InFlight(s.pending) <= s.phase.seen && |s.phase.seen| <= s.limits.inFlight
  }

  /** The handles the owner holds for call `c`. */
  ghost predicate HasHandle(s: Sys, c: nat) {
    c in s.pending || (s.phase.Spawned? && s.phase.call == c) || (s.phase.Joining? && c in s.phase.tasks)
  }

  ghost predicate TasksHeld(s: Sys) {
    && (forall c <- s.net.running :: CallProtocol.IssuedTo(s.net, c, s.owner) ==> HasHandle(s, c))
    && (s.phase.Inserted? || s.phase.Spawned? ==> CallProtocol.IssuedTo(s.net, s.phase.call, s.owner))
  }

  /** A completion guard is inside an unfinished task, or with the submission
      that is about to spawn it. */
  ghost predicate GuardsHeld(s: Sys) {
    forall c <- s.net.guards | CallProtocol.IssuedTo(s.net, c, s.owner) :: GuardHeld(s.net, s.phase, c)
  }

  predicate GuardHeld(net: Net, phase: Phase, c: nat) {
    c in net.running || (phase.Inserted? && phase.call == c)
  }

  ghost predicate EmptyWhenDisconnected(s: Sys) {
    && (!s.connected ==> s.phase.Idle? && s.pending == map[] && s.limits == DEFAULT_LIMITS)
    && (!s.connected || s.phase.Unregistering? || s.phase.Joining? ==> OwnCalls(s) == {})
    && (s.phase.Joining? ==> s.pending == map[])
    && (!s.connected ==> forall c <- s.net.running :: !CallProtocol.IssuedTo(s.net, c, s.owner))
  }

  ghost predicate Inv(s: Sys) {
    CallProtocol.Inv(s.net) && OwnerInv(s)
  }

  ghost predicate OwnerInv(s: Sys) {
    WithinClassLimits(s) && HandlesInv(s)
  }

  ghost predicate HandlesInv(s: Sys) {
    ThreadsFit(s) && WithinCeiling(s) && SeenIsFair(s) && TasksHeld(s) && GuardsHeld(s) && EmptyWhenDisconnected(s)
  }
}
