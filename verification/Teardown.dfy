/** Tasks, connections and the shared Core (rust/core-bridge/src/abi.rs).

    Every graph owns a client connection, a reference to one Core that other
    graphs may share, and the handles of the Tokio tasks it spawned. Each task
    owns a connection clone. The owner thread of a graph, its cleanup thread,
    the tasks, the threads that release calls and the shared handle take steps
    in any order. */
module Teardown {
  import opened Common

  type GraphId = nat

  type TaskId = nat

  /** Start tickets, submitted calls and heartbeat drivers. */
  datatype Kind = StartTask | CallTask | DriverTask

  /** A task runs, hands over its result, and ends. */
  datatype Progress = Running | Published | Stopped

  datatype Task = Task(graph: GraphId, kind: Kind, aborted: bool, progress: Progress)

  datatype Exit = Disconnect | Close(wait: bool)

  datatype Stage =
    | Idle
      /** Spawned, its handle not yet in the map. */
    | Placing(task: TaskId)
      /** A ticket or reaped calls being joined by the owner. */
    | Joining
      /** `disconnect_client` or `close`; the kinds still to abort. */
    | Draining(todo: seq<Kind>, exit: Exit)
      /** Consumed by `close`: the parts are in a cleanup message, delivered to
          the cleanup thread or handed back by a failed send. */
    | Cleaning
      /** `drop_runtime_graph` after its joins, then after its client. */
    | Disposing
    | ClientDropped
    | Gone

  /** `pending` is the three task maps; `joining` the list of handles taken out
      of them, held by the owner, then by the cleanup message. */
  datatype Graph = Graph(stage: Stage, client: bool, core: bool, pending: map<TaskId, Kind>, joining: set<TaskId>)

  datatype Handle = Absent | Open | Sent | Released

  /** `refs` is the strong count of the Core; `drops` how often it was dropped. */
  datatype State = State(handle: Handle, graphs: map<GraphId, Graph>, tasks: map<TaskId, Task>, refs: nat, drops: nat)

  datatype Event =
    | ReleaseHandle
    | HandleCleaned
    | Attach(g: GraphId)
    | Connect(g: GraphId)
    | Spawn(g: GraphId, t: TaskId, kind: Kind)
    | Insert(g: GraphId)
    | SpawnDriver(g: GraphId, parent: TaskId, t: TaskId)
    | FinishStart(g: GraphId, t: TaskId)
    | Prune(g: GraphId, t: TaskId)
    | Reap(g: GraphId, ids: set<TaskId>)
    | Joined(g: GraphId, t: TaskId)
    | EndJoin(g: GraphId)
    | BeginDisconnect(g: GraphId)
    | BeginClose(g: GraphId, wait: bool)
    | Drain(g: GraphId)
    | EndDisconnect(g: GraphId)
    | Send(g: GraphId)
    | EndTasks(g: GraphId)
    | DropClient(g: GraphId)
    | DropCore(g: GraphId)
    | CleanupPanics(g: GraphId)
    | Publish(t: TaskId)
    | Stop(t: TaskId)
    | Abort(t: TaskId)

  const ALL_KINDS := [StartTask, CallTask, DriverTask]

  const NEW_GRAPH := Graph(Idle, false, true, map[], {})

  /** A Core shared through a handle, or owned by one graph alone. */
  predicate Init(s: State) {
    s == State(Open, map[], map[], 1, 0) || s == State(Absent, map[0 := NEW_GRAPH], map[], 1, 0)
  }

  /** Dropping one reference; the last one drops the Core. */
  function DropReference(s: State): State {
    s.(refs := if s.refs == 0 then 0 else s.refs - 1, drops := if s.refs == 1 then s.drops + 1 else s.drops)
  }

  predicate Ready(t: Task) {
    t.aborted || !t.progress.Running?
  }

  function Aborted(tasks: map<TaskId, Task>, ids: set<TaskId>): map<TaskId, Task> {
    map t | t in tasks :: if t in ids then tasks[t].(aborted := true) else tasks[t]
  }

  function OfKind(pending: map<TaskId, Kind>, kind: Kind): set<TaskId> {
    set t | t in pending && pending[t] == kind
  }

  function Without(pending: map<TaskId, Kind>, ids: set<TaskId>): map<TaskId, Kind> {
    map t | t in pending && t !in ids :: pending[t]
  }

  /** What the heartbeat throttle still accepts: until it is shut down. */
  predicate ThrottleOpen(x: Graph) {
    x.stage.Idle? || x.stage.Placing? || x.stage.Joining? || (x.stage.Draining? && DriverTask in x.stage.todo)
  }

  /** The steps of one graph that spawn and drop nothing. */
  function Local(tasks: map<TaskId, Task>, x: Graph, e: Event): Option<Graph> {
    match e
    case Connect(_) => if x.stage.Idle? && !x.client then Some(x.(client := true)) else None
    case Insert(_) =>
      if x.stage.Placing? && x.stage.task in tasks then
        Some(x.(stage := Idle, pending := x.pending[x.stage.task := tasks[x.stage.task].kind], joining := {}))
      else None
    case FinishStart(_, t) =>
      if x.stage.Idle? && x.client && t in x.pending && x.pending[t].StartTask? && t in tasks && !tasks[t].progress.Running? then
        Some(x.(stage := Joining, pending := Without(x.pending, {t}), joining := {t}))
      else None
    case Prune(_, t) =>
      if x.stage.Idle? && x.client && t in x.pending && x.pending[t].CallTask? && t in tasks && tasks[t].progress.Stopped? then
        Some(x.(pending := Without(x.pending, {t})))
      else None
    case Reap(_, ids) =>
      // Marking a call released aborts its task.
      if x.stage.Idle? && x.client && ids <= OfKind(x.pending, CallTask) && forall t | t in ids :: t in tasks && tasks[t].aborted then
        Some(x.(stage := Joining, pending := Without(x.pending, ids), joining := ids))
      else None
    case Joined(_, t) =>
      if (x.stage.Joining? || x.stage.Cleaning? || (x.stage.Draining? && x.stage.exit != Close(false)))
         && t in x.joining && t in tasks && tasks[t].progress.Stopped?
      then Some(x.(joining := x.joining - {t}))
      else None
    case EndJoin(_) => if x.stage.Joining? && x.joining == {} then Some(x.(stage := Idle)) else None
    case BeginDisconnect(_) => if x.stage.Idle? then Some(x.(stage := Draining(ALL_KINDS, Disconnect))) else None
    case BeginClose(_, wait) => if x.stage.Idle? then Some(x.(stage := Draining(ALL_KINDS, Close(wait)))) else None
    case EndDisconnect(_) =>
      if x.stage == Draining([], Disconnect) && x.joining == {} then Some(x.(stage := Idle, client := false)) else None
    case Send(_) =>
      if x.stage == Draining([], Close(false)) || (x.stage == Draining([], Close(true)) && x.joining == {}) then
        Some(x.(stage := Cleaning))
      else None
    case EndTasks(_) => if x.stage.Cleaning? && x.joining == {} then Some(x.(stage := Disposing)) else None
    case DropClient(_) => if x.stage.Disposing? then Some(x.(stage := ClientDropped, client := false)) else None
    case _ => None
  }

  /** Steps of one graph that also create or abort tasks. */
  function Tasked(tasks: map<TaskId, Task>, x: Graph, e: Event): Option<(map<TaskId, Task>, Graph)> {
    match e
    case Spawn(g, t, kind) =>
      if x.stage.Idle? && x.client && !kind.DriverTask? && t !in tasks then
        Some((tasks[t := Task(g, kind, false, Running)], x.(stage := Placing(t), joining := {t})))
      else None
    case SpawnDriver(g, parent, t) =>
      if ThrottleOpen(x) && parent in tasks && tasks[parent].graph == g && tasks[parent].kind.CallTask?
         && !tasks[parent].progress.Stopped? && t !in tasks
      then Some((tasks[t := Task(g, DriverTask, false, Running)], x.(pending := x.pending[t := DriverTask])))
      else None
    case Drain(_) =>
      if x.stage.Draining? && x.stage.todo != [] && (x.joining == {} || x.stage.exit == Close(false)) then
        var taken := OfKind(x.pending, x.stage.todo[0]);
        Some((Aborted(tasks, taken),
              x.(stage := Draining(x.stage.todo[1..], x.stage.exit), pending := Without(x.pending, taken),
                 joining := x.joining + taken)))
      else None
    case _ => None
  }

  /** The last step of `drop_runtime_graph`, or of its unwinding: a panicking
      worker disposal still drops the client and the Core reference. */
  predicate DropsCore(x: Graph, e: Event) {
    match e
    case DropCore(_) => x.stage.ClientDropped?
    case CleanupPanics(_) => x.stage.Disposing?
    case _ => false
  }

  function Moved(p: Progress, e: Event): Progress {
    if e.Stop? then Stopped else if e.Publish? && p.Running? then Published else p
  }

  function Step(s: State, e: Event): Option<State> {
    match e
    case ReleaseHandle => if s.handle.Open? then Some(s.(handle := Sent)) else None
    case HandleCleaned => if s.handle.Sent? then Some(DropReference(s.(handle := Released))) else None
    case Attach(g) =>
      if s.handle.Open? && g !in s.graphs then Some(s.(graphs := s.graphs[g := NEW_GRAPH], refs := s.refs + 1)) else None
    case Publish(t) => if t in s.tasks then Some(s.(tasks := s.tasks[t := s.tasks[t].(progress := Moved(s.tasks[t].progress, e))])) else None
    case Stop(t) => if t in s.tasks then Some(s.(tasks := s.tasks[t := s.tasks[t].(progress := Stopped)])) else None
    case Abort(t) => if t in s.tasks then Some(s.(tasks := s.tasks[t := s.tasks[t].(aborted := true)])) else None
    case _ => GraphStep(s, e.g, e)
  }

  predicate OfGraph(e: Event) {
    !(e.ReleaseHandle? || e.HandleCleaned? || e.Attach? || e.Publish? || e.Stop? || e.Abort?)
  }

  function GraphStep(s: State, g: GraphId, e: Event): Option<State>
    requires OfGraph(e)
  {
    if g !in s.graphs then None
    else if DropsCore(s.graphs[g], e) then
      Some(DropReference(s.(graphs := s.graphs[g := s.graphs[g].(stage := Gone, client := false, core := false)])))
    else if Local(s.tasks, s.graphs[g], e).Some? then
      Some(s.(graphs := s.graphs[g := Local(s.tasks, s.graphs[g], e).value]))
    else
      var r := Tasked(s.tasks, s.graphs[g], e);
      if r.Some? then Some(s.(tasks := r.value.0, graphs := s.graphs[g := r.value.1])) else None
  }

  // ---- What every step keeps ----

  predicate StageOk(x: Graph) {
    (!x.client ==> x.pending.Keys == {} && x.joining == {})
    && match x.stage
       case Idle => x.core && x.joining == {}
       case Placing(t) => x.core && x.joining == {t} && x.client
       case Joining => x.core && x.client
       case Draining(todo, exit) => x.core && forall t | t in x.pending :: x.pending[t] in todo
       case Cleaning => x.core && x.pending.Keys == {}
       case Disposing => x.core && x.pending.Keys == {} && x.joining == {}
       case ClientDropped => x.core && !x.client
       case Gone => !x.core && !x.client
  }

  /** The handles a graph holds are handles of its own tasks. */
  predicate HandlesOk(tasks: map<TaskId, Task>, g: GraphId, x: Graph) {
    x.pending.Keys !! x.joining
    && (forall t | t in x.pending :: t in tasks && tasks[t].graph == g && tasks[t].kind == x.pending[t])
    && (forall t | t in x.joining :: t in tasks && tasks[t].graph == g)
  }

  /** A join never waits for a task that nobody told to end. */
  predicate JoinsEnd(tasks: map<TaskId, Task>, x: Graph) {
    x.stage.Placing? || forall t | t in x.joining :: t in tasks ==> Ready(tasks[t])
  }

  predicate GraphOk(tasks: map<TaskId, Task>, g: GraphId, x: Graph) {
    StageOk(x) && HandlesOk(tasks, g, x) && JoinsEnd(tasks, x)
  }

  predicate GraphsOk(s: State) {
    forall g | g in s.graphs :: GraphOk(s.tasks, g, s.graphs[g])
  }

  predicate Held(x: Graph, t: TaskId) {
    t in x.pending || t in x.joining
  }

  /** An unfinished task is owned: its graph holds its handle, the client whose
      connection it cloned and the Core it runs on. */
  predicate Owned(s: State, t: TaskId)
    requires t in s.tasks
  {
    var k := s.tasks[t];
    !k.progress.Stopped? ==>
      k.graph in s.graphs && Held(s.graphs[k.graph], t) && s.graphs[k.graph].client && s.graphs[k.graph].core
  }

  predicate TasksOwned(s: State) {
    forall t | t in s.tasks :: Owned(s, t)
  }

  function Holding(graphs: map<GraphId, Graph>): set<GraphId> {
    set g | g in graphs && graphs[g].core
  }

  function HandleCount(h: Handle): nat {
    if h.Open? || h.Sent? then 1 else 0
  }

  predicate CountOk(s: State) {
    s.refs == |Holding(s.graphs)| + HandleCount(s.handle) && s.drops == if s.refs == 0 then 1 else 0
  }

  predicate Inv(s: State) {
    GraphsOk(s) && TasksOwned(s) && CountOk(s)
  }

  // ---- Counting references ----

  lemma SameHolders(graphs: map<GraphId, Graph>, g: GraphId, x: Graph)
    requires g in graphs && graphs[g].core == x.core
    ensures Holding(graphs[g := x]) == Holding(graphs)
  {
  }

  lemma OneHolderLess(graphs: map<GraphId, Graph>, g: GraphId, x: Graph)
    requires g in graphs && graphs[g].core && !x.core
    ensures |Holding(graphs)| > 0 && |Holding(graphs[g := x])| == |Holding(graphs)| - 1
  {
    assert g in Holding(graphs);
    RemoveSize(Holding(graphs), g);
    assert Holding(graphs[g := x]) == Holding(graphs) - {g};
  }

  lemma OneHolderMore(graphs: map<GraphId, Graph>, g: GraphId, x: Graph)
    requires g !in graphs && x.core
    ensures |Holding(graphs[g := x])| == |Holding(graphs)| + 1
  {
    AddSize(Holding(graphs), g);
    assert Holding(graphs[g := x]) == Holding(graphs) + {g};
  }

  lemma LocalKeepsCore(tasks: map<TaskId, Task>, x: Graph, e: Event)
    requires Local(tasks, x, e).Some?
    ensures Local(tasks, x, e).value.core == x.core
  {
  }

  lemma TaskedKeepsCore(tasks: map<TaskId, Task>, x: Graph, e: Event)
    requires Tasked(tasks, x, e).Some?
    ensures Tasked(tasks, x, e).value.1.core == x.core
  {
  }

  /** A graph's step either is its final drop or leaves every reference alone. */
  lemma GraphStepCases(s: State, e: Event)
    requires OfGraph(e) && Step(s, e).Some? && !DropsCore(s.graphs[e.g], e)
    ensures var s' := Step(s, e).value;
            s'.refs == s.refs && s'.drops == s.drops && s'.handle == s.handle
            && s'.graphs == s.graphs[e.g := s'.graphs[e.g]] && s'.graphs[e.g].core == s.graphs[e.g].core
  {
    if Local(s.tasks, s.graphs[e.g], e).Some? {
      LocalKeepsCore(s.tasks, s.graphs[e.g], e);
    } else {
      TaskedKeepsCore(s.tasks, s.graphs[e.g], e);
    }
  }

  lemma FinalDropCounted(s: State, e: Event)
    requires OfGraph(e) && e.g in s.graphs && StageOk(s.graphs[e.g]) && CountOk(s) && DropsCore(s.graphs[e.g], e)
    ensures Step(s, e).Some? && CountOk(Step(s, e).value)
  {
    OneHolderLess(s.graphs, e.g, s.graphs[e.g].(stage := Gone, client := false, core := false));
  }

  lemma CountKept(s: State, e: Event)
    requires GraphsOk(s) && CountOk(s) && Step(s, e).Some?
    ensures CountOk(Step(s, e).value)
  {
    if e.Attach? {
      OneHolderMore(s.graphs, e.g, NEW_GRAPH);
    } else if OfGraph(e) {
      assert GraphOk(s.tasks, e.g, s.graphs[e.g]);
      if DropsCore(s.graphs[e.g], e) {
        FinalDropCounted(s, e);
      } else {
        GraphStepCases(s, e);
        SameHolders(s.graphs, e.g, Step(s, e).value.graphs[e.g]);
      }
    }
  }

  // ---- Graphs ----

  lemma StageKept(tasks: map<TaskId, Task>, g: GraphId, x: Graph, e: Event)
    requires GraphOk(tasks, g, x) && Local(tasks, x, e).Some?
    ensures StageOk(Local(tasks, x, e).value)
  {
  }

  lemma HandlesKept(tasks: map<TaskId, Task>, g: GraphId, x: Graph, e: Event)
    requires GraphOk(tasks, g, x) && Local(tasks, x, e).Some?
    ensures HandlesOk(tasks, g, Local(tasks, x, e).value) && JoinsEnd(tasks, Local(tasks, x, e).value)
  {
  }

  /** A change of tasks that keeps identity, kind and readiness. */
  predicate TasksGrow(tasks: map<TaskId, Task>, tasks': map<TaskId, Task>) {
    forall t | t in tasks ::
      t in tasks' && tasks'[t].graph == tasks[t].graph && tasks'[t].kind == tasks[t].kind
      && (Ready(tasks[t]) ==> Ready(tasks'[t])) && (tasks[t].progress.Stopped? ==> tasks'[t].progress.Stopped?)
  }

  lemma GraphOkGrows(tasks: map<TaskId, Task>, tasks': map<TaskId, Task>, g: GraphId, x: Graph)
    requires GraphOk(tasks, g, x) && TasksGrow(tasks, tasks')
    ensures GraphOk(tasks', g, x)
  {
  }

  lemma SpawnKept(tasks: map<TaskId, Task>, g: GraphId, x: Graph, e: Event)
    requires GraphOk(tasks, g, x) && x.client && OfGraph(e) && e.g == g && Tasked(tasks, x, e).Some? && !e.Drain?
    ensures GraphOk(Tasked(tasks, x, e).value.0, g, Tasked(tasks, x, e).value.1)
  {
  }

  lemma DrainKept(tasks: map<TaskId, Task>, g: GraphId, x: Graph)
    requires GraphOk(tasks, g, x) && Tasked(tasks, x, Drain(g)).Some?
    ensures GraphOk(Tasked(tasks, x, Drain(g)).value.0, g, Tasked(tasks, x, Drain(g)).value.1)
  {
  }

  lemma TaskedGrows(tasks: map<TaskId, Task>, x: Graph, e: Event)
    requires Tasked(tasks, x, e).Some?
    ensures TasksGrow(tasks, Tasked(tasks, x, e).value.0)
  {
  }

  lemma StepGrows(s: State, e: Event)
    requires Step(s, e).Some?
    ensures TasksGrow(s.tasks, Step(s, e).value.tasks)
  {
    if OfGraph(e) && Tasked(s.tasks, s.graphs[e.g], e).Some? {
      TaskedGrows(s.tasks, s.graphs[e.g], e);
    }
  }

  lemma OwnGraphKept(s: State, e: Event)
    requires GraphsOk(s) && TasksOwned(s) && OfGraph(e) && Step(s, e).Some?
    ensures GraphOk(Step(s, e).value.tasks, e.g, Step(s, e).value.graphs[e.g])
  {
    var x := s.graphs[e.g];
    assert GraphOk(s.tasks, e.g, x);
    if DropsCore(x, e) {
    } else if Local(s.tasks, x, e).Some? {
      StageKept(s.tasks, e.g, x, e);
      HandlesKept(s.tasks, e.g, x, e);
    } else if e.Drain? {
      DrainKept(s.tasks, e.g, x);
    } else {
      assert e.SpawnDriver? ==> Owned(s, e.parent);
      SpawnKept(s.tasks, e.g, x, e);
    }
  }

  lemma OtherGraphsSame(s: State, e: Event, g: GraphId)
    requires Step(s, e).Some? && g in Step(s, e).value.graphs && (OfGraph(e) ==> g != e.g) && (e.Attach? ==> g != e.g)
    ensures g in s.graphs && Step(s, e).value.graphs[g] == s.graphs[g]
  {
  }

  lemma GraphsKept(s: State, e: Event)
    requires GraphsOk(s) && TasksOwned(s) && Step(s, e).Some?
    ensures GraphsOk(Step(s, e).value)
  {
    var s' := Step(s, e).value;
    StepGrows(s, e);
    forall g | g in s'.graphs ensures GraphOk(s'.tasks, g, s'.graphs[g]) {
      if OfGraph(e) && e.g == g {
        OwnGraphKept(s, e);
      } else if !(e.Attach? && e.g == g) {
        OtherGraphsSame(s, e, g);
        GraphOkGrows(s.tasks, s'.tasks, g, s.graphs[g]);
      }
    }
  }

  // ---- Tasks ----

  lemma LocalLosesOnlyStopped(tasks: map<TaskId, Task>, x: Graph, e: Event, t: TaskId)
    requires StageOk(x) && Local(tasks, x, e).Some? && t in tasks && !tasks[t].progress.Stopped? && Held(x, t) && x.client
    ensures Held(Local(tasks, x, e).value, t) && Local(tasks, x, e).value.client
  {
  }

  lemma TaskedLosesNone(tasks: map<TaskId, Task>, x: Graph, e: Event, t: TaskId)
    requires StageOk(x) && Tasked(tasks, x, e).Some? && Held(x, t) && x.client
    ensures Held(Tasked(tasks, x, e).value.1, t) && Tasked(tasks, x, e).value.1.client && Tasked(tasks, x, e).value.1.core == x.core
  {
  }

  lemma NewTaskOwned(s: State, e: Event, t: TaskId)
    requires GraphsOk(s) && TasksOwned(s) && Step(s, e).Some? && t in Step(s, e).value.tasks && t !in s.tasks
    ensures Owned(Step(s, e).value, t)
  {
    assert e.Spawn? || e.SpawnDriver?;
    assert GraphOk(s.tasks, e.g, s.graphs[e.g]);
    if e.SpawnDriver? {
      assert Owned(s, e.parent);
    }
  }

  lemma OwnGraphHolds(s: State, e: Event, t: TaskId)
    requires OfGraph(e) && Step(s, e).Some? && t in s.tasks && !s.tasks[t].progress.Stopped?
    requires StageOk(s.graphs[e.g]) && Held(s.graphs[e.g], t) && s.graphs[e.g].client && s.graphs[e.g].core
    ensures var x := Step(s, e).value.graphs[e.g]; Held(x, t) && x.client && x.core
  {
    var x := s.graphs[e.g];
    assert !DropsCore(x, e);
    if Local(s.tasks, x, e).Some? {
      LocalLosesOnlyStopped(s.tasks, x, e, t);
      LocalKeepsCore(s.tasks, x, e);
    } else {
      TaskedLosesNone(s.tasks, x, e, t);
    }
  }

  lemma GraphsStay(s: State, e: Event, g: GraphId)
    requires Step(s, e).Some? && g in s.graphs
    ensures g in Step(s, e).value.graphs
  {
  }

  lemma OldTaskOwned(s: State, e: Event, t: TaskId)
    requires GraphsOk(s) && Step(s, e).Some? && t in s.tasks && Owned(s, t) && t in Step(s, e).value.tasks
    ensures Owned(Step(s, e).value, t)
  {
    var s' := Step(s, e).value;
    StepGrows(s, e);
    if !s'.tasks[t].progress.Stopped? {
      var g := s.tasks[t].graph;
      assert GraphOk(s.tasks, g, s.graphs[g]);
      GraphsStay(s, e, g);
      if OfGraph(e) && e.g == g {
        OwnGraphHolds(s, e, t);
      } else {
        OtherGraphsSame(s, e, g);
      }
    }
  }

  lemma TasksKept(s: State, e: Event)
    requires GraphsOk(s) && TasksOwned(s) && Step(s, e).Some?
    ensures TasksOwned(Step(s, e).value)
  {
    var s' := Step(s, e).value;
    forall t | t in s'.tasks ensures Owned(s', t) {
      if t in s.tasks {
        OldTaskOwned(s, e, t);
      } else {
        NewTaskOwned(s, e, t);
      }
    }
  }

  lemma StepKeepsInv(s: State, e: Event)
    requires Inv(s) && Step(s, e).Some?
    ensures Inv(Step(s, e).value)
  {
    GraphsKept(s, e);
    TasksKept(s, e);
    CountKept(s, e);
  }

  // ---- Runs ----

  predicate IsRun(ss: seq<State>, es: seq<Event>) {
    |ss| == |es| + 1 && Init(ss[0]) && forall i | 0 <= i < |es| :: Step(ss[i], es[i]) == Some(ss[i + 1])
  }

  lemma {:induction false} InvHolds(ss: seq<State>, es: seq<Event>, i: nat)
    requires IsRun(ss, es) && i < |ss|
    ensures Inv(ss[i])
  {
    if i > 0 {
      InvHolds(ss, es, i - 1);
      assert Step(ss[i - 1], es[i - 1]) == Some(ss[i - 1 + 1]);
      StepKeepsInv(ss[i - 1], es[i - 1]);
    } else {
      InitInv(ss[0]);
    }
  }

  lemma InitInv(s: State)
    requires Init(s)
    ensures Inv(s)
  {
    if s.handle.Open? {
      assert Holding(s.graphs) == {};
    } else {
      assert Holding(s.graphs) == {0};
    }
  }

  /** No task is detached: while it is unfinished, exactly one list of handles
      of exactly one graph holds it, and that graph keeps its client and its
      Core reference. Whatever is being joined will end. */
  lemma NoTaskIsDetached(ss: seq<State>, es: seq<Event>, i: nat, t: TaskId)
    requires IsRun(ss, es) && i < |ss| && t in ss[i].tasks && !ss[i].tasks[t].progress.Stopped?
    ensures exists g | g in ss[i].graphs ::
              && ss[i].graphs[g].client && ss[i].graphs[g].core
              && (t in ss[i].graphs[g].pending <==> t !in ss[i].graphs[g].joining)
              && (t in ss[i].graphs[g].joining && !ss[i].graphs[g].stage.Placing? ==> Ready(ss[i].tasks[t]))
              && (forall h | h in ss[i].graphs && h != g :: !Held(ss[i].graphs[h], t))
  {
    var s := ss[i];
    InvHolds(ss, es, i);
    assert Owned(s, t);
    var g := s.tasks[t].graph;
    assert GraphOk(s.tasks, g, s.graphs[g]);
    forall h | h in s.graphs && h != g ensures !Held(s.graphs[h], t) {
      assert GraphOk(s.tasks, h, s.graphs[h]);
    }
  }

  predicate DropsConnection(e: Event, g: GraphId) {
    OfGraph(e) && e.g == g && (e.EndDisconnect? || e.DropClient? || e.DropCore? || e.CleanupPanics?)
  }

  /** On disconnect, waiting close, GC close and the failed send alike, every
      task of a graph has ended when the graph drops its client or its Core
      reference, and no handle is left behind. */
  lemma TasksEndFirst(ss: seq<State>, es: seq<Event>, i: nat, g: GraphId, t: TaskId)
    requires IsRun(ss, es) && i < |es| && DropsConnection(es[i], g)
    requires t in ss[i].tasks && ss[i].tasks[t].graph == g
    ensures ss[i].tasks[t].progress.Stopped?
    ensures g in ss[i].graphs && !Held(ss[i].graphs[g], t)
  {
    InvHolds(ss, es, i);
    assert Step(ss[i], es[i]) == Some(ss[i + 1]);
    assert Owned(ss[i], t);
    assert GraphOk(ss[i].tasks, g, ss[i].graphs[g]);
  }

  /** A waiting close has joined every task before it hands its graph to the
      cleanup thread; the finalizer's close hands over the handles. */
  lemma WaitingCloseJoins(ss: seq<State>, es: seq<Event>, i: nat, g: GraphId, t: TaskId)
    requires IsRun(ss, es) && i < |es| && es[i] == Send(g) && t in ss[i].tasks && ss[i].tasks[t].graph == g
    ensures g in ss[i].graphs && ss[i].graphs[g].stage.Draining? && ss[i].graphs[g].stage.exit.Close?
    ensures ss[i].graphs[g].stage.exit.wait ==> ss[i].tasks[t].progress.Stopped?
    ensures !ss[i].tasks[t].progress.Stopped? ==> t in ss[i + 1].graphs[g].joining && Ready(ss[i].tasks[t])
  {
    InvHolds(ss, es, i);
    assert Step(ss[i], es[i]) == Some(ss[i + 1]);
    assert Owned(ss[i], t);
    assert GraphOk(ss[i].tasks, g, ss[i].graphs[g]);
  }

  /** A task can hand over its result, be aborted and end at any time, and none
      of that is undone. */
  lemma TaskCan(s: State, t: TaskId)
    requires t in s.tasks
    ensures Step(s, Publish(t)).Some? && Step(s, Stop(t)).Some? && Step(s, Abort(t)).Some?
    ensures var k := Step(s, Publish(t)).value.tasks[t]; k == s.tasks[t].(progress := k.progress) && !k.progress.Running?
                                                         && (k.progress.Stopped? <==> s.tasks[t].progress.Stopped?)
    ensures Step(s, Stop(t)).value.tasks[t] == s.tasks[t].(progress := Stopped)
    ensures Step(s, Abort(t)).value.tasks[t] == s.tasks[t].(aborted := true)
  {
  }

  predicate HasClient(s: State, g: GraphId) {
    g in s.graphs && s.graphs[g].client
  }

  lemma ClientStep(s: State, e: Event, g: GraphId)
    requires Step(s, e).Some?
    ensures HasClient(Step(s, e).value, g) <==> e == Connect(g) || (HasClient(s, g) && !DropsConnection(e, g))
  {
    if OfGraph(e) && e.g == g {
      OwnClientStep(s, e);
    } else {
      if g in s.graphs {
        GraphsStay(s, e, g);
      }
      if g in Step(s, e).value.graphs && e != Attach(g) {
        OtherGraphsSame(s, e, g);
      }
    }
  }

  lemma OwnClientStep(s: State, e: Event)
    requires OfGraph(e) && Step(s, e).Some?
    ensures e.g in s.graphs && e.g in Step(s, e).value.graphs
    ensures Step(s, e).value.graphs[e.g].client <==> e.Connect? || (s.graphs[e.g].client && !DropsConnection(e, e.g))
  {
  }

  /** Step `k` connected the graph, and nothing dropped the connection since. */
  predicate ConnectedSince(es: seq<Event>, i: nat, g: GraphId, k: nat)
    requires i <= |es|
  {
    k < i && es[k] == Connect(g) && forall m | k < m < i :: !DropsConnection(es[m], g)
  }

  ghost predicate Connected(es: seq<Event>, i: nat, g: GraphId)
    requires i <= |es|
  {
    exists k: nat :: ConnectedSince(es, i, g, k)
  }

  /** A graph has a client exactly while it is connected: a finished disconnect
      and a cleanup, panicking or not, leave none. */
  lemma {:induction false} ClientWhileConnected(ss: seq<State>, es: seq<Event>, i: nat, g: GraphId)
    requires IsRun(ss, es) && i <= |es|
    ensures HasClient(ss[i], g) <==> Connected(es, i, g)
  {
    if i > 0 {
      var h := i - 1;
      ClientWhileConnected(ss, es, h, g);
      assert Step(ss[h], es[h]) == Some(ss[h + 1]);
      ClientStep(ss[h], es[h], g);
      ConnectedOneMore(es, i, g);
    }
  }

  lemma ConnectedOneMore(es: seq<Event>, i: nat, g: GraphId)
    requires 0 < i <= |es|
    ensures Connected(es, i, g) <==> es[i - 1] == Connect(g) || (Connected(es, i - 1, g) && !DropsConnection(es[i - 1], g))
  {
    var h := i - 1;
    if Connected(es, i, g) {
      var k: nat :| ConnectedSince(es, i, g, k);
      assert k < h ==> ConnectedSince(es, h, g, k);
    }
    if es[h] == Connect(g) {
      assert ConnectedSince(es, i, g, h);
    } else if Connected(es, h, g) {
      var k: nat :| ConnectedSince(es, h, g, k);
      assert DropsConnection(es[h], g) || ConnectedSince(es, i, g, k);
    }
  }

  /** The steps that take a graph on through what it is doing. */
  predicate GoesOn(e: Event) {
    || e.Insert? || e.Joined? || e.EndJoin? || e.Drain? || e.EndDisconnect? || e.Send? || e.EndTasks?
    || e.DropClient? || e.DropCore?
  }

  /** No exit is stuck: a graph in the middle of anything can take its next
      step, or waits for a task that was told to end or has handed over its
      result. */
  lemma NoExitIsStuck(ss: seq<State>, es: seq<Event>, i: nat, g: GraphId) returns (e: Event)
    requires IsRun(ss, es) && i < |ss| && g in ss[i].graphs
    requires !ss[i].graphs[g].stage.Idle? && !ss[i].graphs[g].stage.Gone?
    ensures || (GoesOn(e) && e.g == g && Step(ss[i], e).Some?)
            || (e.Stop? && e.t in ss[i].graphs[g].joining && e.t in ss[i].tasks
                && !ss[i].tasks[e.t].progress.Stopped? && Ready(ss[i].tasks[e.t]))
  {
    InvHolds(ss, es, i);
    assert GraphOk(ss[i].tasks, g, ss[i].graphs[g]);
    e := NextStep(ss[i], g, ss[i].graphs[g]);
  }

  lemma NextStep(s: State, g: GraphId, x: Graph) returns (e: Event)
    requires g in s.graphs && s.graphs[g] == x && GraphOk(s.tasks, g, x) && !x.stage.Idle? && !x.stage.Gone?
    ensures || (GoesOn(e) && e.g == g && Step(s, e).Some?)
            || (e.Stop? && e.t in x.joining && e.t in s.tasks && !s.tasks[e.t].progress.Stopped? && Ready(s.tasks[e.t]))
  {
    var waits := x.joining != {} && (x.stage.Joining? || x.stage.Cleaning? || (x.stage.Draining? && x.stage.exit != Close(false)));
    if waits {
      var t :| t in x.joining;
      e := if s.tasks[t].progress.Stopped? then Joined(g, t) else Stop(t);
    } else {
      match x.stage
      case Placing(_) => e := Insert(g);
      case Joining => e := EndJoin(g);
      case Draining(todo, exit) => e := if todo != [] then Drain(g) else if exit == Disconnect then EndDisconnect(g) else Send(g);
      case Cleaning => e := EndTasks(g);
      case Disposing => e := DropClient(g);
      case ClientDropped => e := DropCore(g);
    }
  }

  /** What a graph that is in the middle of nothing can do: connect once, leave
      at any time, spawn over a client, and give up the handle of a start that
      has a result, of a call that has ended, or of one told to end. */
  lemma IdleGraphCan(ss: seq<State>, es: seq<Event>, i: nat, g: GraphId, t: TaskId, wait: bool)
    requires IsRun(ss, es) && i < |ss| && g in ss[i].graphs && ss[i].graphs[g].stage.Idle?
    ensures var s, x := ss[i], ss[i].graphs[g];
            && (Step(s, Connect(g)).Some? <==> !x.client)
            && Step(s, BeginDisconnect(g)).Some? && Step(s, BeginClose(g, wait)).Some?
            && (Step(s, Spawn(g, t, StartTask)).Some? <==> x.client && t !in s.tasks)
            && (Step(s, Spawn(g, t, CallTask)).Some? <==> x.client && t !in s.tasks)
            && (t in x.pending ==>
                  && t in s.tasks
                  && (Step(s, FinishStart(g, t)).Some? <==> x.pending[t].StartTask? && !s.tasks[t].progress.Running?)
                  && (Step(s, Prune(g, t)).Some? <==> x.pending[t].CallTask? && s.tasks[t].progress.Stopped?)
                  && (Step(s, Reap(g, {t})).Some? <==> x.pending[t].CallTask? && s.tasks[t].aborted))
  {
    InvHolds(ss, es, i);
    assert GraphOk(ss[i].tasks, g, ss[i].graphs[g]);
    IdleSteps(ss[i], g, ss[i].graphs[g], t, wait);
  }

  lemma IdleSteps(s: State, g: GraphId, x: Graph, t: TaskId, wait: bool)
    requires g in s.graphs && s.graphs[g] == x && GraphOk(s.tasks, g, x) && x.stage.Idle?
    ensures Step(s, Connect(g)).Some? <==> !x.client
    ensures Step(s, BeginDisconnect(g)).Some? && Step(s, BeginClose(g, wait)).Some?
    ensures Step(s, Spawn(g, t, StartTask)).Some? <==> x.client && t !in s.tasks
    ensures Step(s, Spawn(g, t, CallTask)).Some? <==> x.client && t !in s.tasks
    ensures t in x.pending ==>
              && (Step(s, FinishStart(g, t)).Some? <==> x.pending[t].StartTask? && !s.tasks[t].progress.Running?)
              && (Step(s, Prune(g, t)).Some? <==> x.pending[t].CallTask? && s.tasks[t].progress.Stopped?)
              && (Step(s, Reap(g, {t})).Some? <==> x.pending[t].CallTask? && s.tasks[t].aborted)
  {
    assert t in x.pending ==> ({t} <= OfKind(x.pending, CallTask) <==> x.pending[t].CallTask?);
  }

  /** While the throttle is open, an unfinished call of the graph can start a
      heartbeat driver. */
  lemma CallCanStartDriver(ss: seq<State>, es: seq<Event>, i: nat, parent: TaskId, t: TaskId)
    requires IsRun(ss, es) && i < |ss| && parent in ss[i].tasks && t !in ss[i].tasks
    requires ss[i].tasks[parent].kind.CallTask? && !ss[i].tasks[parent].progress.Stopped?
    ensures var g := ss[i].tasks[parent].graph;
            g in ss[i].graphs && (ThrottleOpen(ss[i].graphs[g]) ==> Step(ss[i], SpawnDriver(g, parent, t)).Some?)
  {
    InvHolds(ss, es, i);
    assert Owned(ss[i], parent);
  }

  /** An open handle can be released, and cloned by a new graph; a released one
      is cleaned. */
  lemma HandleCan(s: State, g: GraphId)
    ensures s.handle.Open? ==> Step(s, ReleaseHandle).Some?
    ensures s.handle.Sent? ==> Step(s, HandleCleaned).Some?
    ensures Step(s, Attach(g)).Some? <==> s.handle.Open? && g !in s.graphs
  {
  }

  /** A panicking disposal ends as a clean one does. */
  lemma PanicEndsAlike(s: State, g: GraphId)
    requires g in s.graphs && s.graphs[g].stage.Disposing?
    ensures Step(s, DropClient(g)).Some? && Step(s, CleanupPanics(g)).Some?
    ensures Step(s, CleanupPanics(g)) == Step(Step(s, DropClient(g)).value, DropCore(g))
  {
    var x := s.graphs[g];
    assert s.graphs[g := x.(stage := ClientDropped, client := false)][g := x.(stage := Gone, client := false, core := false)]
        == s.graphs[g := x.(stage := Gone, client := false, core := false)];
  }

  /** Live references are the handle (open, or in its cleanup) and the graphs
      not yet dropped; the Core has been dropped, once, exactly when none is left. */
  lemma CoreOutlivesItsHolders(ss: seq<State>, es: seq<Event>, i: nat)
    requires IsRun(ss, es) && i < |ss|
    ensures ss[i].refs == |Holding(ss[i].graphs)| + HandleCount(ss[i].handle)
    ensures ss[i].drops <= 1
    ensures ss[i].drops == 1 <==> (HandleCount(ss[i].handle) == 0 && forall g | g in ss[i].graphs :: ss[i].graphs[g].stage.Gone?)
  {
    var s := ss[i];
    InvHolds(ss, es, i);
    forall g | g in s.graphs ensures s.graphs[g].stage.Gone? <==> g !in Holding(s.graphs) {
      assert GraphOk(s.tasks, g, s.graphs[g]);
    }
    if s.drops == 1 {
      assert Holding(s.graphs) == {};
    } else if forall g | g in s.graphs :: s.graphs[g].stage.Gone? {
      assert Holding(s.graphs) == {};
    }
  }

  /** Only the last holder's release drops the Core, and nobody releases or
      clones a reference of a dropped Core. */
  lemma OnlyTheLastHolderDrops(ss: seq<State>, es: seq<Event>, i: nat)
    requires IsRun(ss, es) && i < |es|
    ensures ss[i + 1].drops != ss[i].drops ==> ss[i].refs == 1 && ss[i + 1].refs == 0
    ensures ss[i + 1].refs != ss[i].refs ==> ss[i].drops == 0 && ss[i].refs > 0
  {
    InvHolds(ss, es, i);
    InvHolds(ss, es, i + 1);
    var s, e := ss[i], es[i];
    if e.HandleCleaned? || e.Attach? {
      assert HandleCount(s.handle) == 1;
    } else if OfGraph(e) && DropsCore(s.graphs[e.g], e) {
      assert GraphOk(s.tasks, e.g, s.graphs[e.g]);
      OneHolderLess(s.graphs, e.g, ss[i + 1].graphs[e.g]);
    }
  }
}
