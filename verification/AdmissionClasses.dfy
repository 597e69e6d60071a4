/** What the capacity classes of submitted calls mean, without the sets that the
    code counts: when a start or a wait is admitted, and what justifies every
    refusal in every run. */
module AdmissionClasses {
  import opened Common
  import opened ClientCalls
  import opened Admission
  import opened AdmissionInvariant
  import AdmissionRuns

  /** The request ids of pending starts, and the requests of pending waits, by
      call. */
  function StartKeys(pending: map<nat, Scope>): map<nat, string> {
    map c | c in pending && pending[c].StartScope? :: pending[c].start.requestId
  }

  function WaitKeys(pending: map<nat, Scope>): map<nat, string> {
    map c | c in pending && pending[c].WaitScope? :: pending[c].wait
  }

  /** Calls with pairwise different keys. */
  ghost predicate Distinct(keys: map<nat, string>, calls: set<nat>) {
    calls <= keys.Keys && forall a <- calls, b <- calls :: keys[a] == keys[b] ==> a == b
  }

  /** No `limit` calls have pairwise different keys. */
  ghost predicate Room(keys: map<nat, string>, limit: nat) {
    forall calls | Distinct(keys, calls) :: |calls| < limit
  }

  /** A pending start has the request id, but is another request. */
  ghost predicate Clashes(pending: map<nat, Scope>, request: StartRequest, c: nat) {
    && c in pending && pending[c].StartScope? && pending[c].start.requestId == request.requestId
    && (pending[c].start.workflowId != request.workflowId || pending[c].start.body != request.body)
  }

  /** A request is admissible iff no pending start clashes with it and it
      repeats a pending one or there is room in its class. */
  ghost predicate Admissible(pending: map<nat, Scope>, limits: Limits, rpc: Rpc) {
    match rpc
    case Start(request) =>
      && (forall c: nat :: !Clashes(pending, request, c))
      && (request.requestId in StartKeys(pending).Values || Room(StartKeys(pending), limits.starts))
    case Wait(request) => request in WaitKeys(pending).Values || Room(WaitKeys(pending), limits.waits)
    case OtherRpc => true
  }

  /** The class under which a request is admitted. */
  function ClassOf(rpc: Rpc): Scope {
    match rpc
    case Start(request) => StartScope(request)
    case Wait(request) => WaitScope(request)
    case OtherRpc => Bounded
  }

  /** Two starts are one request iff all but the RPC timeout agrees. */
  lemma SameStartRequestIsExact(a: StartRequest, b: StartRequest)
    ensures SameStartRequest(a, b) <==> a.requestId == b.requestId && a.workflowId == b.workflowId && a.body == b.body
  {
    assert a.(rpcTimeoutMs := None) == StartRequest(a.requestId, a.workflowId, a.body, None);
    assert b.(rpcTimeoutMs := None) == StartRequest(b.requestId, b.workflowId, b.body, None);
  }

  // ---- Counting distinct keys ----

  lemma {:induction false} DistinctFits(keys: map<nat, string>, calls: set<nat>, values: set<string>)
    requires Distinct(keys, calls) && forall c <- calls :: keys[c] in values
    ensures |calls| <= |values|
  {
    if calls != {} {
      var c :| c in calls;
      DistinctFits(keys, calls - {c}, values - {keys[c]});
    }
  }

  lemma {:induction false} Representatives(keys: map<nat, string>, values: set<string>) returns (calls: set<nat>)
    requires values <= keys.Values
    ensures Distinct(keys, calls) && |calls| == |values| && forall c <- calls :: keys[c] in values
    decreases |values|
  {
    calls := {};
    if values != {} {
      var v :| v in values;
      calls := Representatives(keys, values - {v});
      var c :| c in keys && keys[c] == v;
      calls := calls + {c};
    }
  }

  lemma RoomIsCounted(keys: map<nat, string>, limit: nat)
    ensures Room(keys, limit) <==> |keys.Values| < limit
  {
    var most := Representatives(keys, keys.Values);
    forall calls | Distinct(keys, calls) ensures |calls| <= |keys.Values| {
      DistinctFits(keys, calls, keys.Values);
    }
  }

  lemma KeysAreCounted(pending: map<nat, Scope>)
    ensures StartKeys(pending).Values == StartIds(pending) && WaitKeys(pending).Values == Waits(pending)
  {
    forall id <- StartIds(pending) ensures id in StartKeys(pending).Values {
      var c :| c in pending && pending[c].StartScope? && pending[c].start.requestId == id;
      assert StartKeys(pending)[c] == id;
    }
    forall w <- Waits(pending) ensures w in WaitKeys(pending).Values {
      var c :| c in pending && pending[c].WaitScope? && pending[c].wait == w;
      assert WaitKeys(pending)[c] == w;
    }
  }

  lemma ConflictsAreClashes(pending: map<nat, Scope>, request: StartRequest)
    ensures Conflicts(pending, request) <==> exists c: nat :: Clashes(pending, request, c)
  {
    forall c <- pending | pending[c].StartScope?
      ensures Clashes(pending, request, c) <==>
                pending[c].start.requestId == request.requestId && !SameStartRequest(pending[c].start, request)
    {
      SameStartRequestIsExact(pending[c].start, request);
    }
  }

  /** The verdict of the code: the request's own class iff it is admissible;
      the protocol failure iff a pending start clashes with it, and otherwise
      the exhausted one. */
  lemma VerdictIsExact(pending: map<nat, Scope>, limits: Limits, rpc: Rpc)
    ensures var (scope, status) := Verdict(pending, limits, rpc);
            && (scope.Some? <==> Admissible(pending, limits, rpc))
            && (scope.Some? ==> scope.value == ClassOf(rpc) && status == None)
            && (scope.None? ==>
                  status == Some(if rpc.Start? && exists c: nat :: Clashes(pending, rpc.start, c)
                                 then STATUS_PROTOCOL else STATUS_RESOURCE_EXHAUSTED))
  {
    KeysAreCounted(pending);
    RoomIsCounted(StartKeys(pending), limits.starts);
    RoomIsCounted(WaitKeys(pending), limits.waits);
    if rpc.Start? {
      ConflictsAreClashes(pending, rpc.start);
    }
  }

  // ---- Runs ----

  /** A submission passes the class check iff its request is admissible. */
  lemma ClassIsDecided(ss: seq<Sys>, es: seq<Event>, i: nat)
    requires AdmissionRuns.IsRun(ss, es) && i < |es| && es[i] == CheckScope
    ensures ss[i].phase.Consulted?
    ensures ss[i + 1].phase == if Admissible(ss[i].pending, ss[i].limits, ss[i].phase.rpc)
                               then Scoped(ClassOf(ss[i].phase.rpc), ss[i].phase.seen) else Idle
  {
    assert AdmissionRuns.StepAt(ss, es, i);
    VerdictIsExact(ss[i].pending, ss[i].limits, ss[i].phase.rpc);
  }

  /** At every moment of every run no more pending starts have pairwise
      different request ids, and no more pending waits are different, than the
      limits allow. */
  lemma DistinctCallsAreBounded(ss: seq<Sys>, es: seq<Event>, i: nat, calls: set<nat>)
    requires AdmissionRuns.IsRun(ss, es) && i <= |es|
    ensures Distinct(StartKeys(ss[i].pending), calls) ==> |calls| <= ss[i].limits.starts
    ensures Distinct(WaitKeys(ss[i].pending), calls) ==> |calls| <= ss[i].limits.waits
  {
    AdmissionRuns.LimitsHold(ss, es, i);
    KeysAreCounted(ss[i].pending);
    if Distinct(StartKeys(ss[i].pending), calls) {
      DistinctFits(StartKeys(ss[i].pending), calls, StartIds(ss[i].pending));
    }
    if Distinct(WaitKeys(ss[i].pending), calls) {
      DistinctFits(WaitKeys(ss[i].pending), calls, Waits(ss[i].pending));
    }
  }

  /** Why a class refuses: a registered start clashes, or as many registered
      calls as the limit allows have keys different from each other and from
      the request's. */
  ghost predicate Justifies(pending: map<nat, Scope>, limits: Limits, rpc: Rpc, registered: set<nat>, calls: set<nat>) {
    match rpc
    case Start(request) =>
      || (exists c <- registered :: Clashes(pending, request, c))
      || (Fills(StartKeys(pending), limits.starts, request.requestId, calls) && calls <= registered)
    case Wait(request) => Fills(WaitKeys(pending), limits.waits, request, calls) && calls <= registered
    case OtherRpc => false
  }

  ghost predicate Fills(keys: map<nat, string>, limit: nat, key: string, calls: set<nat>) {
    Distinct(keys, calls) && |calls| == limit && forall c <- calls :: keys[c] != key
  }

  /** Every class refusal is justified by calls that were registered when this
      submission consulted the registry. */
  lemma ClassRefusalIsJustified(ss: seq<Sys>, es: seq<Event>, i: nat) returns (k: nat, calls: set<nat>)
    requires AdmissionRuns.IsRun(ss, es) && i < |es| && es[i] == CheckScope && ss[i + 1].phase.Idle?
    ensures k < i && es[k] == Consult && forall m | k < m < i :: !es[m].Prune?
    ensures ss[i].phase.Consulted?
    ensures Justifies(ss[i].pending, ss[i].limits, ss[i].phase.rpc, OwnCalls(ss[k]), calls)
  {
    ClassIsDecided(ss, es, i);
    k := AdmissionRuns.SeenHasSource(ss, es, i);
    SeenCounts(ss, es, i);
    calls := Refusers(ss[i].pending, ss[i].limits, ss[i].phase.rpc, OwnCalls(ss[k]));
  }

  /** Whatever still counts was registered when the registry was consulted. */
  lemma SeenCounts(ss: seq<Sys>, es: seq<Event>, i: nat)
    requires AdmissionRuns.IsRun(ss, es) && i <= |es| && ss[i].phase.Consulted?
    ensures InFlight(ss[i].pending) <= ss[i].phase.seen
    ensures |StartIds(ss[i].pending)| <= ss[i].limits.starts && |Waits(ss[i].pending)| <= ss[i].limits.waits
  {
    AdmissionRuns.InvHolds(ss, es, i);
    AdmissionRuns.LimitsHold(ss, es, i);
  }

  lemma Refusers(pending: map<nat, Scope>, limits: Limits, rpc: Rpc, registered: set<nat>) returns (calls: set<nat>)
    requires !Admissible(pending, limits, rpc) && InFlight(pending) <= registered
    requires |StartIds(pending)| <= limits.starts && |Waits(pending)| <= limits.waits
    ensures Justifies(pending, limits, rpc, registered, calls)
  {
    KeysAreCounted(pending);
    calls := {};
    match rpc
    case Start(request) =>
      if c: nat :| Clashes(pending, request, c) {
        assert c in InFlight(pending);
      } else {
        RoomIsCounted(StartKeys(pending), limits.starts);
        calls := Representatives(StartKeys(pending), StartIds(pending));
        assert calls <= InFlight(pending);
      }
    case Wait(request) =>
      RoomIsCounted(WaitKeys(pending), limits.waits);
      calls := Representatives(WaitKeys(pending), Waits(pending));
      assert calls <= InFlight(pending);
    case OtherRpc =>
  }
}
