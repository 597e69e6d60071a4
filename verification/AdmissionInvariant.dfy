/** What every step of the admission system keeps. */
module AdmissionInvariant {
  import opened Common
  import opened ClientCalls
  import CallProtocol
  import CallInvariant
  import opened Admission

  // ---- The map of pending calls ----

  /** Dropping handles and marking calls released only frees capacity. */
  ghost predicate Eased(after: map<nat, Scope>, before: map<nat, Scope>) {
    forall c <- after :: c in before && (after[c] == before[c] || after[c].Released?)
  }

  lemma EasedAgrees(after: map<nat, Scope>, before: map<nat, Scope>)
    requires Eased(after, before)
    ensures forall scope :: Agrees(before, scope) ==> Agrees(after, scope)
    ensures StartsAgree(before) ==> StartsAgree(after)
  {
    forall scope | Agrees(before, scope) ensures Agrees(after, scope) {
    }
    if StartsAgree(before) {
      forall c <- after ensures Agrees(after, after[c]) {
        assert Agrees(before, before[c]);
      }
    }
  }

  lemma EasedCounts(after: map<nat, Scope>, before: map<nat, Scope>, scope: Scope)
    requires Eased(after, before)
    ensures |StartsWith(after, scope)| <= |StartsWith(before, scope)|
    ensures |WaitsWith(after, scope)| <= |WaitsWith(before, scope)|
    ensures |after| <= |before|
  {
    assert StartIds(after) <= StartIds(before);
    assert Waits(after) <= Waits(before);
    SubsetSize(StartsWith(after, scope), StartsWith(before, scope));
    SubsetSize(WaitsWith(after, scope), WaitsWith(before, scope));
    SubsetSize(after.Keys, before.Keys);
  }

  lemma EasedFits(after: map<nat, Scope>, before: map<nat, Scope>, limits: Limits, scope: Scope)
    requires Eased(after, before) && Fits(before, limits, scope) && StartsAgree(before)
    ensures Fits(after, limits, scope) && StartsAgree(after)
    ensures |after| <= |before|
  {
    EasedAgrees(after, before);
    EasedCounts(after, before, scope);
  }

  lemma StartFits(pending: map<nat, Scope>, limits: Limits, request: StartRequest)
    requires |StartIds(pending)| <= limits.starts && |Waits(pending)| <= limits.waits && !Conflicts(pending, request)
    requires |StartIds(pending)| < limits.starts || request.requestId in StartIds(pending)
    ensures Fits(pending, limits, StartScope(request))
  {
    assert request.requestId in StartIds(pending) ==> StartsWith(pending, StartScope(request)) == StartIds(pending);
    assert WaitsWith(pending, StartScope(request)) == Waits(pending);
  }

  lemma WaitFits(pending: map<nat, Scope>, limits: Limits, request: string)
    requires |StartIds(pending)| <= limits.starts && |Waits(pending)| <= limits.waits
    requires |Waits(pending)| < limits.waits || request in Waits(pending)
    ensures Fits(pending, limits, WaitScope(request))
  {
    assert request in Waits(pending) ==> WaitsWith(pending, WaitScope(request)) == Waits(pending);
    assert StartsWith(pending, WaitScope(request)) == StartIds(pending);
  }

  lemma VerdictFits(pending: map<nat, Scope>, limits: Limits, rpc: Rpc, scope: Scope)
    requires Fits(pending, limits, Bounded) && Verdict(pending, limits, rpc).0 == Some(scope)
    ensures Fits(pending, limits, scope)
  {
    assert StartsWith(pending, Bounded) == StartIds(pending) && WaitsWith(pending, Bounded) == Waits(pending);
    match rpc
    case Start(request) => StartFits(pending, limits, request);
    case Wait(request) => WaitFits(pending, limits, request);
    case OtherRpc =>
  }

  lemma StoredCounts(pending: map<nat, Scope>, scope: Scope, call: nat)
    ensures |StartsWith(pending[call := scope], Bounded)| <= |StartsWith(pending, scope)|
    ensures |WaitsWith(pending[call := scope], Bounded)| <= |WaitsWith(pending, scope)|
  {
    var after := pending[call := scope];
    assert StartsWith(after, Bounded) <= StartsWith(pending, scope);
    assert WaitsWith(after, Bounded) <= WaitsWith(pending, scope);
    SubsetSize(StartsWith(after, Bounded), StartsWith(pending, scope));
    SubsetSize(WaitsWith(after, Bounded), WaitsWith(pending, scope));
  }

  lemma StoredAgrees(pending: map<nat, Scope>, scope: Scope, call: nat)
    requires Agrees(pending, scope) && StartsAgree(pending)
    ensures StartsAgree(pending[call := scope])
  {
    var after := pending[call := scope];
    forall c <- after ensures Agrees(after, after[c]) {
      if c != call {
        assert Agrees(pending, pending[c]);
      }
    }
  }

  lemma StoredFits(pending: map<nat, Scope>, limits: Limits, scope: Scope, call: nat)
    requires Fits(pending, limits, scope) && StartsAgree(pending)
    ensures Fits(pending[call := scope], limits, Bounded) && StartsAgree(pending[call := scope])
  {
    StoredCounts(pending, scope, call);
    StoredAgrees(pending, scope, call);
  }

  // ---- The class limits ----

  predicate ChangesClass(ev: Event) {
    ev.CheckScope? || ev.Store? || ev.Connect? || ev.Joined?
  }

  lemma PendingEases(s: Sys, ev: Event)
    requires Enabled(s, ev) && !ev.Store?
    ensures Eased(PendingAfter(s, ev), s.pending)
  {
  }

  lemma ScopeStays(s: Sys, ev: Event)
    requires Enabled(s, ev) && !ChangesClass(ev)
    ensures ScopeOf(PhaseAfter(s, ev)) == ScopeOf(s.phase) || ScopeOf(PhaseAfter(s, ev)) == Bounded
  {
  }

  lemma DroppedScope(pending: map<nat, Scope>, limits: Limits, scope: Scope)
    requires Fits(pending, limits, scope)
    ensures Fits(pending, limits, Bounded)
  {
    SubsetSize(StartsWith(pending, Bounded), StartsWith(pending, scope));
    SubsetSize(WaitsWith(pending, Bounded), WaitsWith(pending, scope));
  }

  ghost predicate ClassesAfter(s: Sys, ev: Event)
    requires Enabled(s, ev)
  {
    Fits(PendingAfter(s, ev), LimitsAfter(s, ev), ScopeOf(PhaseAfter(s, ev))) && StartsAgree(PendingAfter(s, ev))
  }

  lemma ClassStored(s: Sys, scope: Scope, call: nat)
    requires s.phase == Spawned(scope, call) && Enabled(s, Store)
    requires Fits(s.pending, s.limits, scope) && StartsAgree(s.pending)
    ensures ClassesAfter(s, Store)
  {
    StoredFits(s.pending, s.limits, scope, call);
    assert PendingAfter(s, Store) == s.pending[call := scope] && ScopeOf(PhaseAfter(s, Store)) == Bounded;
  }

  lemma ClassScoped(s: Sys)
    requires Fits(s.pending, s.limits, ScopeOf(s.phase)) && StartsAgree(s.pending) && Enabled(s, CheckScope)
    ensures ClassesAfter(s, CheckScope)
  {
    var v := Verdict(s.pending, s.limits, s.phase.rpc).0;
    if v.Some? {
      VerdictFits(s.pending, s.limits, s.phase.rpc, v.value);
    }
  }

  lemma ClassEmpty(s: Sys, ev: Event)
    requires Enabled(s, ev) && (ev.Connect? || ev.Joined?) && s.pending == map[]
    ensures ClassesAfter(s, ev)
  {
    assert StartsWith(s.pending, Bounded) == {} && WaitsWith(s.pending, Bounded) == {};
  }

  lemma ClassShrinks(s: Sys, ev: Event)
    requires Fits(s.pending, s.limits, ScopeOf(s.phase)) && StartsAgree(s.pending) && Enabled(s, ev) && !ChangesClass(ev)
    ensures ClassesAfter(s, ev)
  {
    PendingEases(s, ev);
    ScopeStays(s, ev);
    EasedFits(PendingAfter(s, ev), s.pending, s.limits, ScopeOf(s.phase));
    DroppedScope(PendingAfter(s, ev), s.limits, ScopeOf(s.phase));
  }

  lemma ClassesKept(s: Sys, ev: Event)
    requires WithinClassLimits(s) && EmptyWhenDisconnected(s) && Enabled(s, ev)
    ensures ClassesAfter(s, ev)
  {
    match ev
    case CheckScope => ClassScoped(s);
    case Store => ClassStored(s, s.phase.scope, s.phase.call);
    case Connect(_) => ClassEmpty(s, ev);
    case Joined => ClassEmpty(s, ev);
    case _ => ClassShrinks(s, ev);
  }

  // ---- What a step does to the registry, as far as the owner can tell ----

  predicate Inserts(s: Sys, ev: Event, c: nat) {
    ev.InsertEntry? && s.thread in s.net.threads && s.net.threads[s.thread].Registering? && s.net.threads[s.thread].call == c
  }

  ghost predicate CallsMove(s: Sys, ev: Event, net: Net) {
    forall c <- CallsOf(net.reg.calls, s.owner) :: c in OwnCalls(s) || Inserts(s, ev, c)
  }

  ghost predicate IssuedMoves(s: Sys, ev: Event, net: Net) {
    forall c: nat :: CallProtocol.IssuedTo(net, c, s.owner) <==> CallProtocol.IssuedTo(s.net, c, s.owner) || Inserts(s, ev, c)
  }

  ghost predicate TasksMove(s: Sys, ev: Event, net: Net) {
    forall c <- net.running | CallProtocol.IssuedTo(s.net, c, s.owner) ::
      c in s.net.running || (ev.SpawnTask? && s.phase.Inserted? && c == s.phase.call)
  }

  ghost predicate GuardsMove(s: Sys, ev: Event, net: Net) {
    forall c <- net.guards | CallProtocol.IssuedTo(net, c, s.owner) :: Inserts(s, ev, c) || GuardMoves(s, ev, net, c)
  }

  predicate GuardMoves(s: Sys, ev: Event, net: Net, c: nat) {
    && c in s.net.guards && (c in s.net.running ==> c in net.running)
    && (ev.SpawnTask? && s.phase.Inserted? && c == s.phase.call ==> c in net.running)
  }

  /** The steps that move the owner's thread in or out of an operation. */
  ghost predicate ThreadsMove(s: Sys, ev: Event, net: Net) {
    OthersMove(s, net.threads) && OwnThreadMoves(s, ev, net.threads)
  }

  ghost predicate OthersMove(s: Sys, threads: map<nat, CallProtocol.Op>) {
    forall t <- threads | t != s.thread && threads[t].Registering? && threads[t].owner == s.owner ::
      t in s.net.threads && s.net.threads[t] == threads[t]
  }

  predicate OwnThreadMoves(s: Sys, ev: Event, threads: map<nat, CallProtocol.Op>) {
    match ev
    case Fetch =>
      if s.net.nextCall >= MAX_CALL_ID then s.thread !in threads
      else s.thread in threads && threads[s.thread] == CallProtocol.Registering(s.owner, s.net.nextCall)
    case InsertEntry => s.thread !in threads
    case InsertFails => s.thread !in threads
    case BeginDisconnect => s.thread in threads && threads[s.thread].Closing?
    case CloseOne(_) => s.thread in threads && threads[s.thread].Closing?
    case Drain => s.thread !in threads
    case _ => SameRegistration(s.net.threads, threads, s.thread)
  }

  /** The thread stays in or out, and registers if and only if it did. */
  predicate SameRegistration(before: map<nat, CallProtocol.Op>, after: map<nat, CallProtocol.Op>, t: nat) {
    (t in after <==> t in before)
    && (t in before && (before[t].Registering? || after[t].Registering?) ==> after[t] == before[t])
  }

  lemma ProtocolCalls(net: Net, e: CallProtocol.Event, owner: nat, c: nat)
    requires CallProtocol.Enabled(net, e) && Owns(CallProtocol.RegAfter(net, e), owner, c)
    ensures Owns(net.reg, owner, c) || (e.Insert? && net.threads[e.thread].call == c && net.threads[e.thread].owner == owner)
  {
    if !e.Insert? {
      CallInvariant.OnlyInsertRegisters(net, e, c);
    }
  }

  lemma ProtocolIssues(net: Net, e: CallProtocol.Event, owner: nat, c: nat)
    requires CallProtocol.Enabled(net, e) && CallInvariant.WritesKnown(net, e) && CallInvariant.InsertsNew(net, e)
    requires net.owners.Keys == net.slots.Keys
    ensures (c in CallProtocol.SlotsAfter(net, e) && c in CallProtocol.OwnersAfter(net, e) && CallProtocol.OwnersAfter(net, e)[c] == owner)
       <==> CallProtocol.IssuedTo(net, c, owner) || (e.Insert? && net.threads[e.thread].call == c && net.threads[e.thread].owner == owner)
  {
    if !e.Insert? {
      CallInvariant.SlotKeysStay(net, e);
    }
  }

  lemma ProtocolStarts(net: Net, e: CallProtocol.Event, c: nat)
    requires CallProtocol.Enabled(net, e) && c in CallProtocol.RunningAfter(net, e) && c !in net.running
    ensures e == CallProtocol.Spawn(c)
  {
  }

  lemma ProtocolGuards(net: Net, e: CallProtocol.Event, c: nat)
    requires CallProtocol.Enabled(net, e) && c in CallProtocol.GuardsAfter(net, e)
    requires e.Insert? ==> net.threads[e.thread].call != c
    ensures c in net.guards && (c in net.running || e == CallProtocol.Spawn(c) ==> c in CallProtocol.RunningAfter(net, e))
  {
  }

  lemma ProtocolThreads(net: Net, e: CallProtocol.Event, t: nat)
    requires CallProtocol.Enabled(net, e) && !CallInvariant.Acts(e, t)
    ensures t in CallProtocol.ThreadsAfter(net, e) <==> t in net.threads
    ensures t in net.threads && (net.threads[t].Registering? || CallProtocol.ThreadsAfter(net, e)[t].Registering?) ==>
              CallProtocol.ThreadsAfter(net, e)[t] == net.threads[t]
  {
    CallInvariant.OtherThreads(net, e, t);
  }

  /** `net` is the protocol state after the step, apart from the tasks told to abort. */
  predicate NetMoves(s: Sys, ev: Event, net: Net)
    requires NetEnabled(s, ev)
  {
    match NetEvent(s, ev)
    case None => net.reg == s.net.reg && net.slots == s.net.slots && net.owners == s.net.owners
                 && net.running == s.net.running && net.threads == s.net.threads
    case Some(e) =>
      net.reg == CallProtocol.RegAfter(s.net, e) && net.slots == CallProtocol.SlotsAfter(s.net, e)
      && net.owners == CallProtocol.OwnersAfter(s.net, e) && net.running == CallProtocol.RunningAfter(s.net, e)
      && net.threads == CallProtocol.ThreadsAfter(s.net, e)
  }

  lemma NetMoved(s: Sys, ev: Event)
    requires NetEnabled(s, ev)
    ensures NetMoves(s, ev, NetAfter(s, ev))
  {
  }

  /** Only the owner's own insertion inserts for the owner. */
  lemma OwnInserts(s: Sys, ev: Event, c: nat)
    requires Enabled(s, ev) && ThreadsFit(s) && NetEvent(s, ev).Some?
    ensures var e := NetEvent(s, ev).value;
            e.Insert? && s.net.threads[e.thread].call == c && s.net.threads[e.thread].owner == s.owner <==> Inserts(s, ev, c)
  {
  }

  lemma CallMoved(s: Sys, ev: Event, c: nat)
    requires Enabled(s, ev) && ThreadsFit(s) && NetEvent(s, ev).Some?
    requires Owns(CallProtocol.RegAfter(s.net, NetEvent(s, ev).value), s.owner, c)
    ensures c in OwnCalls(s) || Inserts(s, ev, c)
  {
    ProtocolCalls(s.net, NetEvent(s, ev).value, s.owner, c);
    OwnInserts(s, ev, c);
  }

  lemma CallsMoved(s: Sys, ev: Event, net: Net)
    requires Enabled(s, ev) && ThreadsFit(s) && NetMoves(s, ev, net)
    ensures CallsMove(s, ev, net)
  {
    if NetEvent(s, ev).Some? {
      forall c <- CallsOf(net.reg.calls, s.owner) ensures c in OwnCalls(s) || Inserts(s, ev, c) {
        CallMoved(s, ev, c);
      }
    }
  }

  lemma IssuedMoved(s: Sys, ev: Event, net: Net)
    requires Enabled(s, ev) && ThreadsFit(s) && NetMoves(s, ev, net) && s.net.owners.Keys == s.net.slots.Keys
    requires NetEvent(s, ev).Some? ==>
               CallInvariant.WritesKnown(s.net, NetEvent(s, ev).value) && CallInvariant.InsertsNew(s.net, NetEvent(s, ev).value)
    ensures IssuedMoves(s, ev, net)
  {
    if NetEvent(s, ev).Some? {
      forall c: nat
        ensures CallProtocol.IssuedTo(net, c, s.owner) <==> CallProtocol.IssuedTo(s.net, c, s.owner) || Inserts(s, ev, c)
      {
        ProtocolIssues(s.net, NetEvent(s, ev).value, s.owner, c);
        OwnInserts(s, ev, c);
      }
    }
  }

  lemma TaskMoved(s: Sys, ev: Event, c: nat)
    requires Enabled(s, ev) && NetEvent(s, ev).Some? && CallProtocol.IssuedTo(s.net, c, s.owner)
    requires c in CallProtocol.RunningAfter(s.net, NetEvent(s, ev).value)
    ensures c in s.net.running || (ev.SpawnTask? && s.phase.Inserted? && c == s.phase.call)
  {
    if c !in s.net.running {
      ProtocolStarts(s.net, NetEvent(s, ev).value, c);
    }
  }

  lemma TasksMoved(s: Sys, ev: Event, net: Net)
    requires Enabled(s, ev) && NetMoves(s, ev, net)
    ensures TasksMove(s, ev, net)
  {
    if NetEvent(s, ev).Some? {
      forall c <- net.running | CallProtocol.IssuedTo(s.net, c, s.owner)
        ensures c in s.net.running || (ev.SpawnTask? && s.phase.Inserted? && c == s.phase.call)
      {
        TaskMoved(s, ev, c);
      }
    }
  }

  lemma GuardsMoved(s: Sys, ev: Event)
    requires Enabled(s, ev) && IssuedMoves(s, ev, NetAfter(s, ev))
    requires NetEvent(s, ev).Some? ==> CallInvariant.InsertsNew(s.net, NetEvent(s, ev).value)
    ensures GuardsMove(s, ev, NetAfter(s, ev))
  {
    if NetEvent(s, ev).Some? {
      forall c <- CallProtocol.GuardsAfter(s.net, NetEvent(s, ev).value) | CallProtocol.IssuedTo(s.net, c, s.owner)
        ensures GuardMoves(s, ev, NetAfter(s, ev), c)
      {
        ProtocolGuards(s.net, NetEvent(s, ev).value, c);
      }
    }
  }

  lemma OwnThreadMoved(s: Sys, ev: Event)
    requires Enabled(s, ev) && NetEvent(s, ev).Some?
    ensures OwnThreadMoves(s, ev, CallProtocol.ThreadsAfter(s.net, NetEvent(s, ev).value))
  {
    if ev.Env? || ev.SpawnTask? || ev.Store? {
      ProtocolThreads(s.net, NetEvent(s, ev).value, s.thread);
    }
  }

  lemma OtherThreadMoved(s: Sys, ev: Event, t: nat)
    requires Enabled(s, ev) && NetEvent(s, ev).Some? && t != s.thread
    requires var threads := CallProtocol.ThreadsAfter(s.net, NetEvent(s, ev).value);
             t in threads && threads[t].Registering? && threads[t].owner == s.owner
    ensures t in s.net.threads && s.net.threads[t] == CallProtocol.ThreadsAfter(s.net, NetEvent(s, ev).value)[t]
  {
    CallInvariant.OnlyFetchRegisters(s.net, NetEvent(s, ev).value, t);
  }

  lemma ThreadsMoved(s: Sys, ev: Event, net: Net)
    requires Enabled(s, ev) && NetMoves(s, ev, net)
    ensures ThreadsMove(s, ev, net)
  {
    if NetEvent(s, ev).Some? {
      forall t <- net.threads | t != s.thread && net.threads[t].Registering? && net.threads[t].owner == s.owner
        ensures t in s.net.threads && s.net.threads[t] == net.threads[t]
      {
        OtherThreadMoved(s, ev, t);
      }
      OwnThreadMoved(s, ev);
    }
  }

  // ---- The invariant, clause by clause ----

  lemma ThreadsKept(s: Sys, ev: Event, net: Net)
    requires Enabled(s, ev) && ThreadsFit(s) && ThreadsMove(s, ev, net)
    ensures ThreadsFit(After(s, ev, net))
  {
  }

  lemma CallsKept(s: Sys, ev: Event, net: Net)
    requires Enabled(s, ev) && CallsWithin(s) && EmptyWhenDisconnected(s) && CallsMove(s, ev, net)
    requires ev.CheckCeiling? ==> RegisteredCount(s.net.reg, s.owner) == |OwnCalls(s)|
    ensures CallsWithin(After(s, ev, net))
  {
    var after := CallsOf(net.reg.calls, s.owner);
    if ev.InsertEntry? {
      SubsetSize(after, OwnCalls(s) + {s.net.threads[s.thread].call});
    } else {
      SubsetSize(after, OwnCalls(s));
    }
  }

  lemma HandlesCounted(s: Sys, ev: Event, net: Net)
    requires Enabled(s, ev) && HandlesWithin(s) && ReapedIsClean(s) && EmptyWhenDisconnected(s)
    ensures HandlesWithin(After(s, ev, net))
  {
    if ev.Store? {
      SubsetSize(PendingAfter(s, ev).Keys, s.pending.Keys + {s.phase.call});
    } else {
      PendingEases(s, ev);
      SubsetSize(PendingAfter(s, ev).Keys, s.pending.Keys);
    }
  }

  lemma ReapedKept(s: Sys, ev: Event, net: Net)
    requires Enabled(s, ev) && ReapedIsClean(s)
    ensures ReapedIsClean(After(s, ev, net))
  {
  }

  lemma SeenKept(s: Sys, ev: Event, net: Net)
    requires Enabled(s, ev) && SeenIsFair(s) && CallsWithin(s)
    ensures SeenIsFair(After(s, ev, net))
  {
    if !ev.Store? {
      PendingEases(s, ev);
    }
  }

  lemma TasksKept(s: Sys, ev: Event, net: Net)
    requires Enabled(s, ev) && TasksHeld(s) && TasksMove(s, ev, net) && IssuedMoves(s, ev, net)
    requires forall c | Inserts(s, ev, c) :: c !in net.running
    ensures TasksHeld(After(s, ev, net))
  {
    var s' := After(s, ev, net);
    forall c <- net.running | CallProtocol.IssuedTo(net, c, s.owner) ensures HasHandle(s', c) {
      assert CallProtocol.IssuedTo(s.net, c, s.owner);
      HandleStays(s, ev, net, c);
    }
  }

  lemma HandleStays(s: Sys, ev: Event, net: Net, c: nat)
    requires Enabled(s, ev) && (c in s.net.running ==> HasHandle(s, c))
    requires c in s.net.running || (ev.SpawnTask? && s.phase.Inserted? && c == s.phase.call)
    ensures HasHandle(After(s, ev, net), c)
  {
  }

  lemma GuardsKept(s: Sys, ev: Event, net: Net)
    requires Enabled(s, ev) && GuardsHeld(s) && GuardsMove(s, ev, net) && IssuedMoves(s, ev, net)
    ensures GuardsHeld(After(s, ev, net))
  {
    forall c <- net.guards | CallProtocol.IssuedTo(net, c, s.owner) ensures GuardHeld(net, PhaseAfter(s, ev), c) {
      if !Inserts(s, ev, c) {
        assert GuardHeld(s.net, s.phase, c);
      }
    }
  }

  lemma EmptyKept(s: Sys, ev: Event, net: Net)
    requires Enabled(s, ev) && EmptyWhenDisconnected(s) && TasksHeld(s) && CallsMove(s, ev, net)
    requires TasksMove(s, ev, net) && IssuedMoves(s, ev, net)
    requires ev.BeginDisconnect? ==> CallsOf(net.reg.calls, s.owner) == {}
    ensures EmptyWhenDisconnected(After(s, ev, net))
  {
  }

  lemma NewTaskIsNotRunning(s: Sys, ev: Event, net: Net, c: nat)
    requires Enabled(s, ev) && NetMoves(s, ev, net) && Inserts(s, ev, c) && c !in s.net.running
    ensures c !in net.running
  {
  }

  lemma DisconnectReleases(s: Sys, net: Net)
    requires Enabled(s, BeginDisconnect) && NetMoves(s, BeginDisconnect, net)
    ensures CallsOf(net.reg.calls, s.owner) == {}
  {
  }

  /** What the protocol's own invariant says about the step. */
  lemma NetSound(s: Sys, ev: Event)
    requires CallProtocol.Inv(s.net) && Enabled(s, ev)
    ensures s.net.owners.Keys == s.net.slots.Keys && RegisteredCount(s.net.reg, s.owner) == |OwnCalls(s)|
    ensures NetEvent(s, ev).Some? ==>
              CallInvariant.WritesKnown(s.net, NetEvent(s, ev).value) && CallInvariant.InsertsNew(s.net, NetEvent(s, ev).value)
    ensures forall c | Inserts(s, ev, c) :: c !in s.net.running
  {
    CountIsNumberOfCalls(s.net.reg, s.owner);
    if NetEvent(s, ev).Some? {
      CallInvariant.StepWritesKnown(s.net, NetEvent(s, ev).value);
      CallInvariant.FreshInserts(s.net, NetEvent(s, ev).value);
    }
  }

  lemma ClausesKept(s: Sys, ev: Event, net: Net)
    requires HandlesInv(s) && Enabled(s, ev) && ThreadsMove(s, ev, net) && CallsMove(s, ev, net)
    requires TasksMove(s, ev, net) && IssuedMoves(s, ev, net) && GuardsMove(s, ev, net)
    requires RegisteredCount(s.net.reg, s.owner) == |OwnCalls(s)|
    requires forall c | Inserts(s, ev, c) :: c !in net.running
    requires ev.BeginDisconnect? ==> CallsOf(net.reg.calls, s.owner) == {}
    ensures HandlesInv(After(s, ev, net))
  {
    ThreadsKept(s, ev, net);
    CallsKept(s, ev, net);
    HandlesCounted(s, ev, net);
    ReapedKept(s, ev, net);
    SeenKept(s, ev, net);
    TasksKept(s, ev, net);
    GuardsKept(s, ev, net);
    EmptyKept(s, ev, net);
  }

  lemma HandlesKept(s: Sys, ev: Event)
    requires CallProtocol.Inv(s.net) && HandlesInv(s) && Enabled(s, ev)
    ensures HandlesInv(After(s, ev, NetAfter(s, ev)))
  {
    var net := NetAfter(s, ev);
    NetMoved(s, ev);
    NetSound(s, ev);
    ThreadsMoved(s, ev, net);
    CallsMoved(s, ev, net);
    TasksMoved(s, ev, net);
    IssuedMoved(s, ev, net);
    GuardsMoved(s, ev);
    forall c | Inserts(s, ev, c) ensures c !in net.running {
      NewTaskIsNotRunning(s, ev, net, c);
    }
    if ev.BeginDisconnect? {
      DisconnectReleases(s, net);
    }
    ClausesKept(s, ev, net);
  }

  lemma NetKept(s: Sys, ev: Event)
    requires CallProtocol.Inv(s.net) && Enabled(s, ev)
    ensures CallProtocol.Inv(NetAfter(s, ev))
  {
    var e, net := NetEvent(s, ev), NetAfter(s, ev);
    if e.Some? {
      CallInvariant.StepKeepsInv(s.net, e.value);
      CallInvariant.AbortedIsFree(CallProtocol.Step(s.net, e.value).value, net.aborted);
    } else {
      CallInvariant.AbortedIsFree(s.net, net.aborted);
    }
  }

  ghost predicate Next(s: Sys, ev: Event, s': Sys) {
    Step(s, ev) == Some(s')
  }

  lemma StepKeepsInv(s: Sys, ev: Event, s': Sys)
    requires Inv(s) && Next(s, ev, s')
    ensures Inv(s')
  {
    NetKept(s, ev);
    ClassesKept(s, ev);
    HandlesKept(s, ev);
  }
}
