/** What the task handles of the admission system stand for: which calls they
    belong to, which of them still count, and that whatever the owner joins was
    told to end. */
module AdmissionHandles {
  import opened Common
  import opened ClientCalls
  import CallProtocol
  import CallInvariant
  import opened Admission
  import opened AdmissionInvariant
  import AdmissionRuns

  /** The task has ended or was told to. */
  predicate ToldToEnd(net: Net, c: nat) {
    c in net.running ==> c in net.aborted
  }

  /** A stored handle belongs to a call of the owner. If the call is still
      registered, a release can abort its task; if it no longer counts, it left
      the registry and its task was told to end. */
  ghost predicate HandleOk(net: Net, owner: nat, c: nat, scope: Scope) {
    && CallProtocol.IssuedTo(net, c, owner)
    && (Owns(net.reg, owner, c) ==> net.reg.calls[c].attached)
    && (scope.Released? ==> !Owns(net.reg, owner, c) && ToldToEnd(net, c))
  }

  ghost predicate JoinedOk(net: Net, owner: nat, c: nat) {
    CallProtocol.IssuedTo(net, c, owner) && ToldToEnd(net, c)
  }

  /** The call being spawned has no handle yet, and no call starts released. */
  predicate PhaseOk(s: Sys) {
    && (s.phase.Inserted? || s.phase.Spawned? ==> s.phase.call !in s.pending)
    && !ScopeOf(s.phase).Released?
  }

  ghost predicate HandlesOk(s: Sys) {
    && PhaseOk(s)
    && (forall c <- s.pending :: HandleOk(s.net, s.owner, c, s.pending[c]))
    && (s.phase.Joining? ==> forall c <- s.phase.tasks :: JoinedOk(s.net, s.owner, c))
  }

  // ---- What one step does to a call ----

  /** Nothing but its insertion registers a call again or detaches its task. */
  lemma EntryKept(net: Net, e: CallProtocol.Event, owner: nat, c: nat)
    requires CallProtocol.Enabled(net, e) && (e.Insert? ==> net.threads[e.thread].call != c)
    requires Owns(CallProtocol.RegAfter(net, e), owner, c)
    ensures Owns(net.reg, owner, c) && (net.reg.calls[c].attached ==> CallProtocol.RegAfter(net, e).calls[c].attached)
  {
    if !e.Insert? {
      CallInvariant.OnlyInsertRegisters(net, e, c);
    }
  }

  lemma StillTold(net: Net, e: CallProtocol.Event, c: nat)
    requires CallProtocol.Enabled(net, e) && (e.Insert? ==> net.threads[e.thread].call != c)
    requires ToldToEnd(net, c) && e != CallProtocol.Spawn(c)
    ensures c in CallProtocol.RunningAfter(net, e) ==> c in CallProtocol.AbortedAfter(net, e)
  {
  }

  /** What a step leaves of a call that was issued to the owner before. */
  ghost predicate CallStays(s: Sys, net: Net, c: nat, spawned: bool) {
    && CallProtocol.IssuedTo(net, c, s.owner)
    && (Owns(net.reg, s.owner, c) ==>
          Owns(s.net.reg, s.owner, c) && (s.net.reg.calls[c].attached ==> net.reg.calls[c].attached))
    && (ToldToEnd(s.net, c) && !spawned ==> ToldToEnd(net, c))
  }

  predicate Spawns(s: Sys, ev: Event, c: nat) {
    ev.SpawnTask? && s.phase.Inserted? && s.phase.call == c
  }

  lemma NetStays(s: Sys, ev: Event, c: nat)
    requires Enabled(s, ev) && CallProtocol.IssuedTo(s.net, c, s.owner) && IssuedMoves(s, ev, NetAfter(s, ev))
    requires NetEvent(s, ev).Some? ==> CallInvariant.InsertsNew(s.net, NetEvent(s, ev).value)
    ensures CallStays(s, NetAfter(s, ev), c, Spawns(s, ev, c))
  {
    assert CallProtocol.IssuedTo(NetAfter(s, ev), c, s.owner);
    if NetEvent(s, ev).Some? {
      var e := NetEvent(s, ev).value;
      if Owns(CallProtocol.RegAfter(s.net, e), s.owner, c) {
        EntryKept(s.net, e, s.owner, c);
      }
      if ToldToEnd(s.net, c) && e != CallProtocol.Spawn(c) {
        StillTold(s.net, e, c);
      }
    }
  }

  // ---- Every step ----

  lemma PhaseKept(s: Sys, ev: Event, net: Net)
    requires Enabled(s, ev) && PhaseOk(s)
    requires forall c | Inserts(s, ev, c) :: c !in s.pending
    ensures PhaseOk(After(s, ev, net))
  {
    if ev.CheckScope? {
      assert Verdict(s.pending, s.limits, s.phase.rpc).0.Some? ==> !Verdict(s.pending, s.limits, s.phase.rpc).0.value.Released?;
    }
  }

  /** A handle that was stored before, with the scope it has afterwards. */
  lemma OldHandleKept(s: Sys, ev: Event, c: nat)
    requires Enabled(s, ev) && PhaseOk(s) && c in s.pending && HandleOk(s.net, s.owner, c, s.pending[c])
    requires c in PendingAfter(s, ev) && !ev.Store? && CallStays(s, NetAfter(s, ev), c, Spawns(s, ev, c))
    ensures HandleOk(NetAfter(s, ev), s.owner, c, PendingAfter(s, ev)[c])
  {
  }

  lemma AttachAttaches(net: Net, owner: nat, c: nat)
    requires CallProtocol.Enabled(net, CallProtocol.Attach(owner, c))
    ensures var reg := CallProtocol.RegAfter(net, CallProtocol.Attach(owner, c));
            Owns(reg, owner, c) ==> reg.calls[c].attached
  {
  }

  lemma NewHandleOk(s: Sys)
    requires Enabled(s, Store) && PhaseOk(s) && CallProtocol.IssuedTo(s.net, s.phase.call, s.owner)
    ensures HandleOk(NetAfter(s, Store), s.owner, s.phase.call, s.phase.scope)
  {
    AttachAttaches(s.net, s.owner, s.phase.call);
  }

  lemma StoredKept(s: Sys, c: nat)
    requires Enabled(s, Store) && c in s.pending && c != s.phase.call && HandleOk(s.net, s.owner, c, s.pending[c])
    requires CallStays(s, NetAfter(s, Store), c, false)
    ensures HandleOk(NetAfter(s, Store), s.owner, c, s.pending[c])
  {
  }

  lemma HandlesStay(s: Sys, ev: Event)
    requires Enabled(s, ev) && HandlesOk(s)
    requires HandlesStand(s, ev)
    requires ev.Store? ==> CallProtocol.IssuedTo(s.net, s.phase.call, s.owner)
    ensures forall c <- PendingAfter(s, ev) :: HandleOk(NetAfter(s, ev), s.owner, c, PendingAfter(s, ev)[c])
  {
    forall c <- PendingAfter(s, ev) ensures HandleOk(NetAfter(s, ev), s.owner, c, PendingAfter(s, ev)[c]) {
      if !ev.Store? {
        PendingEases(s, ev);
        OldHandleKept(s, ev, c);
      } else if c == s.phase.call {
        NewHandleOk(s);
      } else {
        StoredKept(s, c);
      }
    }
  }

  lemma JoinedStay(s: Sys, ev: Event)
    requires Enabled(s, ev) && HandlesOk(s)
    requires HandlesStand(s, ev)
    ensures PhaseAfter(s, ev).Joining? ==> forall c <- PhaseAfter(s, ev).tasks :: JoinedOk(NetAfter(s, ev), s.owner, c)
  {
    if PhaseAfter(s, ev).Joining? {
      forall c <- PhaseAfter(s, ev).tasks ensures JoinedOk(NetAfter(s, ev), s.owner, c) {
        if ev.Drain? {
          assert HandleOk(s.net, s.owner, c, s.pending[c]);
        } else {
          assert JoinedOk(s.net, s.owner, c);
        }
      }
    }
  }

  ghost predicate HandlesStand(s: Sys, ev: Event)
    requires Enabled(s, ev)
  {
    && (forall c <- s.pending :: CallStays(s, NetAfter(s, ev), c, Spawns(s, ev, c)))
    && (s.phase.Joining? ==> forall c <- s.phase.tasks :: CallStays(s, NetAfter(s, ev), c, Spawns(s, ev, c)))
  }

  lemma NetKeepsHandles(s: Sys, ev: Event)
    requires HandlesOk(s) && Enabled(s, ev) && IssuedMoves(s, ev, NetAfter(s, ev))
    requires NetEvent(s, ev).Some? ==> CallInvariant.InsertsNew(s.net, NetEvent(s, ev).value)
    ensures HandlesStand(s, ev)
  {
    forall c <- s.pending ensures CallStays(s, NetAfter(s, ev), c, Spawns(s, ev, c)) {
      assert HandleOk(s.net, s.owner, c, s.pending[c]);
      NetStays(s, ev, c);
    }
    if s.phase.Joining? {
      forall c <- s.phase.tasks ensures CallStays(s, NetAfter(s, ev), c, Spawns(s, ev, c)) {
        assert JoinedOk(s.net, s.owner, c);
        NetStays(s, ev, c);
      }
    }
  }

  lemma IssuedStep(s: Sys, ev: Event)
    requires Inv(s) && Enabled(s, ev)
    ensures IssuedMoves(s, ev, NetAfter(s, ev)) && (ev.Store? ==> CallProtocol.IssuedTo(s.net, s.phase.call, s.owner))
    ensures NetEvent(s, ev).Some? ==> CallInvariant.InsertsNew(s.net, NetEvent(s, ev).value)
  {
    NetSound(s, ev);
    NetMoved(s, ev);
    IssuedMoved(s, ev, NetAfter(s, ev));
  }

  lemma InsertedIsNew(s: Sys, ev: Event)
    requires HandlesOk(s) && Enabled(s, ev)
    requires NetEvent(s, ev).Some? ==> CallInvariant.InsertsNew(s.net, NetEvent(s, ev).value)
    ensures forall c | Inserts(s, ev, c) :: c !in s.pending
  {
    forall c <- s.pending ensures c in s.net.slots {
      assert HandleOk(s.net, s.owner, c, s.pending[c]);
    }
  }

  lemma StepKeepsHandles(s: Sys, ev: Event, s': Sys)
    requires HandlesOk(s) && Next(s, ev, s') && IssuedMoves(s, ev, NetAfter(s, ev))
    requires ev.Store? ==> CallProtocol.IssuedTo(s.net, s.phase.call, s.owner)
    requires NetEvent(s, ev).Some? ==> CallInvariant.InsertsNew(s.net, NetEvent(s, ev).value)
    ensures HandlesOk(s')
  {
    NetKeepsHandles(s, ev);
    InsertedIsNew(s, ev);
    PhaseKept(s, ev, NetAfter(s, ev));
    HandlesStay(s, ev);
    JoinedStay(s, ev);
  }

  // ---- Runs ----

  lemma NextKeepsHandles(s: Sys, ev: Event, s': Sys)
    requires Inv(s) && HandlesOk(s) && Next(s, ev, s')
    ensures HandlesOk(s')
  {
    IssuedStep(s, ev);
    StepKeepsHandles(s, ev, s');
  }

  lemma InitHandles(s: Sys)
    requires IsInit(s)
    ensures HandlesOk(s)
  {
  }

  lemma HandlesStep(ss: seq<Sys>, es: seq<Event>, i: nat)
    requires AdmissionRuns.IsRun(ss, es) && 0 < i <= |es| && Inv(ss[i - 1]) && HandlesOk(ss[i - 1])
    ensures HandlesOk(ss[i])
  {
    assert AdmissionRuns.StepAt(ss, es, i - 1);
    NextKeepsHandles(ss[i - 1], es[i - 1], ss[i]);
  }

  lemma {:induction false} HandlesHold(ss: seq<Sys>, es: seq<Event>, i: nat)
    requires AdmissionRuns.IsRun(ss, es) && i <= |es|
    ensures HandlesOk(ss[i])
  {
    if i == 0 {
      InitHandles(ss[i]);
    } else {
      HandlesHold(ss, es, i - 1);
      AdmissionRuns.InvHolds(ss, es, i - 1);
      HandlesStep(ss, es, i);
    }
  }

  /** At every moment of every run: a task the owner joins, on disconnect or
      before it refuses for lack of room, has ended or was told to. */
  lemma JoinedTasksWereTold(ss: seq<Sys>, es: seq<Event>, i: nat, c: nat)
    requires AdmissionRuns.IsRun(ss, es) && i <= |es|
    requires (ss[i].phase.Joining? && c in ss[i].phase.tasks) || c in ReleasedCalls(ss[i])
    ensures c in ss[i].net.running ==> c in ss[i].net.aborted
  {
    HandlesHold(ss, es, i);
    if c in ss[i].pending {
      assert HandleOk(ss[i].net, ss[i].owner, c, ss[i].pending[c]);
    }
    assert ss[i].phase.Joining? && c in ss[i].phase.tasks ==> JoinedOk(ss[i].net, ss[i].owner, c);
  }

  /** A stored call stops counting only after it left the registry; until then
      a release of it finds its task to abort. */
  lemma RegisteredCallsCount(ss: seq<Sys>, es: seq<Event>, i: nat, c: nat)
    requires AdmissionRuns.IsRun(ss, es) && i <= |es| && c in ss[i].pending && c in OwnCalls(ss[i])
    ensures !ss[i].pending[c].Released? && ss[i].net.reg.calls[c].attached
  {
    HandlesHold(ss, es, i);
    assert HandleOk(ss[i].net, ss[i].owner, c, ss[i].pending[c]);
  }
}
