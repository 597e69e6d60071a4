/** The owner's steps are never stuck: a submission or disconnect under way can
    go on, or waits for a task that was told to end. */
module AdmissionProgress {
  import opened Common
  import opened ClientCalls
  import CallProtocol
  import CallInvariant
  import opened Admission
  import opened AdmissionInvariant
  import AdmissionRuns
  import AdmissionHandles

  /** A registered call waits for its spawn with its guard, and a disconnect is
      inside its release. */
  predicate InStep(net: Net, thread: nat, phase: Phase) {
    && (phase.Inserted? ==> phase.call in net.guards && phase.call !in net.running)
    && (phase.Unregistering? ==> thread in net.threads && net.threads[thread].Closing?)
  }

  // ---- Every step ----

  lemma GuardStays(net: Net, e: CallProtocol.Event, c: nat)
    requires CallProtocol.Enabled(net, e) && c in net.guards && c !in net.running
    requires (e.Publish? ==> e.call != c) && e != CallProtocol.Spawn(c)
    ensures c in CallProtocol.GuardsAfter(net, e) && c !in CallProtocol.RunningAfter(net, e)
  {
  }

  lemma ClosingStays(net: Net, e: CallProtocol.Event, t: nat)
    requires CallProtocol.Enabled(net, e) && !CallInvariant.Acts(e, t) && t in net.threads && net.threads[t].Closing?
    ensures t in CallProtocol.ThreadsAfter(net, e) && CallProtocol.ThreadsAfter(net, e)[t].Closing?
  {
    CallInvariant.OtherThreads(net, e, t);
  }

  lemma OthersKeepGuard(s: Sys, e: CallProtocol.Event, c: nat)
    requires CallProtocol.Enabled(s.net, e) && Foreign(s, e) && s.phase.Inserted? && s.phase.call == c
    requires c in s.net.guards && c !in s.net.running && CallProtocol.IssuedTo(s.net, c, s.owner)
    ensures c in CallProtocol.GuardsAfter(s.net, e) && c !in CallProtocol.RunningAfter(s.net, e)
  {
    GuardStays(s.net, e, c);
  }

  lemma OthersKeepClosing(s: Sys, e: CallProtocol.Event)
    requires CallProtocol.Enabled(s.net, e) && Foreign(s, e) && s.thread in s.net.threads && s.net.threads[s.thread].Closing?
    ensures s.thread in CallProtocol.ThreadsAfter(s.net, e) && CallProtocol.ThreadsAfter(s.net, e)[s.thread].Closing?
  {
    ClosingStays(s.net, e, s.thread);
  }

  lemma OthersKeepInStep(s: Sys, e: CallProtocol.Event)
    requires Enabled(s, Env(e)) && InStep(s.net, s.thread, s.phase)
    requires s.phase.Inserted? ==> CallProtocol.IssuedTo(s.net, s.phase.call, s.owner)
    ensures InStep(NetAfter(s, Env(e)), s.thread, s.phase)
  {
    if s.phase.Inserted? {
      OthersKeepGuard(s, e, s.phase.call);
    } else if s.phase.Unregistering? {
      OthersKeepClosing(s, e);
    }
  }

  lemma InsertedInStep(s: Sys)
    requires Enabled(s, InsertEntry)
    requires forall c | Inserts(s, InsertEntry, c) :: c !in s.net.running
    ensures InStep(NetAfter(s, InsertEntry), s.thread, PhaseAfter(s, InsertEntry))
  {
    assert Inserts(s, InsertEntry, s.net.threads[s.thread].call);
  }

  lemma ReleasingInStep(s: Sys, ev: Event)
    requires Enabled(s, ev) && (ev.BeginDisconnect? || ev.CloseOne?)
    ensures InStep(NetAfter(s, ev), s.thread, PhaseAfter(s, ev))
  {
    OwnThreadMoved(s, ev);
  }

  lemma OwnStepKeepsInStep(s: Sys, ev: Event)
    requires Enabled(s, ev) && !ev.Env? && InStep(s.net, s.thread, s.phase)
    requires forall c | Inserts(s, ev, c) :: c !in s.net.running
    ensures InStep(NetAfter(s, ev), s.thread, PhaseAfter(s, ev))
  {
    if ev.InsertEntry? {
      InsertedInStep(s);
    } else if ev.BeginDisconnect? || ev.CloseOne? {
      ReleasingInStep(s, ev);
    }
  }

  lemma StepKeepsInStep(s: Sys, ev: Event, s': Sys)
    requires Inv(s) && Next(s, ev, s') && InStep(s.net, s.thread, s.phase)
    ensures InStep(s'.net, s'.thread, s'.phase)
  {
    NetSound(s, ev);
    if ev.Env? {
      OthersKeepInStep(s, ev.e);
    } else {
      OwnStepKeepsInStep(s, ev);
    }
  }

  lemma RunStepKeeps(ss: seq<Sys>, es: seq<Event>, i: nat)
    requires AdmissionRuns.IsRun(ss, es) && 0 < i <= |es| && Inv(ss[i - 1])
    requires InStep(ss[i - 1].net, ss[i - 1].thread, ss[i - 1].phase)
    ensures InStep(ss[i].net, ss[i].thread, ss[i].phase)
  {
    assert AdmissionRuns.StepAt(ss, es, i - 1);
    StepKeepsInStep(ss[i - 1], es[i - 1], ss[i]);
  }

  lemma InitInStep(s: Sys)
    requires IsInit(s)
    ensures InStep(s.net, s.thread, s.phase)
  {
  }

  lemma {:induction false} InStepHolds(ss: seq<Sys>, es: seq<Event>, i: nat)
    requires AdmissionRuns.IsRun(ss, es) && i <= |es|
    ensures InStep(ss[i].net, ss[i].thread, ss[i].phase)
  {
    if i == 0 {
      InitInStep(ss[i]);
    } else {
      InStepHolds(ss, es, i - 1);
      AdmissionRuns.InvHolds(ss, es, i - 1);
      RunStepKeeps(ss, es, i);
    }
  }

  // ---- Progress ----

  /** The owner's next step in each phase of a submission or disconnect. */
  predicate GoesOnWith(s: Sys, ev: Event) {
    match s.phase
    case Idle => false
    case Pruned(_) => ev == Consult
    case Consulted(_, _) => ev == CheckScope
    case Scoped(_, _) => ev == Reap
    case Reaped(_, _) => ev == CheckCeiling
    case Admitted(_) => ev == Fetch
    case Allocated(_) => ev == InsertEntry
    case Inserted(_, _) => ev == SpawnTask
    case Spawned(_, _) => ev == Store
    case Unregistering => ev.CloseOne? || ev == Drain
    case Joining(_) => ev == Joined
  }

  /** The task the owner waits for, if its next step is a join. */
  predicate WaitsFor(s: Sys, c: nat) {
    && c in s.net.running
    && ((s.phase.Joining? && c in s.phase.tasks) || (s.phase.Scoped? && c in ReleasedCalls(s)))
  }

  lemma CheckGoesOn(s: Sys) returns (ev: Event, c: nat)
    requires s.phase.Pruned? || s.phase.Consulted? || s.phase.Scoped? || s.phase.Reaped? || s.phase.Joining?
    ensures GoesOnWith(s, ev) && (Enabled(s, ev) || WaitsFor(s, c))
  {
    c := 0;
    match s.phase
    case Pruned(_) => ev := Consult;
    case Consulted(_, _) => ev := CheckScope;
    case Reaped(_, _) => ev := CheckCeiling;
    case Scoped(_, _) =>
      ev := Reap;
      if d :| d in ReleasedCalls(s) && d in s.net.running {
        c := d;
      }
    case Joining(tasks) =>
      ev := Joined;
      if d :| d in tasks && d in s.net.running {
        c := d;
      }
  }

  lemma CallGoesOn(s: Sys) returns (ev: Event)
    requires ThreadsFit(s) && InStep(s.net, s.thread, s.phase)
    requires s.phase.Spawned? ==> CallProtocol.IssuedTo(s.net, s.phase.call, s.owner)
    requires s.phase.Admitted? || s.phase.Allocated? || s.phase.Inserted? || s.phase.Spawned?
    ensures GoesOnWith(s, ev) && Enabled(s, ev)
  {
    match s.phase
    case Admitted(_) => ev := Fetch;
    case Allocated(_) => ev := InsertEntry;
    case Inserted(_, _) => ev := SpawnTask;
    case Spawned(_, _) => ev := Store;
  }

  lemma ReleaseGoesOn(s: Sys) returns (ev: Event)
    requires InStep(s.net, s.thread, s.phase) && s.phase.Unregistering?
    ensures GoesOnWith(s, ev) && Enabled(s, ev)
  {
    var todo := s.net.threads[s.thread].todo;
    if c :| c in todo {
      ev := CloseOne(c);
    } else {
      ev := Drain;
    }
  }

  lemma BusyGoesOn(s: Sys) returns (ev: Event, c: nat)
    requires HandlesInv(s) && InStep(s.net, s.thread, s.phase) && !s.phase.Idle?
    ensures GoesOnWith(s, ev) && (Enabled(s, ev) || WaitsFor(s, c))
  {
    c := 0;
    if s.phase.Unregistering? {
      ev := ReleaseGoesOn(s);
    } else if s.phase.Admitted? || s.phase.Allocated? || s.phase.Inserted? || s.phase.Spawned? {
      ev := CallGoesOn(s);
    } else {
      ev, c := CheckGoesOn(s);
    }
  }

  /** In every run, at every moment: a submission or disconnect under way can
      take its next step, or waits for a running task that was told to end. */
  lemma OwnerIsNeverStuck(ss: seq<Sys>, es: seq<Event>, i: nat) returns (ev: Event, c: nat)
    requires AdmissionRuns.IsRun(ss, es) && i <= |es| && !ss[i].phase.Idle?
    ensures GoesOnWith(ss[i], ev)
    ensures Step(ss[i], ev).Some? || (WaitsFor(ss[i], c) && c in ss[i].net.aborted)
  {
    RunInStep(ss, es, i);
    ev, c := BusyGoesOn(ss[i]);
    if WaitsFor(ss[i], c) {
      AdmissionHandles.JoinedTasksWereTold(ss, es, i, c);
    }
  }

  lemma RunInStep(ss: seq<Sys>, es: seq<Event>, i: nat)
    requires AdmissionRuns.IsRun(ss, es) && i <= |es|
    ensures HandlesInv(ss[i]) && InStep(ss[i].net, ss[i].thread, ss[i].phase)
  {
    AdmissionRuns.InvHolds(ss, es, i);
    InStepHolds(ss, es, i);
  }

  lemma IdleThreadIsFree(ss: seq<Sys>, es: seq<Event>, i: nat)
    requires AdmissionRuns.IsRun(ss, es) && i <= |es| && ss[i].phase.Idle?
    ensures ss[i].thread !in ss[i].net.threads
  {
    AdmissionRuns.InvHolds(ss, es, i);
  }

  /** An idle owner can submit and disconnect over a connection, and connect
      without one. */
  lemma IdleOwnerCanStart(ss: seq<Sys>, es: seq<Event>, i: nat, rpc: Rpc, limits: Limits)
    requires AdmissionRuns.IsRun(ss, es) && i <= |es| && ss[i].phase.Idle?
    ensures Enabled(ss[i], BeginDisconnect) <==> ss[i].connected
    ensures Enabled(ss[i], Prune(rpc, {})) <==> ss[i].connected
    ensures Enabled(ss[i], Connect(limits)) <==> !ss[i].connected
  {
    IdleThreadIsFree(ss, es, i);
  }

  // ---- What the owner holds ----

  /** A handle is there after a step iff the step stored it, or it was there and
      its task was not pruned as finished, reaped as released, or drained. */
  lemma HandlesMove(ss: seq<Sys>, es: seq<Event>, i: nat, c: nat)
    requires AdmissionRuns.IsRun(ss, es) && i < |es|
    ensures c in ss[i + 1].pending <==>
              || (es[i] == Store && ss[i].phase.Spawned? && ss[i].phase.call == c)
              || (c in ss[i].pending && !(es[i].Prune? && c in es[i].finished) && es[i] != Drain
                  && !(es[i] == Reap && c in ReleasedCalls(ss[i]) && |ss[i].pending| >= ss[i].limits.inFlight))
    ensures es[i].Prune? ==> forall d <- es[i].finished :: d !in ss[i].net.running
  {
    assert AdmissionRuns.StepAt(ss, es, i);
    PendingMoves(ss[i], es[i], c);
  }

  lemma PendingMoves(s: Sys, ev: Event, c: nat)
    requires Enabled(s, ev)
    ensures c in PendingAfter(s, ev) <==>
              || (ev == Store && s.phase.Spawned? && s.phase.call == c)
              || (c in s.pending && !(ev.Prune? && c in ev.finished) && ev != Drain
                  && !(ev == Reap && c in ReleasedCalls(s) && |s.pending| >= s.limits.inFlight))
  {
  }

  lemma LimitsStep(s: Sys, ev: Event)
    requires Enabled(s, ev) && ConnectedAfter(s, ev)
    ensures ev == Connect(LimitsAfter(s, ev)) || (s.connected && s.limits == LimitsAfter(s, ev) && ev != Joined)
  {
  }

  lemma RunLimits(ss: seq<Sys>, es: seq<Event>, i: nat)
    requires AdmissionRuns.IsRun(ss, es) && 0 < i <= |es| && ss[i].connected
    ensures es[i - 1] == Connect(ss[i].limits) || (ss[i - 1].connected && ss[i - 1].limits == ss[i].limits && es[i - 1] != Joined)
  {
    assert AdmissionRuns.StepAt(ss, es, i - 1);
    LimitsStep(ss[i - 1], es[i - 1]);
  }

  /** While there is a connection the limits are the ones it was made with. */
  lemma {:induction false} LimitsAreTheConnections(ss: seq<Sys>, es: seq<Event>, i: nat) returns (k: nat)
    requires AdmissionRuns.IsRun(ss, es) && i <= |es| && ss[i].connected
    ensures k < i && es[k] == Connect(ss[i].limits) && forall m | k < m < i :: es[m] != Joined
  {
    assert i > 0;
    RunLimits(ss, es, i);
    if es[i - 1] == Connect(ss[i].limits) {
      k := i - 1;
    } else {
      k := LimitsAreTheConnections(ss, es, i - 1);
    }
  }
}
