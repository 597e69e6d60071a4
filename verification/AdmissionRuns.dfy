/** Theorems over whole runs of the admission system. */
module AdmissionRuns {
  import opened Common
  import opened ClientCalls
  import CallProtocol
  import opened Admission
  import opened AdmissionInvariant

  // ---- Whole runs ----

  ghost predicate IsRun(ss: seq<Sys>, es: seq<Event>) {
    && |ss| == |es| + 1
    && IsInit(ss[0])
    && forall i | 0 <= i < |es| :: StepAt(ss, es, i)
  }

  ghost predicate StepAt(ss: seq<Sys>, es: seq<Event>, i: nat)
    requires i < |es| && |ss| == |es| + 1
  {
    Next(ss[i], es[i], ss[i + 1])
  }

  lemma InitHolds(s: Sys)
    requires IsInit(s)
    ensures Inv(s)
  {
    assert OwnCalls(s) == {};
    assert StartsWith(s.pending, Bounded) == {} && WaitsWith(s.pending, Bounded) == {};
    forall o ensures CountExact(s.net.reg, o) {
      assert CallsOf(s.net.reg.calls, o) == {};
    }
  }

  lemma InvStep(ss: seq<Sys>, es: seq<Event>, i: nat)
    requires IsRun(ss, es) && 0 < i <= |es| && Inv(ss[i - 1])
    ensures Inv(ss[i])
  {
    assert StepAt(ss, es, i - 1);
    StepKeepsInv(ss[i - 1], es[i - 1], ss[i]);
  }

  lemma {:induction false} InvHolds(ss: seq<Sys>, es: seq<Event>, i: nat)
    requires IsRun(ss, es) && i <= |es|
    ensures Inv(ss[i])
  {
    if i == 0 {
      InitHolds(ss[i]);
    } else {
      InvHolds(ss, es, i - 1);
      InvStep(ss, es, i);
    }
  }

  /** At every moment of every run: the owner's registered calls and retained
      handles stay within the in-flight ceiling, its distinct pending starts
      and waits within theirs, and two pending starts with one request id are
      the same request up to the RPC timeout. */
  lemma LimitsHold(ss: seq<Sys>, es: seq<Event>, i: nat)
    requires IsRun(ss, es) && i <= |es|
    ensures |OwnCalls(ss[i])| <= ss[i].limits.inFlight && |ss[i].pending| <= ss[i].limits.inFlight
    ensures |StartIds(ss[i].pending)| <= ss[i].limits.starts && |Waits(ss[i].pending)| <= ss[i].limits.waits
    ensures forall c, d ::
              c in ss[i].pending && d in ss[i].pending && ss[i].pending[c].StartScope? && ss[i].pending[d].StartScope?
              && ss[i].pending[c].start.requestId == ss[i].pending[d].start.requestId
              ==> SameStartRequest(ss[i].pending[c].start, ss[i].pending[d].start)
  {
    InvHolds(ss, es, i);
    ClassLimitsMean(ss[i].pending, ss[i].limits, ScopeOf(ss[i].phase));
  }

  lemma ClassLimitsMean(pending: map<nat, Scope>, limits: Limits, scope: Scope)
    requires Fits(pending, limits, scope) && StartsAgree(pending)
    ensures |StartIds(pending)| <= limits.starts && |Waits(pending)| <= limits.waits
    ensures forall c, d ::
              c in pending && d in pending && pending[c].StartScope? && pending[d].StartScope?
              && pending[c].start.requestId == pending[d].start.requestId
              ==> SameStartRequest(pending[c].start, pending[d].start)
  {
    DroppedScope(pending, limits, scope);
    assert StartsWith(pending, Bounded) == StartIds(pending);
    assert WaitsWith(pending, Bounded) == Waits(pending);
  }

  predicate HasSeen(phase: Phase) {
    phase.Consulted? || phase.Scoped? || phase.Reaped?
  }

  lemma SeenStep(s: Sys, ev: Event)
    requires Enabled(s, ev) && HasSeen(PhaseAfter(s, ev))
    ensures LimitsAfter(s, ev) == s.limits
    ensures if ev.Consult? then PhaseAfter(s, ev).seen == OwnCalls(s)
            else HasSeen(s.phase) && PhaseAfter(s, ev).seen == s.phase.seen && !ev.Prune?
  {
  }

  lemma RunSeen(ss: seq<Sys>, es: seq<Event>, i: nat)
    requires IsRun(ss, es) && i < |es| && HasSeen(ss[i + 1].phase)
    ensures ss[i + 1].limits == ss[i].limits
    ensures es[i].Consult? ==> ss[i + 1].phase.seen == OwnCalls(ss[i])
    ensures !es[i].Consult? ==> HasSeen(ss[i].phase) && ss[i + 1].phase.seen == ss[i].phase.seen && !es[i].Prune?
  {
    assert StepAt(ss, es, i);
    SeenStep(ss[i], es[i]);
  }

  /** Where the registry was consulted for the submission under way. */
  lemma {:induction false} SeenHasSource(ss: seq<Sys>, es: seq<Event>, i: nat) returns (k: nat)
    requires IsRun(ss, es) && i <= |es| && HasSeen(ss[i].phase)
    ensures k < i && es[k] == Consult && ss[i].phase.seen == OwnCalls(ss[k])
    ensures ss[k].limits == ss[i].limits && forall m | k < m < i :: !es[m].Prune?
  {
    assert i > 0;
    RunSeen(ss, es, i - 1);
    if es[i - 1].Consult? {
      k := i - 1;
    } else {
      k := SeenHasSource(ss, es, i - 1);
    }
  }

  lemma CeilingStep(ss: seq<Sys>, es: seq<Event>, i: nat)
    requires IsRun(ss, es) && i < |es| && es[i] == CheckCeiling
    ensures ss[i].phase.Reaped? && (ss[i + 1].phase.Idle? ==> OverCeiling(ss[i]))
  {
    assert StepAt(ss, es, i);
  }

  lemma CeilingFacts(ss: seq<Sys>, es: seq<Event>, i: nat)
    requires IsRun(ss, es) && i <= |es| && ss[i].phase.Reaped?
    ensures RegisteredCount(ss[i].net.reg, ss[i].owner) == |OwnCalls(ss[i])| <= ss[i].limits.inFlight
    ensures InFlight(ss[i].pending) <= ss[i].phase.seen && |ss[i].phase.seen| <= ss[i].limits.inFlight
  {
    InvHolds(ss, es, i);
    CountIsNumberOfCalls(ss[i].net.reg, ss[i].owner);
  }

  /** A refusal at the ceiling is always justified: at one of the two moments
      this submission read the registry, the owner had exactly `inFlight` calls
      registered. Calls already read or released never cause it, however many
      of their tasks still run. */
  lemma RefusalIsJustified(ss: seq<Sys>, es: seq<Event>, i: nat) returns (k: nat)
    requires IsRun(ss, es) && i < |es| && es[i] == CheckCeiling && ss[i + 1].phase.Idle?
    ensures k <= i && |OwnCalls(ss[k])| == ss[i].limits.inFlight
    ensures k == i || (es[k] == Consult && forall m | k < m < i :: !es[m].Prune?)
  {
    CeilingStep(ss, es, i);
    CeilingFacts(ss, es, i);
    if |OwnCalls(ss[i])| >= ss[i].limits.inFlight {
      k := i;
    } else {
      k := SeenHasSource(ss, es, i);
      SubsetSize(InFlight(ss[i].pending), ss[i].phase.seen);
    }
  }

  /** No submitted-call task is detached: the owner holds a handle of each of
      its unfinished tasks at every moment, and when the client is dropped none
      is left. */
  lemma NoTaskIsDetached(ss: seq<Sys>, es: seq<Event>, i: nat, c: nat)
    requires IsRun(ss, es) && i <= |es|
    requires c in ss[i].net.running && CallProtocol.IssuedTo(ss[i].net, c, ss[i].owner)
    ensures HasHandle(ss[i], c) && ss[i].connected
  {
    InvHolds(ss, es, i);
  }

  /** Nobody sleeps on a call that no task will finish: the guard of the call
      is inside an unfinished task whose handle the owner holds, or with the
      submission that is about to spawn it. */
  lemma SleeperIsServed(ss: seq<Sys>, es: seq<Event>, i: nat, t: nat, c: nat)
    requires IsRun(ss, es) && i <= |es|
    requires t in ss[i].net.threads && ss[i].net.threads[t] == CallProtocol.Asleep(ss[i].owner, c)
    ensures c in ss[i].net.slots && ss[i].net.slots[c].Pending? && c in ss[i].net.guards && ss[i].connected
    ensures (c in ss[i].net.running && HasHandle(ss[i], c)) || (ss[i].phase.Inserted? && ss[i].phase.call == c)
  {
    InvHolds(ss, es, i);
    assert CallProtocol.OpSound(ss[i].net, ss[i].net.threads[t]);
    assert GuardHeld(ss[i].net, ss[i].phase, c);
  }

  /** Without a connection the owner holds nothing and reports the defaults. */
  lemma DisconnectedIsEmpty(ss: seq<Sys>, es: seq<Event>, i: nat)
    requires IsRun(ss, es) && i <= |es| && !ss[i].connected
    ensures ss[i].pending == map[] && ss[i].limits == DEFAULT_LIMITS && OwnCalls(ss[i]) == {}
  {
    InvHolds(ss, es, i);
  }
}
