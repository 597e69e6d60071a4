/** What every step of the call protocol keeps. */
module CallInvariant {
  import opened Common
  import opened ClientCalls
  import opened CallProtocol

  predicate AllocatesId(e: Event) {
    e.FetchId? || e.Insert? || e.InsertFails?
  }

  /** An insertion uses an identifier that no slot has. */
  predicate InsertsNew(s: State, e: Event) {
    e.Insert? && e.thread in s.threads && s.threads[e.thread].Registering? ==> s.threads[e.thread].call !in s.slots
  }

  /** A step that writes an existing slot writes one that exists. */
  predicate WritesKnown(s: State, e: Event) {
    match e
    case Publish(call, _) => call in s.slots
    case Close(_, call) => call in s.slots
    case Settle(t) => t in s.threads && s.threads[t].Looking? ==> s.threads[t].call in s.slots
    case _ => true
  }

  lemma StepWritesKnown(s: State, e: Event)
    requires EntriesHaveSlots(s) && OpsSound(s) && Enabled(s, e)
    ensures WritesKnown(s, e)
  {
    if e.Close? || e.Settle? {
      assert OpSound(s, s.threads[e.thread]);
    }
  }

  // ---- Threads ----

  predicate Acts(e: Event, t: nat) {
    !(e.Spawn? || e.Attach? || e.Publish? || e.TaskEnds?) && e.thread == t
  }

  /** What a step may do to the operation of a thread that does not take it. */
  predicate StaysOrWakes(before: Op, after: Op) {
    after == before || (before.Asleep? && after == Looking(before.owner, before.call))
  }

  lemma OtherThreads(s: State, e: Event, t: nat)
    requires Enabled(s, e) && !Acts(e, t)
    ensures t in ThreadsAfter(s, e) <==> t in s.threads
    ensures t in s.threads ==> StaysOrWakes(s.threads[t], ThreadsAfter(s, e)[t])
  {
  }

  // ---- Identifiers ----

  lemma SlotKeysStay(s: State, e: Event)
    requires Enabled(s, e) && WritesKnown(s, e) && !e.Insert?
    ensures SlotsAfter(s, e).Keys == s.slots.Keys
  {
  }

  lemma OnlyFetchRegisters(s: State, e: Event, t: nat)
    requires Enabled(s, e) && t in ThreadsAfter(s, e) && ThreadsAfter(s, e)[t].Registering?
    ensures (t in s.threads && s.threads[t] == ThreadsAfter(s, e)[t])
         || (e == FetchId(t, ThreadsAfter(s, e)[t].owner) && ThreadsAfter(s, e)[t].call == s.nextCall)
  {
    if !Acts(e, t) {
      OtherThreads(s, e, t);
    }
  }

  /** Apart from the three steps of `register`, no step issues an identifier. */
  lemma OnlyRegisterIssues(s: State, e: Event)
    requires WritesKnown(s, e) && Step(s, e).Some? && !AllocatesId(e)
    ensures var s' := Step(s, e).value;
            s'.slots.Keys == s.slots.Keys && s'.owners == s.owners && s'.nextCall == s.nextCall
    ensures var s' := Step(s, e).value;
            forall t <- s'.threads :: s'.threads[t].Registering? ==> t in s.threads && s.threads[t] == s'.threads[t]
  {
    SlotKeysStay(s, e);
    forall t <- ThreadsAfter(s, e) | ThreadsAfter(s, e)[t].Registering? ensures t in s.threads && s.threads[t] == ThreadsAfter(s, e)[t] {
      OnlyFetchRegisters(s, e, t);
    }
  }

  lemma FetchKeepsFresh(s: State, t: nat, owner: nat)
    requires Fresh(s) && Step(s, FetchId(t, owner)).Some?
    ensures Fresh(Step(s, FetchId(t, owner)).value)
  {
  }

  lemma InsertKeepsFresh(s: State, t: nat)
    requires Fresh(s) && Step(s, Insert(t)).Some?
    ensures Fresh(Step(s, Insert(t)).value)
  {
  }

  lemma StepKeepsFresh(s: State, e: Event)
    requires Fresh(s) && WritesKnown(s, e) && Step(s, e).Some?
    ensures Fresh(Step(s, e).value)
  {
    match e
    case FetchId(t, owner) => FetchKeepsFresh(s, t, owner);
    case Insert(t) => InsertKeepsFresh(s, t);
    case InsertFails(t) => assert ThreadsAfter(s, e) == s.threads - {t};
    case _ => OnlyRegisterIssues(s, e);
  }

  // ---- Registry entries ----

  /** Apart from an insertion, no step registers, guards or starts anything new. */
  lemma OnlyInsertRegisters(s: State, e: Event, c: nat)
    requires Enabled(s, e) && !e.Insert? && c in RegAfter(s, e).calls
    ensures c in s.reg.calls && RegAfter(s, e).calls[c].owner == s.reg.calls[c].owner
  {
  }

  lemma GuardsShrink(s: State, e: Event)
    requires Enabled(s, e) && !e.Insert?
    ensures GuardsAfter(s, e) <= s.guards && RunningAfter(s, e) <= s.running + s.guards
  {
  }

  lemma InsertKeepsEntries(s: State, e: Event)
    requires EntriesHaveSlots(s) && InsertsNew(s, e) && Step(s, e).Some? && e.Insert?
    ensures EntriesHaveSlots(Step(s, e).value)
  {
  }

  lemma StepKeepsEntries(s: State, e: Event)
    requires EntriesHaveSlots(s) && WritesKnown(s, e) && InsertsNew(s, e) && Step(s, e).Some?
    ensures EntriesHaveSlots(Step(s, e).value)
  {
    if e.Insert? {
      InsertKeepsEntries(s, e);
    } else {
      var s' := Step(s, e).value;
      GuardsShrink(s, e);
      SlotKeysStay(s, e);
      forall c <- s'.reg.calls ensures IssuedTo(s', c, s'.reg.calls[c].owner) {
        OnlyInsertRegisters(s, e, c);
        assert IssuedTo(s, c, s.reg.calls[c].owner);
      }
    }
  }

  lemma StepKeepsCounts(s: State, e: Event)
    requires CountsExact(s.reg) && Enabled(s, e)
    requires e.Insert? ==> s.threads[e.thread].call !in s.reg.calls
    ensures CountsExact(RegAfter(s, e))
  {
    match e
    case Insert(t) => RegisteredKeepsCounts(s.reg, s.threads[t].call, s.threads[t].owner);
    case Attach(owner, call) => AttachedKeepsCounts(s.reg, call, owner);
    case Release(_, owner, call) => RemovedKeepsCounts(s.reg, call, owner);
    case ReleaseOwner(_, owner) => OwnerReleasedKeepsCounts(s.reg, owner);
    case Retire(t) => RemovedKeepsCounts(s.reg, s.threads[t].call, s.threads[t].owner);
    case _ =>
  }

  // ---- Slots and owners ----

  lemma SlotFrame(s: State, e: Event, c: nat)
    requires Enabled(s, e) && InsertsNew(s, e) && c in s.slots
    ensures c in SlotsAfter(s, e) && (s.slots[c].Closed? ==> SlotsAfter(s, e)[c].Closed?)
    ensures !e.Insert? || s.threads[e.thread].call != c
  {
  }

  /** Every step only adds calls, moves slots forward, and unregisters. */
  lemma StepFrame(s: State, e: Event, c: nat)
    requires InsertsNew(s, e) && Step(s, e).Some? && c in s.slots && c in s.owners
    ensures var s' := Step(s, e).value;
            && c in s'.slots && c in s'.owners && s'.owners[c] == s.owners[c]
            && (s.slots[c].Closed? ==> s'.slots[c].Closed?)
            && (c in s'.reg.calls ==> c in s.reg.calls)
  {
    SlotFrame(s, e, c);
    if !e.Insert? && c in RegAfter(s, e).calls {
      OnlyInsertRegisters(s, e, c);
    }
  }

  // ---- Operations in flight ----

  lemma AsleepStaysOnPending(s: State, e: Event, t: nat)
    requires Enabled(s, e) && t in s.threads && t in ThreadsAfter(s, e) && s.threads[t].Asleep?
    requires Slot(s, s.threads[t].call).Pending? && ThreadsAfter(s, e)[t] == s.threads[t]
    ensures s.threads[t].call in SlotsAfter(s, e) && SlotsAfter(s, e)[s.threads[t].call].Pending?
  {
  }

  /** A step keeps what other threads rely on. */
  lemma OtherOpStaysSound(s: State, e: Event, t: nat)
    requires InsertsNew(s, e) && Step(s, e).Some? && t in s.threads && OpSound(s, s.threads[t])
    requires t in ThreadsAfter(s, e) && ThreadsAfter(s, e)[t] == s.threads[t]
    ensures OpSound(Step(s, e).value, s.threads[t])
  {
    var s' := Step(s, e).value;
    match s.threads[t]
    case Registering(_, _) =>
    case Closing(owner, todo, abort) =>
      forall c <- todo + abort ensures IssuedTo(s', c, owner) && (c in todo ==> c !in s'.reg.calls) {
        StepFrame(s, e, c);
      }
    case Looking(_, c) => StepFrame(s, e, c);
    case Asleep(_, c) => StepFrame(s, e, c); AsleepStaysOnPending(s, e, t);
    case Settled(_, c, _) => StepFrame(s, e, c);
  }

  lemma ReleasingOpIsSound(s: State, e: Event, t: nat)
    requires EntriesHaveSlots(s) && Step(s, e).Some? && t in ThreadsAfter(s, e) && (e.Release? || e.ReleaseOwner? || e.Close?)
    requires t in s.threads ==> OpSound(s, s.threads[t])
    requires t !in s.threads || ThreadsAfter(s, e)[t] != s.threads[t]
    ensures OpSound(Step(s, e).value, ThreadsAfter(s, e)[t])
  {
    var s' := Step(s, e).value;
    if e.Release? || e.ReleaseOwner? {
      forall c <- s'.threads[t].todo + s'.threads[t].abort ensures IssuedTo(s', c, e.owner) && c !in s'.reg.calls {
        assert IssuedTo(s, c, s.reg.calls[c].owner);
      }
    }
  }

  lemma AwaitingOpIsSound(s: State, e: Event, t: nat)
    requires EntriesHaveSlots(s) && Step(s, e).Some? && t in ThreadsAfter(s, e) && !(e.Release? || e.ReleaseOwner? || e.Close?)
    requires t in s.threads ==> OpSound(s, s.threads[t])
    requires t !in s.threads || ThreadsAfter(s, e)[t] != s.threads[t]
    ensures OpSound(Step(s, e).value, ThreadsAfter(s, e)[t])
  {
    if e.Lookup? {
      assert IssuedTo(s, e.call, s.reg.calls[e.call].owner);
    }
  }

  lemma StepKeepsOps(s: State, e: Event)
    requires EntriesHaveSlots(s) && OpsSound(s) && InsertsNew(s, e) && Step(s, e).Some?
    ensures OpsSound(Step(s, e).value)
  {
    var s' := Step(s, e).value;
    forall t <- s'.threads ensures OpSound(s', s'.threads[t]) {
      assert t in s.threads ==> OpSound(s, s.threads[t]);
      if t in s.threads && s'.threads[t] == s.threads[t] {
        OtherOpStaysSound(s, e, t);
      } else if e.Release? || e.ReleaseOwner? || e.Close? {
        ReleasingOpIsSound(s, e, t);
      } else {
        AwaitingOpIsSound(s, e, t);
      }
    }
  }

  // ---- Pending slots ----

  ghost predicate Held(s: State, c: nat) {
    c in s.guards && (c in s.reg.calls || BeingClosed(s, c))
  }

  lemma ClosingStays(s: State, e: Event, t: nat, c: nat)
    requires Enabled(s, e) && t in s.threads && s.threads[t].Closing? && c in s.threads[t].todo && e != Close(t, c)
    ensures t in ThreadsAfter(s, e) && ThreadsAfter(s, e)[t].Closing? && c in ThreadsAfter(s, e)[t].todo
  {
    if !Acts(e, t) {
      OtherThreads(s, e, t);
    }
  }

  lemma UnregisteringCloses(s: State, e: Event, c: nat)
    requires Enabled(s, e) && c in s.reg.calls && c !in RegAfter(s, e).calls && !e.Retire?
    ensures (e.Release? || e.ReleaseOwner?) && e.thread in ThreadsAfter(s, e)
    ensures ThreadsAfter(s, e)[e.thread].Closing? && c in ThreadsAfter(s, e)[e.thread].todo
  {
  }

  lemma RetireUnregistersItsCall(s: State, e: Event, c: nat)
    requires Enabled(s, e) && e.Retire? && c in s.reg.calls && s.threads[e.thread].call != c
    ensures c in RegAfter(s, e).calls
  {
  }

  lemma StillGuarded(s: State, e: Event, c: nat)
    requires Enabled(s, e) && c in s.guards && Slot(s, c).Pending? && c in SlotsAfter(s, e) && SlotsAfter(s, e)[c].Pending?
    ensures c in GuardsAfter(s, e) && forall t :: e != Close(t, c)
  {
  }

  /** A retiring await has closed its slot. */
  predicate RetiresClosed(s: State, e: Event) {
    e.Retire? && e.thread in s.threads && s.threads[e.thread].Settled? ==> Slot(s, s.threads[e.thread].call).Closed?
  }

  lemma StillHeld(s: State, e: Event, c: nat)
    requires Step(s, e).Some? && RetiresClosed(s, e) && c in s.slots && s.slots[c].Pending? && Held(s, c)
    requires c in SlotsAfter(s, e) && SlotsAfter(s, e)[c].Pending?
    ensures Held(Step(s, e).value, c)
  {
    StillGuarded(s, e, c);
    if c !in s.reg.calls {
      var t :| t in s.threads && s.threads[t].Closing? && c in s.threads[t].todo;
      ClosingStays(s, e, t, c);
    } else if e.Retire? {
      RetireUnregistersItsCall(s, e, c);
    } else if c !in RegAfter(s, e).calls {
      UnregisteringCloses(s, e, c);
    }
  }

  lemma NewlyPending(s: State, e: Event, c: nat)
    requires Step(s, e).Some? && c in SlotsAfter(s, e) && SlotsAfter(s, e)[c].Pending? && !Slot(s, c).Pending?
    ensures e.Insert? && c in GuardsAfter(s, e) && c in RegAfter(s, e).calls
  {
  }

  lemma StepKeepsHeld(s: State, e: Event)
    requires PendingIsHeld(s) && RetiresClosed(s, e) && Step(s, e).Some?
    ensures PendingIsHeld(Step(s, e).value)
  {
    var s' := Step(s, e).value;
    forall c <- s'.slots | s'.slots[c].Pending? ensures Held(s', c) {
      if Slot(s, c).Pending? {
        StillHeld(s, e, c);
      } else {
        NewlyPending(s, e, c);
      }
    }
  }

  // ---- All together ----

  lemma FreshInserts(s: State, e: Event)
    requires Fresh(s)
    ensures InsertsNew(s, e)
  {
  }

  lemma RetireFindsClosed(s: State, e: Event)
    requires OpsSound(s)
    ensures RetiresClosed(s, e)
  {
    if e.Retire? && e.thread in s.threads {
      assert OpSound(s, s.threads[e.thread]);
    }
  }

  lemma NewIsUnregistered(s: State, e: Event)
    requires EntriesHaveSlots(s) && InsertsNew(s, e) && Enabled(s, e) && e.Insert?
    ensures s.threads[e.thread].call !in s.reg.calls
  {
    var c := s.threads[e.thread].call;
    assert c in s.reg.calls ==> IssuedTo(s, c, s.reg.calls[c].owner);
  }

  lemma StepKeepsInv(s: State, e: Event)
    requires Inv(s) && Step(s, e).Some?
    ensures Inv(Step(s, e).value)
  {
    FreshInserts(s, e);
    StepWritesKnown(s, e);
    if e.Insert? {
      NewIsUnregistered(s, e);
    }
    StepKeepsFresh(s, e);
    StepKeepsEntries(s, e);
    StepKeepsCounts(s, e);
    StepKeepsOps(s, e);
    RetireFindsClosed(s, e);
    StepKeepsHeld(s, e);
  }

  /** Which tasks have been told to abort does not enter the invariant. */
  lemma AbortedIsFree(s: State, aborted: set<nat>)
    requires Inv(s)
    ensures Inv(s.(aborted := aborted))
  {
    var s' := s.(aborted := aborted);
    forall t <- s'.threads ensures OpSound(s', s'.threads[t]) {
      assert OpSound(s, s.threads[t]);
    }
    forall c <- s'.slots | s'.slots[c].Pending? && c !in s'.reg.calls ensures BeingClosed(s', c) {
      assert BeingClosed(s, c);
    }
  }
}
