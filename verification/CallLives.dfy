/** Whole lives of a call, taken without interruption from any reachable state:
    nothing of a call that was answered or released stays behind. */
module CallLives {
  import opened Common
  import opened ClientCalls
  import opened CallProtocol
  import opened CallRuns

  /** `ss` are the states that the steps `es` lead through. */
  ghost predicate Path(ss: seq<State>, es: seq<Event>) {
    |ss| == |es| + 1 && forall i | 0 <= i < |es| :: Step(ss[i], es[i]) == Some(ss[i + 1])
  }

  /** A path from `s` to `s'`. */
  ghost predicate Leads(s: State, ss: seq<State>, es: seq<Event>, s': State) {
    Path(ss, es) && ss[0] == s && ss[|es|] == s'
  }

  lemma Begin(s: State) returns (ss: seq<State>, es: seq<Event>)
    ensures Leads(s, ss, es, s)
  {
    ss, es := [s], [];
  }

  lemma Then(s: State, ss: seq<State>, es: seq<Event>, s1: State, e: Event, s2: State) returns (ss': seq<State>, es': seq<Event>)
    requires Leads(s, ss, es, s1) && Step(s1, e) == Some(s2)
    ensures Leads(s, ss', es', s2) && es' == es + [e]
  {
    ss', es' := ss + [s2], es + [e];
  }

  // ---- Progress ----

  /** No thread is ever stuck: outside every operation it can begin any, and
      inside one it can go on. A pending await may sleep or expire, any other
      settles; only a sleeper waits, and it may wake up by itself. */
  lemma ThreadIsNeverStuck(s: State, t: nat, owner: nat, c: nat)
    ensures t !in s.threads ==>
              && Enabled(s, FetchId(t, owner)) && Enabled(s, Release(t, owner, c))
              && Enabled(s, ReleaseOwner(t, owner)) && Enabled(s, Lookup(t, owner, c))
    ensures t in s.threads ==>
              match s.threads[t]
              case Registering(_, _) => Enabled(s, Insert(t)) && Enabled(s, InsertFails(t))
              case Closing(_, todo, _) => (c in todo ==> Enabled(s, Close(t, c))) && (todo == {} ==> Enabled(s, FinishClosing(t)))
              case Looking(_, call) =>
                if Slot(s, call).Pending? then Enabled(s, Sleep(t)) && Enabled(s, Expire(t)) && !Enabled(s, Settle(t))
                else Enabled(s, Settle(t)) && !Enabled(s, Sleep(t)) && !Enabled(s, Expire(t))
              case Asleep(_, _) => Enabled(s, Wake(t))
              case Settled(_, _, _) => Enabled(s, Retire(t))
  {
  }

  // ---- Single steps ----

  /** The state with one more call, registered and not yet spawned. */
  function WithCall(s: State, owner: nat): State {
    var c := s.nextCall;
    s.(nextCall := c + 1, reg := Registered(s.reg, c, owner), slots := s.slots[c := Pending], owners := s.owners[c := owner],
       guards := s.guards + {c}, aborted := s.aborted - {c})
  }

  function Fetched(s: State, t: nat, owner: nat): State {
    s.(nextCall := s.nextCall + 1, threads := s.threads[t := Registering(owner, s.nextCall)])
  }

  lemma FetchStep(s: State, t: nat, owner: nat)
    requires t !in s.threads && s.nextCall < MAX_CALL_ID
    ensures Step(s, FetchId(t, owner)) == Some(Fetched(s, t, owner))
  {
  }

  lemma InsertStep(s: State, t: nat, owner: nat)
    requires t !in s.threads
    ensures Step(Fetched(s, t, owner), Insert(t)) == Some(WithCall(s, owner))
  {
    assert s.threads[t := Registering(owner, s.nextCall)] - {t} == s.threads;
  }

  lemma SpawnStep(s: State, c: nat)
    requires c in s.guards && c !in s.running
    ensures Step(s, Spawn(c)) == Some(s.(running := s.running + {c}))
  {
  }

  lemma AttachStep(s: State, owner: nat, c: nat)
    requires c in s.owners && s.owners[c] == owner && Owns(s.reg, owner, c)
    ensures Step(s, Attach(owner, c)) == Some(s.(reg := Attached(s.reg, c, owner)))
  {
  }

  lemma TaskEndStep(s: State, c: nat)
    requires c in s.running && c !in s.guards
    ensures Step(s, TaskEnds(c)) == Some(s.(running := s.running - {c}))
  {
  }

  lemma LookupStep(s: State, t: nat, owner: nat, c: nat)
    requires t !in s.threads && Owns(s.reg, owner, c)
    ensures Step(s, Lookup(t, owner, c)) == Some(s.(threads := s.threads[t := Looking(owner, c)]))
  {
  }

  lemma NobodyAsleep(threads: map<nat, Op>, c: nat)
    requires forall t <- threads :: !(threads[t].Asleep? && threads[t].call == c)
    ensures Woken(threads, c) == threads
  {
  }

  // ---- Round trips ----

  /** Registering, attaching and removing a call restores the registry. */
  lemma RemovedUndoesRegistered(r: Registry, call: nat, owner: nat)
    requires CountsExact(r) && call !in r.calls
    ensures Removed(Attached(Registered(r, call, owner), call, owner), call, owner) == r
  {
    assert CountExact(r, owner);
    assert (r.calls[call := Entry(owner, false)][call := Entry(owner, true)] - {call}) == r.calls;
    var count := if owner in r.perOwner then r.perOwner[owner] else 0;
    assert Decremented(r.perOwner[owner := count + 1], owner) == r.perOwner;
  }

  lemma FreshIsUnused(s: State)
    requires Inv(s)
    ensures s.nextCall !in s.slots && s.nextCall !in s.guards && s.nextCall !in s.running && s.nextCall !in s.reg.calls
    ensures forall t <- s.threads :: !(s.threads[t].Asleep? && s.threads[t].call == s.nextCall)
  {
    forall t <- s.threads | s.threads[t].Asleep? ensures s.threads[t].call != s.nextCall {
      assert OpSound(s, s.threads[t]);
    }
  }

  /** What a finished call leaves behind: a used identifier and a closed slot. */
  function WithUsed(s: State, owner: nat): State {
    var c := s.nextCall;
    s.(nextCall := c + 1, slots := s.slots[c := Closed], owners := s.owners[c := owner], aborted := s.aborted - {c})
  }

  /** The same state with its newest call ready. */
  function WithReady(s: State, owner: nat, outcome: Operation): State {
    var c := s.nextCall;
    s.(nextCall := c + 1, reg := Attached(Registered(s.reg, c, owner), c, owner), slots := s.slots[c := Ready(outcome)],
       owners := s.owners[c := owner], aborted := s.aborted - {c})
  }

  lemma Completes(s: State, t: nat, owner: nat, outcome: Operation) returns (ss: seq<State>, es: seq<Event>)
    requires Inv(s) && t !in s.threads && s.nextCall < MAX_CALL_ID
    ensures Leads(s, ss, es, WithReady(s, owner, outcome))
  {
    var c := s.nextCall;
    FreshIsUnused(s);
    ss, es := Begin(s);
    FetchStep(s, t, owner);
    ss, es := Then(s, ss, es, s, FetchId(t, owner), Fetched(s, t, owner));
    InsertStep(s, t, owner);
    var s1 := WithCall(s, owner);
    ss, es := Then(s, ss, es, Fetched(s, t, owner), Insert(t), s1);
    ss, es := TaskRuns(s, ss, es, s1, owner, c, outcome);
    assert s1.guards - {c} == s.guards && s1.slots[c := Ready(outcome)] == s.slots[c := Ready(outcome)];
  }

  lemma TaskRuns(s: State, ss: seq<State>, es: seq<Event>, s1: State, owner: nat, c: nat, outcome: Operation)
    returns (ss': seq<State>, es': seq<Event>)
    requires Leads(s, ss, es, s1) && c in s1.guards && c !in s1.running && Owns(s1.reg, owner, c)
    requires c in s1.owners && s1.owners[c] == owner && c in s1.slots && s1.slots[c].Pending?
    requires forall t <- s1.threads :: !(s1.threads[t].Asleep? && s1.threads[t].call == c)
    ensures Leads(s, ss', es',
                  s1.(reg := Attached(s1.reg, c, owner), slots := s1.slots[c := Ready(outcome)], guards := s1.guards - {c}))
  {
    var s2 := s1.(running := s1.running + {c});
    var s3 := s2.(reg := Attached(s2.reg, c, owner));
    var s4 := s3.(slots := s3.slots[c := Ready(outcome)], guards := s3.guards - {c});
    SpawnStep(s1, c);
    ss', es' := Then(s, ss, es, s1, Spawn(c), s2);
    AttachStep(s2, owner, c);
    ss', es' := Then(s, ss', es', s2, Attach(owner, c), s3);
    PublishStep(s3, c, outcome);
    NobodyAsleep(s3.threads, c);
    ss', es' := Then(s, ss', es', s3, Publish(c, outcome), s4);
    TaskEndStep(s4, c);
    assert s4.running - {c} == s1.running;
    ss', es' := Then(s, ss', es', s4, TaskEnds(c), s4.(running := s4.running - {c}));
  }

  /** A call that nobody disturbs is registered, runs, is answered with exactly
      what it published, and leaves registry, guards, tasks and threads as they
      were. */
  lemma UndisturbedCall(s: State, t: nat, owner: nat, outcome: Operation) returns (ss: seq<State>, es: seq<Event>, last: State)
    requires Inv(s) && t !in s.threads && s.nextCall < MAX_CALL_ID
    ensures Leads(s, ss, es, last) && Answer(last, Retire(t)) == Some(outcome)
    ensures Step(last, Retire(t)) == Some(WithUsed(s, owner))
  {
    var c, s1 := s.nextCall, WithReady(s, owner, outcome);
    ss, es := Completes(s, t, owner, outcome);
    ss, es, last := ReadyIsRead(s, ss, es, s1, t, owner, c, outcome);
    FreshIsUnused(s);
    RemovedUndoesRegistered(s.reg, c, owner);
    assert s1.slots[c := Closed] == s.slots[c := Closed];
  }

  lemma ReadyIsRead(s: State, ss: seq<State>, es: seq<Event>, s1: State, t: nat, owner: nat, c: nat, outcome: Operation)
    returns (ss': seq<State>, es': seq<Event>, last: State)
    requires Leads(s, ss, es, s1) && t !in s1.threads && Owns(s1.reg, owner, c) && Slot(s1, c) == Ready(outcome)
    ensures Leads(s, ss', es', last) && Answer(last, Retire(t)) == Some(outcome)
    ensures Step(last, Retire(t)) == Some(s1.(reg := Removed(s1.reg, c, owner), slots := s1.slots[c := Closed]))
  {
    var s2 := s1.(threads := s1.threads[t := Looking(owner, c)]);
    last := s2.(slots := s2.slots[c := Closed], threads := s2.threads[t := Settled(owner, c, outcome)]);
    LookupStep(s1, t, owner, c);
    ss', es' := Then(s, ss, es, s1, Lookup(t, owner, c), s2);
    SettleStep(s2, t, owner, c, outcome);
    ss', es' := Then(s, ss', es', s2, Settle(t), last);
    RetireStep(last, t, owner, c, outcome);
    assert last.threads - {t} == s1.threads;
  }

  lemma ReleaseStep(s: State, t: nat, owner: nat, c: nat)
    requires t !in s.threads && Owns(s.reg, owner, c)
    ensures Step(s, Release(t, owner, c))
         == Some(s.(reg := Removed(s.reg, c, owner),
                    threads := s.threads[t := Closing(owner, {c}, if s.reg.calls[c].attached then {c} else {})]))
  {
  }

  lemma FinishStep(s: State, t: nat, owner: nat, abort: set<nat>)
    requires t in s.threads && s.threads[t] == Closing(owner, {}, abort)
    ensures Step(s, FinishClosing(t)) == Some(s.(threads := s.threads - {t}, aborted := s.aborted + abort))
  {
  }

  /** A release unregisters its call, closes the slot, wakes who sleeps on it
      and aborts an attached task. */
  lemma ReleaseRunsThrough(s: State, t: nat, owner: nat, c: nat) returns (ss: seq<State>, es: seq<Event>)
    requires t !in s.threads && Owns(s.reg, owner, c) && Slot(s, c).Pending?
    ensures Leads(s, ss, es, s.(reg := Removed(s.reg, c, owner), slots := s.slots[c := Closed], threads := Woken(s.threads, c),
                                aborted := s.aborted + (if s.reg.calls[c].attached then {c} else {})))
  {
    var abort := if s.reg.calls[c].attached then {c} else {};
    var s1 := s.(reg := Removed(s.reg, c, owner), threads := s.threads[t := Closing(owner, {c}, abort)]);
    var s2 := s1.(slots := s1.slots[c := Closed], threads := Woken(s1.threads, c)[t := Closing(owner, {}, abort)]);
    ss, es := Begin(s);
    ReleaseStep(s, t, owner, c);
    ss, es := Then(s, ss, es, s, Release(t, owner, c), s1);
    CloseStep(s1, t, c);
    assert {c} - {c} == {};
    ss, es := Then(s, ss, es, s1, Close(t, c), s2);
    FinishStep(s2, t, owner, abort);
    WokenLeaves(s.threads, t, c, Closing(owner, {c}, abort), Closing(owner, {}, abort));
    ss, es := Then(s, ss, es, s2, FinishClosing(t), s2.(threads := s2.threads - {t}, aborted := s2.aborted + abort));
  }

  lemma WokenLeaves(threads: map<nat, Op>, t: nat, c: nat, a: Op, b: Op)
    requires t !in threads
    ensures Woken(threads[t := a], c)[t := b] - {t} == Woken(threads, c)
  {
  }
}
