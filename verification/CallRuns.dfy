/** Theorems over whole runs of the call protocol. */
module CallRuns {
  import opened Common
  import opened ClientCalls
  import opened CallProtocol
  import opened CallInvariant

  ghost predicate IsRun(ss: seq<State>, es: seq<Event>) {
    && |ss| == |es| + 1
    && ss[0] == Init
    && forall i | 0 <= i < |es| :: Step(ss[i], es[i]) == Some(ss[i + 1])
  }

  lemma {:induction false} InvHolds(ss: seq<State>, es: seq<Event>, i: nat)
    requires IsRun(ss, es) && i <= |es|
    ensures Inv(ss[i])
  {
    if i > 0 {
      InvHolds(ss, es, i - 1);
      assert Step(ss[i - 1], es[i - 1]) == Some(ss[i]);
      StepKeepsInv(ss[i - 1], es[i - 1]);
    }
  }

  /** What a step of a run does to slots and threads. */
  lemma RunStep(ss: seq<State>, es: seq<Event>, i: nat)
    requires IsRun(ss, es) && i < |es|
    ensures Enabled(ss[i], es[i]) && ss[i + 1].slots == SlotsAfter(ss[i], es[i])
    ensures ss[i + 1].threads == ThreadsAfter(ss[i], es[i])
  {
    assert Step(ss[i], es[i]) == Some(ss[i + 1]);
  }

  lemma RunInsertsNew(ss: seq<State>, es: seq<Event>, i: nat)
    requires IsRun(ss, es) && i < |es|
    ensures InsertsNew(ss[i], es[i])
  {
    InvHolds(ss, es, i);
    FreshInserts(ss[i], es[i]);
  }

  // ---- Slots only move forward ----

  /** Pending -> Ready -> Closed or Pending -> Closed, in any number of moves. */
  predicate LeadsTo(a: SlotState, b: SlotState) {
    a == b || a.Pending? || (a.Ready? && b.Closed?)
  }

  lemma StepMovesSlot(s: State, e: Event, c: nat)
    requires Enabled(s, e) && InsertsNew(s, e) && c in s.slots
    ensures c in SlotsAfter(s, e) && LeadsTo(s.slots[c], SlotsAfter(s, e)[c])
  {
  }

  /** From any moment of a run to any later one. */
  lemma {:induction false} SlotMovesForward(ss: seq<State>, es: seq<Event>, i: nat, j: nat, c: nat)
    requires IsRun(ss, es) && i <= j <= |es| && c in ss[i].slots
    ensures c in ss[j].slots && LeadsTo(ss[i].slots[c], ss[j].slots[c])
    decreases j
  {
    if i < j {
      SlotMovesForward(ss, es, i, j - 1, c);
      RunStep(ss, es, j - 1);
      RunInsertsNew(ss, es, j - 1);
      StepMovesSlot(ss[j - 1], es[j - 1], c);
    }
  }

  // ---- Identifiers are issued and retired once ----

  lemma StepKeepsRetired(s: State, e: Event, c: nat)
    requires Enabled(s, e) && InsertsNew(s, e) && c in s.slots
    ensures c !in s.reg.calls ==> c !in RegAfter(s, e).calls
    ensures c !in s.guards ==> c !in GuardsAfter(s, e)
  {
    if !e.Insert? && c in RegAfter(s, e).calls {
      OnlyInsertRegisters(s, e, c);
    }
  }

  /** A call that left the registry never comes back, and a consumed guard
      stays consumed. */
  lemma {:induction false} RetiredStaysRetired(ss: seq<State>, es: seq<Event>, i: nat, j: nat, c: nat)
    requires IsRun(ss, es) && i <= j <= |es| && c in ss[i].slots
    ensures c !in ss[i].reg.calls ==> c !in ss[j].reg.calls
    ensures c !in ss[i].guards ==> c !in ss[j].guards
    decreases j
  {
    if i < j {
      RetiredStaysRetired(ss, es, i, j - 1, c);
      SlotMovesForward(ss, es, i, j - 1, c);
      RunInsertsNew(ss, es, j - 1);
      assert Step(ss[j - 1], es[j - 1]) == Some(ss[j - 1 + 1]);
      StepKeepsRetired(ss[j - 1], es[j - 1], c);
    }
  }

  ghost predicate Publishes(e: Event, c: nat) {
    e.Publish? && e.call == c
  }

  lemma PublishConsumes(ss: seq<State>, es: seq<Event>, i: nat, c: nat)
    requires IsRun(ss, es) && i < |es| && Publishes(es[i], c)
    ensures c in ss[i].guards && c in ss[i + 1].slots && c !in ss[i + 1].guards
  {
    assert Step(ss[i], es[i]) == Some(ss[i + 1]);
  }

  lemma PublishedOnce(ss: seq<State>, es: seq<Event>, i: nat, j: nat, c: nat)
    requires IsRun(ss, es) && i < |es| && j < |es| && Publishes(es[i], c) && Publishes(es[j], c)
    ensures i == j
  {
    var a, b := if i < j then i else j, if i < j then j else i;
    if a < b {
      PublishConsumes(ss, es, a, c);
      PublishConsumes(ss, es, b, c);
      RetiredStaysRetired(ss, es, a + 1, b, c);
    }
  }

  // ---- Outcomes ----

  /** Step `e` takes the outcome out of the slot of `c` for one waiter. */
  ghost predicate Delivers(s: State, e: Event, c: nat, outcome: Operation) {
    && e.Settle? && e.thread in s.threads && s.threads[e.thread].Looking?
    && s.threads[e.thread].call == c && Slot(s, c) == Ready(outcome)
  }

  lemma OnlyPublishMakesReady(s: State, e: Event, c: nat)
    requires Enabled(s, e) && c in SlotsAfter(s, e) && SlotsAfter(s, e)[c].Ready?
    ensures e == Publish(c, SlotsAfter(s, e)[c].outcome) || (c in s.slots && s.slots[c] == SlotsAfter(s, e)[c])
  {
  }

  lemma {:induction false} ReadyWasPublished(ss: seq<State>, es: seq<Event>, i: nat, c: nat) returns (k: nat)
    requires IsRun(ss, es) && i <= |es| && c in ss[i].slots && ss[i].slots[c].Ready?
    ensures k < i && es[k] == Publish(c, ss[i].slots[c].outcome)
  {
    assert i > 0;
    RunStep(ss, es, i - 1);
    OnlyPublishMakesReady(ss[i - 1], es[i - 1], c);
    if es[i - 1] == Publish(c, ss[i].slots[c].outcome) {
      k := i - 1;
    } else {
      k := ReadyWasPublished(ss, es, i - 1, c);
    }
  }

  lemma DeliveryCloses(ss: seq<State>, es: seq<Event>, i: nat, c: nat, outcome: Operation)
    requires IsRun(ss, es) && i < |es| && Delivers(ss[i], es[i], c, outcome)
    ensures c in ss[i].slots && ss[i].slots[c].Ready?
    ensures c in ss[i + 1].slots && ss[i + 1].slots[c].Closed?
  {
    RunStep(ss, es, i);
  }

  /** A published outcome reaches at most one await. */
  lemma DeliveredAtMostOnce(ss: seq<State>, es: seq<Event>, i: nat, j: nat, c: nat, a: Operation, b: Operation)
    requires IsRun(ss, es) && i < |es| && j < |es|
    requires Delivers(ss[i], es[i], c, a) && Delivers(ss[j], es[j], c, b)
    ensures i == j
  {
    DeliveryCloses(ss, es, i, c, a);
    DeliveryCloses(ss, es, j, c, b);
    var x, y := if i < j then i else j, if i < j then j else i;
    if x < y {
      SlotMovesForward(ss, es, x + 1, y, c);
    }
  }

  lemma OnlySettleSettles(s: State, e: Event, t: nat)
    requires Enabled(s, e) && t in ThreadsAfter(s, e) && ThreadsAfter(s, e)[t].Settled?
    ensures (t in s.threads && s.threads[t] == ThreadsAfter(s, e)[t]) || e == Settle(t)
  {
    if !Acts(e, t) {
      OtherThreads(s, e, t);
    }
  }

  lemma ReadyStays(s: State, e: Event, c: nat, outcome: Operation)
    requires Enabled(s, e) && InsertsNew(s, e) && c in s.slots && s.slots[c] == Ready(outcome)
    ensures c in SlotsAfter(s, e) && (SlotsAfter(s, e)[c] == Ready(outcome) || Delivers(s, e, c, outcome))
  {
  }

  /** A ready outcome is never lost: releases, closes and later publications
      leave it in place until a terminal read delivers it. */
  lemma {:induction false} ReadyIsNeverLost(ss: seq<State>, es: seq<Event>, i: nat, j: nat, c: nat, outcome: Operation) returns (k: nat)
    requires IsRun(ss, es) && i <= j <= |es| && c in ss[i].slots && ss[i].slots[c] == Ready(outcome)
    ensures c in ss[j].slots
    ensures ss[j].slots[c] == Ready(outcome) || (i <= k < j && Delivers(ss[k], es[k], c, outcome))
    decreases j
  {
    k := i;
    if i < j {
      k := ReadyIsNeverLost(ss, es, i, j - 1, c, outcome);
      SlotMovesForward(ss, es, i, j, c);
      if ss[j - 1].slots[c] == Ready(outcome) {
        RunStep(ss, es, j - 1);
        RunInsertsNew(ss, es, j - 1);
        ReadyStays(ss[j - 1], es[j - 1], c, outcome);
        k := j - 1;
      }
    }
  }

  /** Step `k` closes the slot of `c`: a close of a pending slot, or the
      delivery of its outcome. */
  ghost predicate ClosesAt(ss: seq<State>, es: seq<Event>, k: nat, c: nat)
    requires k < |es| < |ss|
  {
    && c in ss[k].slots && c in ss[k + 1].slots && ss[k + 1].slots[c].Closed?
    && match ss[k].slots[c]
       case Pending => es[k].Close? && es[k].call == c
       case Ready(outcome) => Delivers(ss[k], es[k], c, outcome)
       case Closed => false
  }

  lemma OnlyCloseOrReadCloses(s: State, e: Event, c: nat)
    requires Enabled(s, e) && WritesKnown(s, e) && c in SlotsAfter(s, e) && SlotsAfter(s, e)[c].Closed?
    ensures c in s.slots
    ensures s.slots[c].Pending? ==> e.Close? && e.call == c
    ensures s.slots[c].Ready? ==> Delivers(s, e, c, s.slots[c].outcome)
  {
  }

  lemma RunWritesKnown(ss: seq<State>, es: seq<Event>, i: nat)
    requires IsRun(ss, es) && i < |es|
    ensures WritesKnown(ss[i], es[i])
  {
    InvHolds(ss, es, i);
    RunStep(ss, es, i);
    StepWritesKnown(ss[i], es[i]);
  }

  lemma {:induction false} ClosedHasSource(ss: seq<State>, es: seq<Event>, j: nat, c: nat) returns (k: nat)
    requires IsRun(ss, es) && j <= |es| && c in ss[j].slots && ss[j].slots[c].Closed?
    ensures k < j && ClosesAt(ss, es, k, c)
  {
    assert j > 0;
    RunStep(ss, es, j - 1);
    RunWritesKnown(ss, es, j - 1);
    OnlyCloseOrReadCloses(ss[j - 1], es[j - 1], c);
    if ss[j - 1].slots[c].Closed? {
      k := ClosedHasSource(ss, es, j - 1, c);
    } else {
      k := j - 1;
    }
  }

  lemma ClosedOnce(ss: seq<State>, es: seq<Event>, i: nat, j: nat, c: nat)
    requires IsRun(ss, es) && i < |es| && j < |es| && ClosesAt(ss, es, i, c) && ClosesAt(ss, es, j, c)
    ensures i == j
  {
    var x, y := if i < j then i else j, if i < j then j else i;
    if x < y {
      SlotMovesForward(ss, es, x + 1, y, c);
    }
  }

  // ---- Whole awaits ----

  /** The thread awaits `call` for `owner`. */
  predicate Awaits(s: State, t: nat, owner: nat, call: nat) {
    t in s.threads
    && match s.threads[t]
       case Looking(o, c) => o == owner && c == call
       case Asleep(o, c) => o == owner && c == call
       case Settled(o, c, _) => o == owner && c == call
       case _ => false
  }

  predicate HasSettled(s: State, t: nat) {
    t in s.threads && s.threads[t].Settled?
  }

  lemma AwaitStep(s: State, e: Event, t: nat, owner: nat, c: nat)
    requires Enabled(s, e) && t in ThreadsAfter(s, e) && Awaits(s.(threads := ThreadsAfter(s, e)), t, owner, c)
    ensures Awaits(s, t, owner, c) || (e == Lookup(t, owner, c) && Owns(s.reg, owner, c))
  {
    if !Acts(e, t) {
      OtherThreads(s, e, t);
    }
  }

  /** Every await under way began with a lookup that found the call registered
      for its owner, and has been under way since. */
  lemma {:induction false} AwaitHasLookup(ss: seq<State>, es: seq<Event>, i: nat, t: nat, owner: nat, c: nat) returns (l: nat)
    requires IsRun(ss, es) && i <= |es| && Awaits(ss[i], t, owner, c)
    ensures l < i && es[l] == Lookup(t, owner, c) && Owns(ss[l].reg, owner, c)
    ensures forall m | l < m <= i :: Awaits(ss[m], t, owner, c)
  {
    assert i > 0;
    RunStep(ss, es, i - 1);
    AwaitStep(ss[i - 1], es[i - 1], t, owner, c);
    if Awaits(ss[i - 1], t, owner, c) {
      l := AwaitHasLookup(ss, es, i - 1, t, owner, c);
    } else {
      l := i - 1;
    }
  }

  lemma {:induction false} SettledHasSource(ss: seq<State>, es: seq<Event>, i: nat, t: nat) returns (j: nat)
    requires IsRun(ss, es) && i <= |es| && HasSettled(ss[i], t)
    ensures j < i && es[j] == Settle(t) && t in ss[j].threads && forall m | j < m <= i :: HasSettled(ss[m], t)
    ensures var Settled(owner, call, answer) := ss[i].threads[t];
            ss[j].threads[t] == Looking(owner, call) && answer == SettledAnswer(Slot(ss[j], call))
            && !Slot(ss[j], call).Pending?
  {
    assert i > 0;
    RunStep(ss, es, i - 1);
    OnlySettleSettles(ss[i - 1], es[i - 1], t);
    if es[i - 1] == Settle(t) {
      j := i - 1;
    } else {
      j := SettledHasSource(ss, es, i - 1, t);
    }
  }

  /** Where the answer of an await comes from. The numbers are steps of the run. */
  datatype Source =
    | NotAddressed                           // unknown, retired or foreign at lookup
    | StillPending                           // the interval elapsed first
    | Outcome(published: nat, settled: nat)  // the publication and the terminal read
    | FoundClosed(closed: nat, settled: nat) // what closed the slot, and the terminal read

  /** Step `j` is the terminal read of the await that step `i` ends. */
  ghost predicate SettledBy(ss: seq<State>, es: seq<Event>, i: nat, j: nat)
    requires IsRun(ss, es) && i < |es|
  {
    && es[i].Retire? && HasSettled(ss[i], es[i].thread)
    && j < i && es[j] == Settle(es[i].thread) && forall m | j < m <= i :: HasSettled(ss[m], es[i].thread)
  }

  ghost predicate Explains(ss: seq<State>, es: seq<Event>, i: nat, a: Operation, why: Source)
    requires IsRun(ss, es) && i < |es|
  {
    match why
    case NotAddressed =>
      a == ClosedFailure() && es[i].Lookup? && !Owns(ss[i].reg, es[i].owner, es[i].call)
    case StillPending =>
      a == NotReadyFailure() && es[i].Expire? && es[i].thread in ss[i].threads
      && ss[i].threads[es[i].thread].Looking? && Slot(ss[i], ss[i].threads[es[i].thread].call).Pending?
    case Outcome(k, j) =>
      SettledBy(ss, es, i, j)
      && var c := ss[i].threads[es[i].thread].call;
         k < j && es[k] == Publish(c, a) && Delivers(ss[j], es[j], c, a)
    case FoundClosed(k, j) =>
      SettledBy(ss, es, i, j)
      && var c := ss[i].threads[es[i].thread].call;
         a == ClosedFailure() && k < j && ClosesAt(ss, es, k, c) && Slot(ss[j], c).Closed?
  }

  /** Every answer of every await in every run has one of these four
      explanations; an outcome is the one its task published. */
  lemma AwaitAnswers(ss: seq<State>, es: seq<Event>, i: nat) returns (why: Source)
    requires IsRun(ss, es) && i < |es| && Answer(ss[i], es[i]).Some?
    ensures Explains(ss, es, i, Answer(ss[i], es[i]).value, why)
  {
    RunStep(ss, es, i);
    match es[i]
    case Lookup(_, _, _) => why := NotAddressed;
    case Expire(_) => why := StillPending;
    case Retire(t) =>
      var j := SettledHasSource(ss, es, i, t);
      var c := ss[i].threads[t].call;
      SettledCallExists(ss, es, j, t);
      if Slot(ss[j], c).Ready? {
        var k := ReadyWasPublished(ss, es, j, c);
        why := Outcome(k, j);
      } else {
        var k := ClosedHasSource(ss, es, j, c);
        why := FoundClosed(k, j);
      }
  }

  lemma SettledCallExists(ss: seq<State>, es: seq<Event>, j: nat, t: nat)
    requires IsRun(ss, es) && j <= |es| && t in ss[j].threads && ss[j].threads[t].Looking?
    ensures ss[j].threads[t].call in ss[j].slots
  {
    InvHolds(ss, es, j);
    assert OpSound(ss[j], ss[j].threads[t]);
  }

  /** The explanation is unique, down to the steps it names. */
  lemma OneExplanation(ss: seq<State>, es: seq<Event>, i: nat, a: Operation, v: Source, w: Source)
    requires IsRun(ss, es) && i < |es| && Explains(ss, es, i, a, v) && Explains(ss, es, i, a, w)
    ensures v == w
  {
    if es[i].Retire? {
      var c := ss[i].threads[es[i].thread].call;
      SameRead(ss, es, i, v.settled, w.settled);
      if v.Outcome? && w.Outcome? {
        PublishedOnce(ss, es, v.published, w.published, c);
      } else if v.FoundClosed? && w.FoundClosed? {
        ClosedOnce(ss, es, v.closed, w.closed, c);
      }
    }
  }

  lemma SameRead(ss: seq<State>, es: seq<Event>, i: nat, j: nat, k: nat)
    requires IsRun(ss, es) && i < |es| && SettledBy(ss, es, i, j) && SettledBy(ss, es, i, k)
    ensures j == k
  {
    RunStep(ss, es, j);
    RunStep(ss, es, k);
  }

  /** Between two moments of one await, a settled thread stays settled. */
  lemma {:induction false} StaysSettled(ss: seq<State>, es: seq<Event>, i: nat, j: nat, t: nat, owner: nat, c: nat)
    requires IsRun(ss, es) && i <= j <= |es| && HasSettled(ss[i], t) && forall m | i <= m <= j :: Awaits(ss[m], t, owner, c)
    ensures HasSettled(ss[j], t)
    decreases j
  {
    if i < j {
      StaysSettled(ss, es, i, j - 1, t, owner, c);
      RunStep(ss, es, j - 1);
      assert Awaits(ss[j], t, owner, c);
      if !Acts(es[j - 1], t) {
        OtherThreads(ss[j - 1], es[j - 1], t);
      }
    }
  }

  lemma OwnReadIsTheLast(ss: seq<State>, es: seq<Event>, l: nat, k: nat, j: nat, t: nat, owner: nat, c: nat)
    requires IsRun(ss, es) && l <= k < j <= |es| && forall m | l < m <= j :: Awaits(ss[m], t, owner, c)
    requires !HasSettled(ss[j], t)
    ensures es[k] != Settle(t)
  {
    if es[k] == Settle(t) {
      RunStep(ss, es, k);
      StaysSettled(ss, es, k + 1, j, t, owner, c);
    }
  }

  /** The lookup with which an await began, and its terminal read. */
  lemma AwaitSpan(ss: seq<State>, es: seq<Event>, i: nat, t: nat, owner: nat, c: nat, answer: Operation) returns (l: nat, j: nat)
    requires IsRun(ss, es) && i < |es| && es[i] == Retire(t)
    requires t in ss[i].threads && ss[i].threads[t] == Settled(owner, c, answer)
    ensures l < j && SettledBy(ss, es, i, j) && es[l] == Lookup(t, owner, c) && Owns(ss[l].reg, owner, c)
    ensures forall m | l < m <= i :: Awaits(ss[m], t, owner, c)
    ensures !HasSettled(ss[j], t) && answer == SettledAnswer(Slot(ss[j], c))
  {
    l := AwaitHasLookup(ss, es, i, t, owner, c);
    j := SettledHasSource(ss, es, i, t);
    RunStep(ss, es, l);
    assert t !in ss[l].threads;
    assert forall m | j < m <= i :: HasSettled(ss[m], t);
  }

  /** In every interleaving, an await whose lookup found a registered call with
      a ready outcome returns exactly that outcome, unless another await was
      delivered it between this one's lookup and its terminal read; the call is
      then unregistered. */
  lemma ReadyCallIsReturned(ss: seq<State>, es: seq<Event>, i: nat, t: nat, owner: nat, c: nat, answer: Operation)
    returns (l: nat, j: nat, k: nat)
    requires IsRun(ss, es) && i < |es| && es[i] == Retire(t)
    requires t in ss[i].threads && ss[i].threads[t] == Settled(owner, c, answer)
    ensures l < j && SettledBy(ss, es, i, j) && es[l] == Lookup(t, owner, c) && Owns(ss[l].reg, owner, c)
    ensures forall m | l < m <= i :: Awaits(ss[m], t, owner, c)
    ensures Slot(ss[l], c).Ready? ==>
              answer == Slot(ss[l], c).outcome
              || (l <= k < j && es[k] != Settle(t) && Delivers(ss[k], es[k], c, Slot(ss[l], c).outcome))
    ensures Answer(ss[i], es[i]) == Some(answer) && ss[i + 1].reg == Removed(ss[i].reg, c, owner)
  {
    RetireStep(ss[i], t, owner, c, answer);
    assert Step(ss[i], es[i]) == Some(ss[i + 1]);
    l, j := AwaitSpan(ss, es, i, t, owner, c, answer);
    k := l;
    if Slot(ss[l], c).Ready? {
      k := ReadyIsNeverLost(ss, es, l, j, c, Slot(ss[l], c).outcome);
      if ss[j].slots[c] != ss[l].slots[c] {
        OwnReadIsTheLast(ss, es, l, k, j, t, owner, c);
      }
    }
  }

  lemma AsleepIsHeld(ss: seq<State>, es: seq<Event>, i: nat, t: nat)
    requires IsRun(ss, es) && i <= |es| && t in ss[i].threads && ss[i].threads[t].Asleep?
    ensures var c := ss[i].threads[t].call;
            c in ss[i].slots && ss[i].slots[c].Pending? && Held(ss[i], c)
  {
    InvHolds(ss, es, i);
    assert OpSound(ss[i], ss[i].threads[t]);
  }

  lemma PublishStep(s: State, c: nat, outcome: Operation)
    requires c in s.guards && Slot(s, c).Pending?
    ensures Step(s, Publish(c, outcome))
         == Some(s.(slots := s.slots[c := Ready(outcome)], guards := s.guards - {c}, threads := Woken(s.threads, c)))
  {
  }

  lemma SettleStep(s: State, t: nat, owner: nat, c: nat, outcome: Operation)
    requires t in s.threads && s.threads[t] == Looking(owner, c) && Slot(s, c) == Ready(outcome)
    ensures Step(s, Settle(t)) == Some(s.(slots := s.slots[c := Closed], threads := s.threads[t := Settled(owner, c, outcome)]))
  {
  }

  lemma RetireStep(s: State, t: nat, owner: nat, c: nat, outcome: Operation)
    requires t in s.threads && s.threads[t] == Settled(owner, c, outcome)
    ensures Step(s, Retire(t)) == Some(s.(reg := Removed(s.reg, c, owner), threads := s.threads - {t}))
    ensures Answer(s, Retire(t)) == Some(outcome)
  {
  }

  /** What a publication does for a sleeper, whatever else is going on. */
  lemma PublishAnswersSleeper(s: State, t: nat, outcome: Operation)
    requires t in s.threads && s.threads[t].Asleep? && s.threads[t].call in s.guards && Slot(s, s.threads[t].call).Pending?
    ensures var Asleep(owner, c) := s.threads[t];
            Step(s, Publish(c, outcome)).Some?
            && var s1 := Step(s, Publish(c, outcome)).value;
               Step(s1, Settle(t)).Some?
               && var s2 := Step(s1, Settle(t)).value;
                  t in s2.threads && s2.threads[t] == Settled(owner, c, outcome) && Answer(s2, Retire(t)) == Some(outcome)
  {
    var Asleep(owner, c) := s.threads[t];
    PublishStep(s, c, outcome);
    var s1 := s.(slots := s.slots[c := Ready(outcome)], guards := s.guards - {c}, threads := Woken(s.threads, c));
    SettleStep(s1, t, owner, c, outcome);
    var s2 := s1.(slots := s1.slots[c := Closed], threads := s1.threads[t := Settled(owner, c, outcome)]);
    RetireStep(s2, t, owner, c, outcome);
  }

  lemma CloseStep(s: State, u: nat, c: nat)
    requires u in s.threads && s.threads[u].Closing? && c in s.threads[u].todo && Slot(s, c).Pending?
    ensures Step(s, Close(u, c))
         == Some(s.(slots := s.slots[c := Closed],
                    threads := Woken(s.threads, c)[u := s.threads[u].(todo := s.threads[u].todo - {c})]))
  {
  }

  lemma SettleClosedStep(s: State, t: nat, owner: nat, c: nat)
    requires t in s.threads && s.threads[t] == Looking(owner, c) && c in s.slots && s.slots[c].Closed?
    ensures Step(s, Settle(t)) == Some(s.(slots := s.slots[c := Closed], threads := s.threads[t := Settled(owner, c, ClosedFailure())]))
  {
  }

  /** What the close of a release in flight does for a sleeper. */
  lemma CloseAnswersSleeper(s: State, t: nat, u: nat)
    requires t in s.threads && s.threads[t].Asleep? && Slot(s, s.threads[t].call).Pending?
    requires u in s.threads && s.threads[u].Closing? && s.threads[t].call in s.threads[u].todo
    ensures var Asleep(owner, c) := s.threads[t];
            Step(s, Close(u, c)).Some?
            && var s1 := Step(s, Close(u, c)).value;
               Step(s1, Settle(t)).Some?
               && var s2 := Step(s1, Settle(t)).value;
                  t in s2.threads && s2.threads[t] == Settled(owner, c, ClosedFailure())
                  && Answer(s2, Retire(t)) == Some(ClosedFailure())
  {
    var Asleep(owner, c) := s.threads[t];
    CloseStep(s, u, c);
    var s1 := s.(slots := s.slots[c := Closed],
                 threads := Woken(s.threads, c)[u := s.threads[u].(todo := s.threads[u].todo - {c})]);
    SettleClosedStep(s1, t, owner, c);
    var s2 := s1.(slots := s1.slots[c := Closed], threads := s1.threads[t := Settled(owner, c, ClosedFailure())]);
    RetireStep(s2, t, owner, c, ClosedFailure());
  }

  /** No waiter is stranded: whoever sleeps on a call sleeps on a pending slot
      whose guard is live, and whatever that guard publishes wakes the sleeper
      and is then the sleeper's answer. */
  lemma NoWaiterIsStranded(ss: seq<State>, es: seq<Event>, i: nat, t: nat, outcome: Operation)
    requires IsRun(ss, es) && i <= |es| && t in ss[i].threads && ss[i].threads[t].Asleep?
    ensures var Asleep(owner, c) := ss[i].threads[t];
            c in ss[i].slots && ss[i].slots[c].Pending? && c in ss[i].guards
            && (c in ss[i].reg.calls || BeingClosed(ss[i], c))
            && Step(ss[i], Publish(c, outcome)).Some?
            && var s1 := Step(ss[i], Publish(c, outcome)).value;
               Step(s1, Settle(t)).Some?
               && var s2 := Step(s1, Settle(t)).value;
                  t in s2.threads && s2.threads[t] == Settled(owner, c, outcome) && Answer(s2, Retire(t)) == Some(outcome)
  {
    AsleepIsHeld(ss, es, i, t);
    PublishAnswersSleeper(ss[i], t, outcome);
  }

  /** The counter that admission reads is the number of the owner's registered
      calls at every moment, and no stored counter is zero. */
  lemma CountersAreExact(ss: seq<State>, es: seq<Event>, i: nat, owner: nat)
    requires IsRun(ss, es) && i <= |es|
    ensures RegisteredCount(ss[i].reg, owner) == |CallsOf(ss[i].reg.calls, owner)|
    ensures owner in ss[i].reg.perOwner ==> ss[i].reg.perOwner[owner] > 0
  {
    InvHolds(ss, es, i);
    assert CountExact(ss[i].reg, owner);
  }
}
