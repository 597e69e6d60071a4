/** The counted-borrow gate of lib/core_bridge/native_stubs.c around one native
    runtime pointer (and its shared-runtime twin), one step per sequentially
    consistent atomic access, with any number of borrowers and closers and the
    finalizer at any time. Only freeing the owner struct relies on the collector:
    no primitive is inside then, and none enters afterwards. */
module RuntimeGate {
  import opened Common

  datatype Pc =
    // borrowers: acquire_runtime, the Rust call, release_runtime
    | Counted                  // incremented, has not looked at `closing`
    | Checked                  // saw `closing` unset, has not loaded the pointer
    | Using                    // holds the non-null pointer
    | Backing                  // was refused, still has to decrement
    // closers: detach_runtime, wait_for_runtime_calls, runtime_free
    | Flagged(finalizer: bool) // stored `closing`, has not taken the pointer
    | Waiting(finalizer: bool, pointer: bool)  // took what was there, polls the counter
    | Alone(finalizer: bool, pointer: bool)    // read a zero counter
    | Disposed                 // a finalizer that only has to free the owner struct

  /** `pointer`: the field holds the native runtime. `freed`: how often Rust
      was told to free it. `collected`: the finalizer was started.
      `structFreed`: the owner struct itself is gone. */
  datatype State = State(
    pointer: bool, active: int, closing: bool, freed: nat, collected: bool, structFreed: bool, threads: map<nat, Pc>)

  datatype Event =
    | Borrow(thread: nat)
    | LoadClosing(thread: nat)
    | LoadPointer(thread: nat)
    | Decrement(thread: nat)
    | Close(thread: nat)
    | Collect(thread: nat)
    | Exchange(thread: nat)
    | SeeZero(thread: nat)
    | Free(thread: nat)
    | FreeStruct(thread: nat)

  function At(s: State, t: nat): Option<Pc> {
    if t in s.threads then Some(s.threads[t]) else None
  }

  function Goto(s: State, t: nat, pc: Pc): State {
    s.(threads := s.threads[t := pc])
  }

  function Leave(s: State, t: nat): State {
    s.(threads := s.threads - {t})
  }

  function Step(s: State, e: Event): Option<State> {
    var pc := At(s, e.thread);
    match e
    case Borrow(t) =>
      if pc.Some? || s.structFreed then None else Some(Goto(s, t, Counted).(active := s.active + 1))
    case LoadClosing(t) =>
      if pc != Some(Counted) then None else Some(Goto(s, t, if s.closing then Backing else Checked))
    case LoadPointer(t) =>
      if pc != Some(Checked) then None else Some(Goto(s, t, if s.pointer then Using else Backing))
    case Decrement(t) =>
      if pc != Some(Using) && pc != Some(Backing) then None else Some(Leave(s, t).(active := s.active - 1))
    case Close(t) =>
      if pc.Some? || s.structFreed then None else Some(Goto(s, t, Flagged(false)).(closing := true))
    case Collect(t) =>
      if pc.Some? || s.collected then None
      else Some(Goto(s, t, Flagged(true)).(closing := true, collected := true))
    case Exchange(t) =>
      if pc.None? || !pc.value.Flagged? then None
      else Some(Goto(s, t, Waiting(pc.value.finalizer, s.pointer)).(pointer := false))
    case SeeZero(t) =>
      if pc.None? || !pc.value.Waiting? || s.active != 0 then None
      else Some(Goto(s, t, Alone(pc.value.finalizer, pc.value.pointer)))
    case Free(t) =>
      if pc.None? || !pc.value.Alone? then None
      else
        var s' := if pc.value.pointer then s.(freed := s.freed + 1) else s;
        Some(if pc.value.finalizer then Goto(s', t, Disposed) else Leave(s', t))
    case FreeStruct(t) =>
      if pc != Some(Disposed) || s.threads.Keys != {t} then None else Some(Leave(s, t).(structFreed := true))
  }

  /** A fresh owner: no threads, with a runtime or, after a failed creation,
      without one. */
  predicate IsInit(s: State) {
    s == State(s.pointer, 0, false, 0, false, false, map[])
  }

  // ---- Invariant ----

  predicate InCount(pc: Pc) {
    pc.Counted? || pc.Checked? || pc.Using? || pc.Backing?
  }

  predicate Holds(pc: Pc) {
    (pc.Waiting? || pc.Alone?) && pc.pointer
  }

  predicate ByFinalizer(pc: Pc) {
    pc.Disposed? || ((pc.Flagged? || pc.Waiting? || pc.Alone?) && pc.finalizer)
  }

  function CountedThreads(s: State): set<nat> {
    set t | t in s.threads && InCount(s.threads[t])
  }

  function Holders(s: State): set<nat> {
    set t | t in s.threads && Holds(s.threads[t])
  }

  predicate NobodyUses(s: State) {
    forall t <- s.threads :: !s.threads[t].Using?
  }

  /** The counter is the number of threads between increment and decrement. */
  predicate CounterExact(s: State) {
    s.active == |CountedThreads(s)|
  }

  /** There is exactly one runtime (or none): in the field, in one closer's
      hands, or freed. */
  predicate Conserved(s: State, born: bool) {
    (if s.pointer then 1 else 0) + |Holders(s)| + s.freed == if born then 1 else 0
  }

  /** Once a closer that holds the pointer has read zero, or it has been freed,
      nobody uses the pointer. */
  predicate Unused(s: State) {
    && (s.freed > 0 ==> NobodyUses(s))
    && (forall t <- s.threads :: s.threads[t].Alone? && s.threads[t].pointer ==> NobodyUses(s))
  }

  /** There is at most one finalizer, and nobody is in a freed struct. */
  predicate FinalizerAlone(s: State) {
    && (s.structFreed ==> s.collected && s.threads == map[])
    && (forall t <- s.threads :: ByFinalizer(s.threads[t]) ==> s.collected)
    && (forall t <- s.threads, u <- s.threads :: ByFinalizer(s.threads[t]) && ByFinalizer(s.threads[u]) ==> t == u)
  }

  predicate Inv(s: State, born: bool) {
    CounterExact(s) && Conserved(s, born) && Unused(s) && FinalizerAlone(s)
  }

  /** The acting thread is the only one whose place changes. */
  lemma OnlyActorMoves(s: State, e: Event)
    requires Step(s, e).Some?
    ensures Moves(s, Step(s, e).value, e.thread)
  {
  }

  predicate Moves(s: State, s': State, t: nat) {
    s'.threads == if t in s'.threads then s.threads[t := s'.threads[t]] else s.threads - {t}
  }

  lemma CountedChange(s: State, s': State, t: nat)
    requires Moves(s, s', t)
    ensures |CountedThreads(s')| == |CountedThreads(s)| + One(t in s'.threads && InCount(s'.threads[t]))
                                                        - One(t in s.threads && InCount(s.threads[t]))
  {
    AddSize(CountedThreads(s), t);
    RemoveSize(CountedThreads(s), t);
    assert CountedThreads(s') == if t in s'.threads && InCount(s'.threads[t]) then CountedThreads(s) + {t} else CountedThreads(s) - {t};
  }

  lemma HoldersChange(s: State, s': State, t: nat)
    requires Moves(s, s', t)
    ensures |Holders(s')| == |Holders(s)| + One(t in s'.threads && Holds(s'.threads[t]))
                                          - One(t in s.threads && Holds(s.threads[t]))
  {
    AddSize(Holders(s), t);
    RemoveSize(Holders(s), t);
    assert Holders(s') == if t in s'.threads && Holds(s'.threads[t]) then Holders(s) + {t} else Holders(s) - {t};
  }

  lemma CounterKept(s: State, e: Event)
    requires CounterExact(s) && Step(s, e).Some?
    ensures CounterExact(Step(s, e).value)
  {
    OnlyActorMoves(s, e);
    CountedChange(s, Step(s, e).value, e.thread);
  }

  lemma ConservedKept(s: State, e: Event, born: bool)
    requires Conserved(s, born) && Step(s, e).Some?
    ensures Conserved(Step(s, e).value, born)
  {
    OnlyActorMoves(s, e);
    HoldersChange(s, Step(s, e).value, e.thread);
  }

  lemma UnusedKept(s: State, e: Event, born: bool)
    requires Inv(s, born) && Step(s, e).Some?
    ensures Unused(Step(s, e).value)
  {
    var s', t := Step(s, e).value, e.thread;
    if e.SeeZero? {
      assert CountedThreads(s) == {};
      forall u <- s.threads ensures !s.threads[u].Using? {
        assert u !in CountedThreads(s);
      }
    } else if e.LoadPointer? && s.pointer {
      assert Holders(s) == {} && s.freed == 0;
      forall u <- s.threads ensures !Holds(s.threads[u]) {
        assert u !in Holders(s);
      }
    }
  }

  lemma FinalizerKept(s: State, e: Event)
    requires FinalizerAlone(s) && Step(s, e).Some?
    ensures FinalizerAlone(Step(s, e).value)
  {
    OnlyActorMoves(s, e);
    if e.FreeStruct? {
      assert Step(s, e).value.threads == map[];
    }
  }

  // ---- Runs ----

  ghost predicate IsRun(ss: seq<State>, es: seq<Event>) {
    && |ss| == |es| + 1 && IsInit(ss[0])
    && forall i | 0 <= i < |es| :: Step(ss[i], es[i]) == Some(ss[i + 1])
  }

  lemma {:induction false} InvHolds(ss: seq<State>, es: seq<Event>, i: nat)
    requires IsRun(ss, es) && i <= |es|
    ensures Inv(ss[i], ss[0].pointer)
  {
    if i == 0 {
      assert CountedThreads(ss[0]) == {} && Holders(ss[0]) == {};
    } else {
      InvHolds(ss, es, i - 1);
      assert Step(ss[i - 1], es[i - 1]) == Some(ss[i]);
      CounterKept(ss[i - 1], es[i - 1]);
      ConservedKept(ss[i - 1], es[i - 1], ss[0].pointer);
      UnusedKept(ss[i - 1], es[i - 1], ss[0].pointer);
      FinalizerKept(ss[i - 1], es[i - 1]);
    }
  }

  /** In every interleaving: the counter is exact, the runtime is freed at most
      once, and nobody holds it when or after it is freed. */
  lemma NoUseAfterFree(ss: seq<State>, es: seq<Event>, i: nat)
    requires IsRun(ss, es) && i <= |es|
    ensures ss[i].active == |CountedThreads(ss[i])| && ss[i].freed <= 1
    ensures ss[i].freed == 1 ==> NobodyUses(ss[i]) && !ss[i].pointer
    ensures i < |es| && es[i].Free? && ss[i + 1].freed > ss[i].freed ==> NobodyUses(ss[i])
    ensures ss[i].structFreed ==> ss[i].threads == map[]
  {
    InvHolds(ss, es, i);
    if i < |es| {
      assert Step(ss[i], es[i]) == Some(ss[i + 1]);
    }
  }

  lemma StepClosesAdmission(s: State, e: Event, t: nat)
    requires Step(s, e).Some? && !s.pointer
    ensures !Step(s, e).value.pointer
    ensures At(Step(s, e).value, t) == Some(Using) ==> At(s, t) == Some(Using)
  {
  }

  /** From the moment a closer took the pointer, the set of its users only
      shrinks: whoever holds it later held it already then. */
  lemma {:induction false} NobodyAdmittedAfterDetach(ss: seq<State>, es: seq<Event>, i: nat, j: nat, t: nat)
    requires IsRun(ss, es) && i <= j <= |es| && !ss[i].pointer
    requires At(ss[j], t) == Some(Using)
    ensures At(ss[i], t) == Some(Using)
    decreases j
  {
    if i < j {
      DetachedStays(ss, es, i, j - 1);
      assert Step(ss[j - 1], es[j - 1]) == Some(ss[j]);
      StepClosesAdmission(ss[j - 1], es[j - 1], t);
      NobodyAdmittedAfterDetach(ss, es, i, j - 1, t);
    }
  }

  lemma {:induction false} DetachedStays(ss: seq<State>, es: seq<Event>, i: nat, j: nat)
    requires IsRun(ss, es) && i <= j <= |es| && !ss[i].pointer
    ensures !ss[j].pointer
    decreases j
  {
    if i < j {
      DetachedStays(ss, es, i, j - 1);
      assert Step(ss[j - 1], es[j - 1]) == Some(ss[j]);
      StepClosesAdmission(ss[j - 1], es[j - 1], 0);
    }
  }

  // ---- Who is admitted ----

  /** The event with which a close, or the finalizer, announces itself. */
  predicate BeginsClose(e: Event) {
    e.Close? || e.Collect?
  }

  predicate CloseBefore(es: seq<Event>, i: nat) {
    exists k | 0 <= k < i && k < |es| :: BeginsClose(es[k])
  }

  /** Whoever is past its announcement was announced, and so was whoever took
      the pointer. */
  predicate Announced(s: State, born: bool) {
    && (forall t <- s.threads :: !InCount(s.threads[t]) ==> s.closing)
    && (s.pointer || s.closing || !born)
  }

  lemma AnnouncedKept(s: State, e: Event, born: bool)
    requires Announced(s, born) && Step(s, e).Some?
    ensures Announced(Step(s, e).value, born)
    ensures Step(s, e).value.closing <==> s.closing || BeginsClose(e)
  {
    OnlyActorMoves(s, e);
  }

  /** The flag is set exactly by the announcements. */
  lemma {:induction false} ClosingIsAnnounced(ss: seq<State>, es: seq<Event>, i: nat)
    requires IsRun(ss, es) && i <= |es|
    ensures Announced(ss[i], ss[0].pointer) && (ss[i].closing <==> CloseBefore(es, i))
  {
    if i > 0 {
      ClosingIsAnnounced(ss, es, i - 1);
      assert Step(ss[i - 1], es[i - 1]) == Some(ss[i]);
      AnnouncedKept(ss[i - 1], es[i - 1], ss[0].pointer);
      assert BeginsClose(es[i - 1]) || CloseBefore(es, i - 1) <==> CloseBefore(es, i);
    }
  }

  lemma OnlyLoadsRefuse(s: State, e: Event, t: nat)
    requires Step(s, e).Some? && At(Step(s, e).value, t) == Some(Backing) && At(s, t) != Some(Backing)
    ensures (e == LoadClosing(t) && s.closing) || (e == LoadPointer(t) && !s.pointer)
  {
  }

  /** A borrow is refused only because a close had begun before the load that
      refused it, or because there never was a runtime. */
  lemma {:induction false} RefusedOnlyByClose(ss: seq<State>, es: seq<Event>, i: nat, t: nat) returns (l: nat)
    requires IsRun(ss, es) && i <= |es| && At(ss[i], t) == Some(Backing)
    ensures l < i && (es[l] == LoadClosing(t) || es[l] == LoadPointer(t))
    ensures CloseBefore(es, l) || !ss[0].pointer
    ensures forall m | l < m <= i :: At(ss[m], t) == Some(Backing)
  {
    assert i > 0;
    assert Step(ss[i - 1], es[i - 1]) == Some(ss[i]);
    if At(ss[i - 1], t) == Some(Backing) {
      l := RefusedOnlyByClose(ss, es, i - 1, t);
    } else {
      l := i - 1;
      OnlyLoadsRefuse(ss[l], es[l], t);
      ClosingIsAnnounced(ss, es, l);
    }
  }

  /** Outside the part of a borrow that can still end with the pointer. */
  predicate Outside(pc: Option<Pc>) {
    pc.None? || !(pc.value.Counted? || pc.value.Checked? || pc.value.Using?)
  }

  lemma OutsideStays(s: State, e: Event, t: nat)
    requires Step(s, e).Some? && Outside(At(s, t)) && e != Borrow(t)
    ensures Outside(At(Step(s, e).value, t))
  {
  }

  /** A borrow that looks at the flag after a close has begun never gets the
      pointer. */
  lemma {:induction false} LateBorrowIsRefused(ss: seq<State>, es: seq<Event>, l: nat, m: nat, t: nat)
    requires IsRun(ss, es) && l < m <= |es| && es[l] == LoadClosing(t) && CloseBefore(es, l)
    requires forall n | l < n < m :: es[n] != Borrow(t)
    ensures Outside(At(ss[m], t))
    decreases m
  {
    assert Step(ss[m - 1], es[m - 1]) == Some(ss[m]);
    if l == m - 1 {
      ClosingIsAnnounced(ss, es, l);
    } else {
      LateBorrowIsRefused(ss, es, l, m - 1, t);
      OutsideStays(ss[m - 1], es[m - 1], t);
    }
  }

  /** While the runtime is open every thread can borrow it, and giving it back
      restores the state. */
  lemma BorrowRunsThrough(s: State, t: nat)
    requires s.pointer && !s.closing && !s.structFreed && t !in s.threads
    ensures Step(s, Borrow(t)).Some?
            && var s1 := Step(s, Borrow(t)).value;
               Step(s1, LoadClosing(t)).Some?
               && var s2 := Step(s1, LoadClosing(t)).value;
                  Step(s2, LoadPointer(t)).Some?
                  && var s3 := Step(s2, LoadPointer(t)).value;
                     At(s3, t) == Some(Using) && Step(s3, Decrement(t)) == Some(s)
  {
    assert s.threads[t := Counted][t := Checked][t := Using] - {t} == s.threads;
  }

  /** A close with no borrow in flight runs through and frees what it took. */
  lemma CloseRunsThrough(s: State, t: nat)
    requires s.active == 0 && !s.structFreed && t !in s.threads
    ensures Step(s, Close(t)).Some?
            && var s1 := Step(s, Close(t)).value;
               Step(s1, Exchange(t)).Some?
               && var s2 := Step(s1, Exchange(t)).value;
                  Step(s2, SeeZero(t)).Some?
                  && var s3 := Step(s2, SeeZero(t)).value;
                     Step(s3, Free(t)) == Some(s.(closing := true, pointer := false, freed := s.freed + One(s.pointer)))
  {
    assert s.threads[t := Flagged(false)][t := Waiting(false, s.pointer)][t := Alone(false, s.pointer)] - {t} == s.threads;
  }

  /** A finalizer that is alone runs through, frees what is left and then the
      owner struct. */
  lemma FinalizerRunsThrough(s: State, t: nat)
    requires s.active == 0 && !s.collected && s.threads == map[]
    ensures Step(s, Collect(t)).Some?
            && var s1 := Step(s, Collect(t)).value;
               Step(s1, Exchange(t)).Some?
               && var s2 := Step(s1, Exchange(t)).value;
                  Step(s2, SeeZero(t)).Some?
                  && var s3 := Step(s2, SeeZero(t)).value;
                     Step(s3, Free(t)).Some?
                     && Step(Step(s3, Free(t)).value, FreeStruct(t))
                        == Some(State(false, 0, true, s.freed + One(s.pointer), true, true, map[]))
  {
    var f := Flagged(true);
    assert s.threads[t := f][t := Waiting(true, s.pointer)][t := Alone(true, s.pointer)][t := Disposed] - {t} == map[];
    assert s.threads[t := f][t := Waiting(true, s.pointer)][t := Alone(true, s.pointer)][t := Disposed].Keys == {t};
  }

  /** Nothing leaks: when a close or a finalizer has run to its end, the runtime
      has been freed exactly once, or is in the hands of another closer that
      will free it. */
  lemma ClosedMeansFreed(ss: seq<State>, es: seq<Event>, i: nat)
    requires IsRun(ss, es) && i <= |es| && !ss[i].pointer && ss[0].pointer
    ensures ss[i].freed == 1 || exists t <- ss[i].threads :: Holds(ss[i].threads[t])
    ensures ss[i].threads == map[] ==> ss[i].freed == 1
  {
    InvHolds(ss, es, i);
    if ss[i].freed == 0 {
      assert Holders(ss[i]) != {};
      var t :| t in Holders(ss[i]);
    }
  }
}
