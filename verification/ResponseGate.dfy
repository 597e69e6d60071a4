/** The result-buffer gate of lib/core_bridge/response_borrow_gate.h and the
    two-borrow copy of `copy_response_buffer`, one step per atomic access, with
    any number of readers and closers. Reading a freed buffer is a step of the
    model (it sets `fault`), so that its absence is a theorem. */
module ResponseGate {
  import opened Common

  type Bytes = seq<nat>

  datatype Pc =
    // copy_response_buffer; `known` is the length found by the first borrow
    | Counted(known: Option<nat>)
    | Reading(known: Option<nat>)
    | Measured(length: nat)
    | Between(length: nat)
    | Copied(bytes: Bytes)
    | Backing
    // response_borrow_gate_close_and_wait
    | Waiting
    | Alone

  datatype State = State(live: bool, active: int, buffer: Option<Bytes>, frees: nat, fault: bool, threads: map<nat, Pc>)

  datatype Event =
    | Begin(thread: nat)
    | Again(thread: nat)
    | CheckLive(thread: nat)
    | Measure(thread: nat)
    | Copy(thread: nat)
    | Release(thread: nat)
    | CompareExchange(thread: nat)
    | SeeZero(thread: nat)
    | Free(thread: nat)

  function At(s: State, t: nat): Option<Pc> {
    if t in s.threads then Some(s.threads[t]) else None
  }

  function Goto(s: State, t: nat, pc: Pc): State {
    s.(threads := s.threads[t := pc])
  }

  function Step(s: State, e: Event): Option<State> {
    var pc := At(s, e.thread);
    match e
    case Begin(t) => if pc.Some? then None else Some(Goto(s, t, Counted(None)).(active := s.active + 1))
    case Again(t) =>
      if pc.None? || !pc.value.Between? then None
      else Some(Goto(s, t, Counted(Some(pc.value.length))).(active := s.active + 1))
    case CheckLive(t) =>
      if pc.None? || !pc.value.Counted? then None
      else Some(Goto(s, t, if s.live then Reading(pc.value.known) else Backing))
    case Measure(t) =>
      if pc != Some(Reading(None)) then None
      else if s.buffer.None? then Some(s.(fault := true))
      else Some(Goto(s, t, Measured(|s.buffer.value|)))
    case Copy(t) =>
      if pc.None? || !pc.value.Reading? || pc.value.known.None? then None
      else if s.buffer.None? || |s.buffer.value| < pc.value.known.value then Some(s.(fault := true))
      else Some(Goto(s, t, Copied(s.buffer.value[..pc.value.known.value])))
    case Release(t) =>
      if pc.None? then None
      else match pc.value {
        case Measured(length) => Some(Goto(s, t, Between(length)).(active := s.active - 1))
        case Copied(_) => Some(s.(threads := s.threads - {t}, active := s.active - 1))
        case Backing => Some(s.(threads := s.threads - {t}, active := s.active - 1))
        case _ => None
      }
    case CompareExchange(t) =>
      if pc.Some? then None else if s.live then Some(Goto(s, t, Waiting).(live := false)) else Some(s)
    case SeeZero(t) => if pc != Some(Waiting) || s.active != 0 then None else Some(Goto(s, t, Alone))
    case Free(t) =>
      if pc != Some(Alone) then None
      else Some(s.(buffer := None, frees := s.frees + 1, threads := s.threads - {t}))
  }

  predicate IsInit(s: State, bytes: Bytes) {
    s == State(true, 0, Some(bytes), 0, false, map[])
  }

  // ---- Invariant ----

  predicate InCount(pc: Pc) {
    pc.Counted? || Admitted(pc) || pc.Backing?
  }

  predicate Admitted(pc: Pc) {
    pc.Reading? || pc.Measured? || pc.Copied?
  }

  predicate Closes(pc: Pc) {
    pc.Waiting? || pc.Alone?
  }

  function CountedThreads(s: State): set<nat> {
    set t | t in s.threads && InCount(s.threads[t])
  }

  function Closers(s: State): set<nat> {
    set t | t in s.threads && Closes(s.threads[t])
  }

  predicate NobodyReads(s: State) {
    forall t <- s.threads :: !Admitted(s.threads[t])
  }

  /** The one close is either not won yet, under way, or done. */
  predicate OneCloser(s: State) {
    && One(s.live) + |Closers(s)| + s.frees == 1
    && (s.buffer.None? <==> s.frees == 1)
  }

  predicate Quiet(s: State) {
    && (s.frees > 0 ==> NobodyReads(s))
    && (forall t <- s.threads :: s.threads[t].Alone? ==> NobodyReads(s))
  }

  /** What readers have found out is true of the result. */
  predicate Truthful(pc: Pc, bytes: Bytes) {
    match pc
    case Counted(known) => known.Some? ==> known.value == |bytes|
    case Reading(known) => known.Some? ==> known.value == |bytes|
    case Measured(length) => length == |bytes|
    case Between(length) => length == |bytes|
    case Copied(copy) => copy == bytes
    case _ => true
  }

  predicate Faithful(s: State, bytes: Bytes) {
    && !s.fault && (s.buffer.Some? ==> s.buffer.value == bytes)
    && forall t <- s.threads :: Truthful(s.threads[t], bytes)
  }

  predicate Inv(s: State, bytes: Bytes) {
    s.active == |CountedThreads(s)| && OneCloser(s) && Quiet(s) && Faithful(s, bytes)
  }

  predicate Moves(s: State, s': State, t: nat) {
    s'.threads == if t in s'.threads then s.threads[t := s'.threads[t]] else s.threads - {t}
  }

  lemma OnlyActorMoves(s: State, e: Event)
    requires Step(s, e).Some?
    ensures Moves(s, Step(s, e).value, e.thread)
  {
  }

  lemma CountedChange(s: State, s': State, t: nat)
    requires Moves(s, s', t)
    ensures |CountedThreads(s')| == |CountedThreads(s)| + One(t in s'.threads && InCount(s'.threads[t]))
                                                        - One(t in s.threads && InCount(s.threads[t]))
  {
    AddSize(CountedThreads(s), t);
    RemoveSize(CountedThreads(s), t);
    assert CountedThreads(s') == if t in s'.threads && InCount(s'.threads[t]) then CountedThreads(s) + {t} else CountedThreads(s) - {t};
  }

  lemma ClosersChange(s: State, s': State, t: nat)
    requires Moves(s, s', t)
    ensures |Closers(s')| == |Closers(s)| + One(t in s'.threads && Closes(s'.threads[t]))
                                          - One(t in s.threads && Closes(s.threads[t]))
  {
    AddSize(Closers(s), t);
    RemoveSize(Closers(s), t);
    assert Closers(s') == if t in s'.threads && Closes(s'.threads[t]) then Closers(s) + {t} else Closers(s) - {t};
  }

  lemma CountsKept(s: State, e: Event, bytes: Bytes)
    requires Inv(s, bytes) && Step(s, e).Some?
    ensures Step(s, e).value.active == |CountedThreads(Step(s, e).value)| && OneCloser(Step(s, e).value)
  {
    OnlyActorMoves(s, e);
    CountedChange(s, Step(s, e).value, e.thread);
    ClosersChange(s, Step(s, e).value, e.thread);
  }

  lemma QuietKept(s: State, e: Event, bytes: Bytes)
    requires Inv(s, bytes) && Step(s, e).Some?
    ensures Quiet(Step(s, e).value)
  {
    if e.SeeZero? {
      forall u <- s.threads ensures !Admitted(s.threads[u]) {
        assert u !in CountedThreads(s);
      }
    } else if e.CheckLive? && s.live {
      forall u <- s.threads ensures !Closes(s.threads[u]) {
        assert u !in Closers(s);
      }
    }
  }

  lemma FaithfulKept(s: State, e: Event, bytes: Bytes)
    requires Inv(s, bytes) && Step(s, e).Some?
    ensures Faithful(Step(s, e).value, bytes)
  {
    OnlyActorMoves(s, e);
    if e.Copy? {
      assert Truthful(s.threads[e.thread], bytes);
      assert bytes[..|bytes|] == bytes;
    }
  }

  // ---- Runs ----

  ghost predicate IsRun(ss: seq<State>, es: seq<Event>, bytes: Bytes) {
    && |ss| == |es| + 1 && IsInit(ss[0], bytes)
    && forall i | 0 <= i < |es| :: Step(ss[i], es[i]) == Some(ss[i + 1])
  }

  lemma {:induction false} InvHolds(ss: seq<State>, es: seq<Event>, bytes: Bytes, i: nat)
    requires IsRun(ss, es, bytes) && i <= |es|
    ensures Inv(ss[i], bytes)
  {
    if i == 0 {
      assert CountedThreads(ss[0]) == {} && Closers(ss[0]) == {};
    } else {
      InvHolds(ss, es, bytes, i - 1);
      assert Step(ss[i - 1], es[i - 1]) == Some(ss[i]);
      CountsKept(ss[i - 1], es[i - 1], bytes);
      QuietKept(ss[i - 1], es[i - 1], bytes);
      FaithfulKept(ss[i - 1], es[i - 1], bytes);
    }
  }

  /** In every interleaving no freed byte is read, the result is freed at most
      once and never under an admitted reader, and every copy that finishes is
      the whole result. */
  lemma CopiesAreExact(ss: seq<State>, es: seq<Event>, bytes: Bytes, i: nat)
    requires IsRun(ss, es, bytes) && i <= |es|
    ensures !ss[i].fault && ss[i].frees <= 1 && ss[i].active == |CountedThreads(ss[i])|
    ensures ss[i].buffer.None? ==> NobodyReads(ss[i])
    ensures i < |es| && es[i].Free? ==> NobodyReads(ss[i])
    ensures forall t :: At(ss[i], t).Some? && At(ss[i], t).value.Copied? ==> At(ss[i], t).value.bytes == bytes
  {
    InvHolds(ss, es, bytes, i);
    if i < |es| {
      assert Step(ss[i], es[i]) == Some(ss[i + 1]);
    }
  }

  lemma StepRefusesReaders(s: State, e: Event, t: nat)
    requires Step(s, e).Some? && !s.live
    ensures !Step(s, e).value.live
    ensures At(Step(s, e).value, t).Some? && Admitted(At(Step(s, e).value, t).value)
            ==> At(s, t).Some? && Admitted(At(s, t).value)
  {
  }

  /** After the compare-exchange no reader is admitted any more. */
  lemma {:induction false} NobodyAdmittedAfterClose(ss: seq<State>, es: seq<Event>, bytes: Bytes, i: nat, j: nat, t: nat)
    requires IsRun(ss, es, bytes) && i <= j <= |es| && !ss[i].live
    ensures !ss[j].live
    ensures At(ss[j], t).Some? && Admitted(At(ss[j], t).value) ==> At(ss[i], t).Some? && Admitted(At(ss[i], t).value)
    decreases j
  {
    if i < j {
      NobodyAdmittedAfterClose(ss, es, bytes, i, j - 1, t);
      assert Step(ss[j - 1], es[j - 1]) == Some(ss[j]);
      StepRefusesReaders(ss[j - 1], es[j - 1], t);
    }
  }

  // ---- Who is admitted ----

  predicate CloseBefore(es: seq<Event>, i: nat) {
    exists k | 0 <= k < i && k < |es| :: es[k].CompareExchange?
  }

  lemma OnlyExchangeEnds(s: State, e: Event)
    requires Step(s, e).Some?
    ensures Step(s, e).value.live <==> s.live && !e.CompareExchange?
  {
  }

  /** The result is live until the first compare-exchange. */
  lemma {:induction false} LiveUntilClosed(ss: seq<State>, es: seq<Event>, bytes: Bytes, i: nat)
    requires IsRun(ss, es, bytes) && i <= |es|
    ensures ss[i].live <==> !CloseBefore(es, i)
  {
    if i > 0 {
      LiveUntilClosed(ss, es, bytes, i - 1);
      assert Step(ss[i - 1], es[i - 1]) == Some(ss[i]);
      OnlyExchangeEnds(ss[i - 1], es[i - 1]);
      assert es[i - 1].CompareExchange? || CloseBefore(es, i - 1) <==> CloseBefore(es, i);
    }
  }

  lemma OnlyCheckRefuses(s: State, e: Event, t: nat)
    requires Step(s, e).Some? && At(Step(s, e).value, t) == Some(Backing) && At(s, t) != Some(Backing)
    ensures e == CheckLive(t) && !s.live
  {
  }

  /** A read is refused only because a close had won before it looked. */
  lemma {:induction false} RefusedOnlyByClose(ss: seq<State>, es: seq<Event>, bytes: Bytes, i: nat, t: nat) returns (l: nat)
    requires IsRun(ss, es, bytes) && i <= |es| && At(ss[i], t) == Some(Backing)
    ensures l < i && es[l] == CheckLive(t) && CloseBefore(es, l)
    ensures forall m | l < m <= i :: At(ss[m], t) == Some(Backing)
  {
    assert i > 0;
    assert Step(ss[i - 1], es[i - 1]) == Some(ss[i]);
    if At(ss[i - 1], t) == Some(Backing) {
      l := RefusedOnlyByClose(ss, es, bytes, i - 1, t);
    } else {
      l := i - 1;
      OnlyCheckRefuses(ss[l], es[l], t);
      LiveUntilClosed(ss, es, bytes, l);
    }
  }

  /** Outside a borrow, or in one that was refused. */
  predicate Outside(pc: Option<Pc>) {
    pc.None? || pc.value.Backing? || Closes(pc.value)
  }

  lemma OutsideStays(s: State, e: Event, t: nat)
    requires Step(s, e).Some? && Outside(At(s, t)) && e != Begin(t)
    ensures Outside(At(Step(s, e).value, t))
  {
  }

  /** A read that looks after a close has won is never admitted. */
  lemma {:induction false} LateReadIsRefused(ss: seq<State>, es: seq<Event>, bytes: Bytes, l: nat, m: nat, t: nat)
    requires IsRun(ss, es, bytes) && l < m <= |es| && es[l] == CheckLive(t) && CloseBefore(es, l)
    requires forall n | l < n < m :: es[n] != Begin(t)
    ensures Outside(At(ss[m], t))
    decreases m
  {
    assert Step(ss[m - 1], es[m - 1]) == Some(ss[m]);
    if l == m - 1 {
      LiveUntilClosed(ss, es, bytes, l);
    } else {
      LateReadIsRefused(ss, es, bytes, l, m - 1, t);
      OutsideStays(ss[m - 1], es[m - 1], t);
    }
  }

  /** While the result is live every thread can measure it. */
  lemma MeasureRunsThrough(s: State, t: nat)
    requires s.live && s.buffer.Some? && t !in s.threads
    ensures Step(s, Begin(t)).Some?
            && var s1 := Step(s, Begin(t)).value;
               Step(s1, CheckLive(t)).Some?
               && var s2 := Step(s1, CheckLive(t)).value;
                  Step(s2, Measure(t)).Some?
                  && var s3 := Step(s2, Measure(t)).value;
                     Step(s3, Release(t)) == Some(Goto(s, t, Between(|s.buffer.value|)))
  {
    var n := |s.buffer.value|;
    assert s.threads[t := Counted(None)][t := Reading(None)][t := Measured(n)][t := Between(n)] == s.threads[t := Between(n)];
  }

  /** And, if it still is, copy the whole of it and leave no trace. */
  lemma CopyRunsThrough(s: State, t: nat)
    requires s.live && s.buffer.Some? && At(s, t) == Some(Between(|s.buffer.value|))
    ensures Step(s, Again(t)).Some?
            && var s1 := Step(s, Again(t)).value;
               Step(s1, CheckLive(t)).Some?
               && var s2 := Step(s1, CheckLive(t)).value;
                  Step(s2, Copy(t)).Some?
                  && var s3 := Step(s2, Copy(t)).value;
                     At(s3, t) == Some(Copied(s.buffer.value)) && Step(s3, Release(t)) == Some(s.(threads := s.threads - {t}))
  {
    var b := s.buffer.value;
    assert b[..|b|] == b;
    assert s.threads[t := Counted(Some(|b|))][t := Reading(Some(|b|))][t := Copied(b)] - {t} == s.threads - {t};
  }

  /** A close with no borrow in flight runs through and frees the result; a
      second close does nothing. */
  lemma CloseRunsThrough(s: State, t: nat)
    requires s.active == 0 && t !in s.threads
    ensures !s.live ==> Step(s, CompareExchange(t)) == Some(s)
    ensures s.live ==>
              Step(s, CompareExchange(t)).Some?
              && var s1 := Step(s, CompareExchange(t)).value;
                 Step(s1, SeeZero(t)).Some?
                 && Step(Step(s1, SeeZero(t)).value, Free(t)) == Some(s.(live := false, buffer := None, frees := s.frees + 1))
  {
    assert s.threads[t := Waiting][t := Alone] - {t} == s.threads;
  }
}
