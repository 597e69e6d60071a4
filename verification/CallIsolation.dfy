/** Owners do not interfere. One owner's calls, numbered in the order it
    registered them, form a small system of their own; whatever the other
    owners do, the whole registry behaves for this owner exactly like that
    system, and only the owner's own events move it. */
module CallIsolation {
  import opened Common
  import opened ClientCalls
  import opened CallProtocol
  import opened CallInvariant
  import opened CallRuns

  // ---- The system one owner sees ----

  datatype Cell = Cell(registered: bool, attached: bool, slot: SlotState, guard: bool, running: bool, aborted: bool)

  datatype LocalOp =
    | LRegistering
    | LClosing(todo: set<nat>, abort: set<nat>)
    | LLooking(call: nat)
    | LAsleep(call: nat)
    | LSettled(call: nat, answer: Operation)

  /** `calls[k]` is the owner's k-th call; `threads` are the threads inside an
      operation for this owner. */
  datatype Local = Local(calls: seq<Cell>, threads: map<nat, LocalOp>)

  /** An input of the owner. Calls are named by number; `None` names an
      identifier that is not one of the owner's. */
  datatype Input =
    | LFetch(thread: nat, granted: bool)
    | LInsert(thread: nat)
    | LInsertFails(thread: nat)
    | LSpawn(call: nat)
    | LAttach(call: nat)
    | LPublish(call: nat, outcome: Operation)
    | LTaskEnds(call: nat)
    | LRelease(thread: nat, named: Option<nat>)
    | LReleaseOwner(thread: nat)
    | LClose(thread: nat, call: nat)
    | LFinishClosing(thread: nat)
    | LLookup(thread: nat, named: Option<nat>)
    | LSleep(thread: nat)
    | LWake(thread: nat)
    | LExpire(thread: nat)
    | LSettle(thread: nat)
    | LRetire(thread: nat)

  const Nothing := Local([], map[])

  function LWoken(threads: map<nat, LocalOp>, call: nat): map<nat, LocalOp> {
    map t | t in threads :: if threads[t] == LAsleep(call) then LLooking(call) else threads[t]
  }

  predicate NamesRegistered(v: Local, named: Option<nat>) {
    named.Some? && named.value < |v.calls| && v.calls[named.value].registered
  }

  predicate Reads(v: Local, t: nat) {
    t in v.threads && (v.threads[t].LLooking? || v.threads[t].LSettled?) && v.threads[t].call < |v.calls|
  }

  function Unregistered(cell: Cell): Cell {
    cell.(registered := false, attached := false)
  }

  /** What an input does to the owner's calls. */
  function CallsReact(v: Local, input: Input): seq<Cell> {
    match input
    case LInsert(t) => v.calls + [Cell(true, false, Pending, true, false, false)]
    case LSpawn(k) => if k < |v.calls| then v.calls[k := v.calls[k].(running := true)] else v.calls
    case LAttach(k) =>
      if k >= |v.calls| then v.calls
      else if v.calls[k].registered then v.calls[k := v.calls[k].(attached := true)]
      else v.calls[k := v.calls[k].(aborted := true)]
    case LPublish(k, outcome) =>
      if k < |v.calls| then v.calls[k := v.calls[k].(slot := Completed(v.calls[k].slot, outcome), guard := false)] else v.calls
    case LTaskEnds(k) => if k < |v.calls| then v.calls[k := v.calls[k].(running := false)] else v.calls
    case LRelease(t, named) =>
      if NamesRegistered(v, named) then v.calls[named.value := Unregistered(v.calls[named.value])] else v.calls
    case LReleaseOwner(t) => seq(|v.calls|, i requires 0 <= i < |v.calls| => Unregistered(v.calls[i]))
    case LClose(t, k) => if k < |v.calls| then v.calls[k := v.calls[k].(slot := ClosedSlot(v.calls[k].slot))] else v.calls
    case LFinishClosing(t) =>
      if t in v.threads && v.threads[t].LClosing?
      then seq(|v.calls|, i requires 0 <= i < |v.calls| =>
                 v.calls[i].(aborted := v.calls[i].aborted || i in v.threads[t].abort))
      else v.calls
    case LSettle(t) =>
      if Reads(v, t) then v.calls[v.threads[t].call := v.calls[v.threads[t].call].(slot := SettledSlot(v.calls[v.threads[t].call].slot))]
      else v.calls
    case LRetire(t) =>
      if Reads(v, t) then v.calls[v.threads[t].call := Unregistered(v.calls[v.threads[t].call])] else v.calls
    case _ => v.calls
  }

  function LNotified(v: Local, k: nat): map<nat, LocalOp> {
    if k < |v.calls| && v.calls[k].slot.Pending? then LWoken(v.threads, k) else v.threads
  }

  /** What an input does to the owner's threads. */
  function ThreadsReact(v: Local, input: Input): map<nat, LocalOp> {
    match input
    case LFetch(t, granted) => if granted then v.threads[t := LRegistering] else v.threads
    case LInsert(t) => v.threads - {t}
    case LInsertFails(t) => v.threads - {t}
    case LSpawn(_) => v.threads
    case LAttach(_) => v.threads
    case LPublish(k, _) => LNotified(v, k)
    case LTaskEnds(_) => v.threads
    case LRelease(t, named) =>
      if NamesRegistered(v, named)
      then v.threads[t := LClosing({named.value}, if v.calls[named.value].attached then {named.value} else {})]
      else v.threads
    case LReleaseOwner(t) => v.threads[t := LClosing(set i | 0 <= i < |v.calls| && v.calls[i].registered, {})]
    case LClose(t, k) =>
      if t in v.threads && v.threads[t].LClosing? then LNotified(v, k)[t := v.threads[t].(todo := v.threads[t].todo - {k})]
      else v.threads
    case LFinishClosing(t) => v.threads - {t}
    case LLookup(t, named) => if NamesRegistered(v, named) then v.threads[t := LLooking(named.value)] else v.threads
    case LSleep(t) => if t in v.threads && v.threads[t].LLooking? then v.threads[t := LAsleep(v.threads[t].call)] else v.threads
    case LWake(t) => if t in v.threads && v.threads[t].LAsleep? then v.threads[t := LLooking(v.threads[t].call)] else v.threads
    case LExpire(t) => v.threads - {t}
    case LSettle(t) =>
      if Reads(v, t) then v.threads[t := LSettled(v.threads[t].call, SettledAnswer(v.calls[v.threads[t].call].slot))]
      else v.threads
    case LRetire(t) => v.threads - {t}
  }

  function React(v: Local, input: Input): Local {
    Local(CallsReact(v, input), ThreadsReact(v, input))
  }

  /** What the owner is told, from its own view alone. */
  function Told(v: Local, input: Input): Option<Operation> {
    match input
    case LLookup(t, named) =>
      if NamesRegistered(v, named) then None else Some(ClosedFailure())
    case LExpire(t) => Some(NotReadyFailure())
    case LRetire(t) => if t in v.threads && v.threads[t].LSettled? then Some(v.threads[t].answer) else None
    case _ => None
  }

  // ---- Seeing the registry through one owner's eyes ----

  ghost predicate Distinct(ids: seq<nat>) {
    forall i, j | 0 <= i < j < |ids| :: ids[i] != ids[j]
  }

  /** `ids` lists exactly the calls ever registered by `owner`. */
  ghost predicate Numbers(s: State, owner: nat, ids: seq<nat>) {
    Distinct(ids) && forall c :: c in ids <==> IssuedTo(s, c, owner)
  }

  function IndexOf(ids: seq<nat>, c: nat): (k: nat)
    requires c in ids
    ensures k < |ids| && ids[k] == c
  {
    if ids[|ids| - 1] == c then |ids| - 1 else IndexOf(ids[..|ids| - 1], c)
  }

  function Indices(ids: seq<nat>, cs: set<nat>): set<nat> {
    set i | 0 <= i < |ids| && ids[i] in cs
  }

  function Named(ids: seq<nat>, c: nat): Option<nat> {
    if c in ids then Some(IndexOf(ids, c)) else None
  }

  function CellOf(s: State, c: nat): Cell {
    Cell(c in s.reg.calls, c in s.reg.calls && s.reg.calls[c].attached, Slot(s, c),
         c in s.guards, c in s.running, c in s.aborted)
  }

  function SeenOp(op: Op, ids: seq<nat>): LocalOp {
    match op
    case Registering(_, _) => LRegistering
    case Closing(_, todo, abort) => LClosing(Indices(ids, todo), Indices(ids, abort))
    case Looking(_, c) => if c in ids then LLooking(IndexOf(ids, c)) else LRegistering
    case Asleep(_, c) => if c in ids then LAsleep(IndexOf(ids, c)) else LRegistering
    case Settled(_, c, answer) => if c in ids then LSettled(IndexOf(ids, c), answer) else LRegistering
  }

  function Cells(s: State, ids: seq<nat>): seq<Cell> {
    seq(|ids|, i requires 0 <= i < |ids| => CellOf(s, ids[i]))
  }

  function Ops(threads: map<nat, Op>, owner: nat, ids: seq<nat>): map<nat, LocalOp> {
    map t | t in threads && threads[t].owner == owner :: SeenOp(threads[t], ids)
  }

  function View(s: State, owner: nat, ids: seq<nat>): Local {
    Local(Cells(s, ids), Ops(s.threads, owner, ids))
  }

  /** Whose event it is. */
  function OwnerOf(s: State, e: Event): Option<nat> {
    match e
    case FetchId(_, owner) => Some(owner)
    case Attach(owner, _) => Some(owner)
    case Release(_, owner, _) => Some(owner)
    case ReleaseOwner(_, owner) => Some(owner)
    case Lookup(_, owner, _) => Some(owner)
    case Spawn(c) => if c in s.owners then Some(s.owners[c]) else None
    case Publish(c, _) => if c in s.owners then Some(s.owners[c]) else None
    case TaskEnds(c) => if c in s.owners then Some(s.owners[c]) else None
    case _ => if e.thread in s.threads then Some(s.threads[e.thread].owner) else None
  }

  /** The owner's own event in its own numbering. */
  function AsInput(s: State, e: Event, ids: seq<nat>): Input {
    match e
    case FetchId(t, _) => LFetch(t, s.nextCall < MAX_CALL_ID)
    case Insert(t) => LInsert(t)
    case InsertFails(t) => LInsertFails(t)
    case Spawn(c) => if c in ids then LSpawn(IndexOf(ids, c)) else LWake(0)
    case Attach(_, c) => if c in ids then LAttach(IndexOf(ids, c)) else LWake(0)
    case Publish(c, outcome) => if c in ids then LPublish(IndexOf(ids, c), outcome) else LWake(0)
    case TaskEnds(c) => if c in ids then LTaskEnds(IndexOf(ids, c)) else LWake(0)
    case Release(t, _, c) => LRelease(t, Named(ids, c))
    case ReleaseOwner(t, _) => LReleaseOwner(t)
    case Close(t, c) => if c in ids then LClose(t, IndexOf(ids, c)) else LWake(0)
    case FinishClosing(t) => LFinishClosing(t)
    case Lookup(t, _, c) => LLookup(t, Named(ids, c))
    case Sleep(t) => LSleep(t)
    case Wake(t) => LWake(t)
    case Expire(t) => LExpire(t)
    case Settle(t) => LSettle(t)
    case Retire(t) => LRetire(t)
  }

  /** The numbering after the event. */
  function Renumbered(s: State, e: Event, owner: nat, ids: seq<nat>): seq<nat> {
    if e.Insert? && e.thread in s.threads && s.threads[e.thread].Registering? && s.threads[e.thread].owner == owner
    then ids + [s.threads[e.thread].call] else ids
  }

  // ---- Other owners' events are invisible ----

  lemma OthersAreInvisible(s: State, e: Event, owner: nat, ids: seq<nat>)
    requires Inv(s) && Numbers(s, owner, ids) && Step(s, e).Some? && OwnerOf(s, e) != Some(owner)
    ensures View(Step(s, e).value, owner, ids) == View(s, owner, ids)
    ensures Numbers(Step(s, e).value, owner, ids)
  {
    WritesElsewhere(s, e, owner);
    CellsOfStep(s, e, ids);
    OthersKeepCells(s, e, owner, ids);
    OthersKeepOps(s, e, owner, ids);
    StepWritesKnown(s, e);
    OthersKeepNumbers(s, e, owner, ids);
  }

  lemma OthersKeepNumbers(s: State, e: Event, owner: nat, ids: seq<nat>)
    requires WritesKnown(s, e) && Numbers(s, owner, ids) && Step(s, e).Some? && OwnerOf(s, e) != Some(owner)
    requires Elsewhere(s, e, owner)
    ensures Numbers(Step(s, e).value, owner, ids)
  {
    if !AllocatesId(e) {
      OnlyRegisterIssues(s, e);
    }
  }

  /** A call other than those the event touches. */
  predicate Untouched(s: State, e: Event, c: nat)
    requires Enabled(s, e)
  {
    match e
    case Insert(t) => s.threads[t].call != c
    case Spawn(call) => call != c
    case Attach(_, call) => call != c
    case Publish(call, _) => call != c
    case TaskEnds(call) => call != c
    case Release(_, owner, call) => call != c || !Owns(s.reg, owner, call)
    case ReleaseOwner(_, owner) => c in s.reg.calls ==> s.reg.calls[c].owner != owner
    case Close(_, call) => call != c
    case FinishClosing(t) => c !in s.threads[t].abort
    case Settle(t) => s.threads[t].call != c
    case Retire(t) => s.threads[t].call != c
    case _ => true
  }

  lemma UntouchedEntry(s: State, e: Event, c: nat)
    requires Enabled(s, e) && Untouched(s, e, c)
    ensures c in RegAfter(s, e).calls <==> c in s.reg.calls
    ensures c in s.reg.calls ==> RegAfter(s, e).calls[c] == s.reg.calls[c]
  {
  }

  lemma UntouchedSlot(s: State, e: Event, c: nat)
    requires Enabled(s, e) && Untouched(s, e, c)
    ensures c in SlotsAfter(s, e) <==> c in s.slots
    ensures c in s.slots ==> SlotsAfter(s, e)[c] == s.slots[c]
  {
  }

  lemma UntouchedTask(s: State, e: Event, c: nat)
    requires Enabled(s, e) && Untouched(s, e, c)
    ensures c in GuardsAfter(s, e) <==> c in s.guards
    ensures c in RunningAfter(s, e) <==> c in s.running
    ensures c in AbortedAfter(s, e) <==> c in s.aborted
  {
  }

  /** The cell of `c` after the event. */
  function CellAfter(s: State, e: Event, c: nat): Cell
    requires Enabled(s, e)
  {
    Cell(c in RegAfter(s, e).calls, c in RegAfter(s, e).calls && RegAfter(s, e).calls[c].attached,
         if c in SlotsAfter(s, e) then SlotsAfter(s, e)[c] else Closed,
         c in GuardsAfter(s, e), c in RunningAfter(s, e), c in AbortedAfter(s, e))
  }

  function CellsAfter(s: State, e: Event, ids: seq<nat>): seq<Cell>
    requires Enabled(s, e)
  {
    seq(|ids|, i requires 0 <= i < |ids| => CellAfter(s, e, ids[i]))
  }

  lemma CellsOfStep(s: State, e: Event, ids: seq<nat>)
    requires Step(s, e).Some?
    ensures Cells(Step(s, e).value, ids) == CellsAfter(s, e, ids)
  {
  }

  lemma UntouchedKeepsCell(s: State, e: Event, c: nat)
    requires Enabled(s, e) && Untouched(s, e, c)
    ensures CellAfter(s, e, c) == CellOf(s, c)
  {
    UntouchedEntry(s, e, c);
    UntouchedSlot(s, e, c);
    UntouchedTask(s, e, c);
  }

  /** Events of other owners touch calls of other owners. */
  ghost predicate Elsewhere(s: State, e: Event, owner: nat)
    requires Enabled(s, e)
  {
    (e.Insert? ==> s.threads[e.thread].call !in s.owners) && forall c | IssuedTo(s, c, owner) :: Untouched(s, e, c)
  }

  lemma WritesElsewhere(s: State, e: Event, owner: nat)
    requires Inv(s) && Enabled(s, e) && OwnerOf(s, e) != Some(owner)
    ensures Elsewhere(s, e, owner)
  {
    if e.Insert? || e.Close? || e.FinishClosing? || e.Settle? || e.Retire? {
      assert OpSound(s, s.threads[e.thread]);
    }
    forall c | IssuedTo(s, c, owner) ensures Untouched(s, e, c) {
      assert c in s.reg.calls ==> IssuedTo(s, c, s.reg.calls[c].owner);
    }
  }

  lemma OthersKeepCells(s: State, e: Event, owner: nat, ids: seq<nat>)
    requires Enabled(s, e) && Numbers(s, owner, ids) && Elsewhere(s, e, owner)
    ensures CellsAfter(s, e, ids) == Cells(s, ids)
  {
    forall i | 0 <= i < |ids| ensures CellAfter(s, e, ids[i]) == CellOf(s, ids[i]) {
      assert ids[i] in ids && IssuedTo(s, ids[i], owner);
      UntouchedKeepsCell(s, e, ids[i]);
    }
  }

  lemma OthersKeepOp(s: State, e: Event, owner: nat, t: nat)
    requires OpsSound(s) && Enabled(s, e) && Elsewhere(s, e, owner) && OwnerOf(s, e) != Some(owner)
    ensures (t in ThreadsAfter(s, e) && ThreadsAfter(s, e)[t].owner == owner) <==> (t in s.threads && s.threads[t].owner == owner)
    ensures t in s.threads && s.threads[t].owner == owner ==> ThreadsAfter(s, e)[t] == s.threads[t]
  {
    if CallInvariant.Acts(e, t) {
      ActorKeepsOwner(s, e, t);
    } else {
      OtherThreads(s, e, t);
      if t in s.threads && s.threads[t].owner == owner && s.threads[t].Asleep? {
        assert OpSound(s, s.threads[t]);
        assert Untouched(s, e, s.threads[t].call);
        OnlyItsCallWakes(s, e, t);
      }
    }
  }

  lemma ActorKeepsOwner(s: State, e: Event, t: nat)
    requires Enabled(s, e) && CallInvariant.Acts(e, t)
    ensures t in s.threads ==> OwnerOf(s, e) == Some(s.threads[t].owner)
    ensures t in ThreadsAfter(s, e) ==> OwnerOf(s, e) == Some(ThreadsAfter(s, e)[t].owner)
  {
  }

  lemma OnlyItsCallWakes(s: State, e: Event, t: nat)
    requires Enabled(s, e) && !CallInvariant.Acts(e, t) && t in s.threads && s.threads[t].Asleep?
    requires Untouched(s, e, s.threads[t].call)
    ensures t in ThreadsAfter(s, e) && ThreadsAfter(s, e)[t] == s.threads[t]
  {
  }

  lemma OthersKeepOps(s: State, e: Event, owner: nat, ids: seq<nat>)
    requires OpsSound(s) && Enabled(s, e) && Elsewhere(s, e, owner) && OwnerOf(s, e) != Some(owner)
    ensures Ops(ThreadsAfter(s, e), owner, ids) == Ops(s.threads, owner, ids)
  {
    forall t
      ensures (t in ThreadsAfter(s, e) && ThreadsAfter(s, e)[t].owner == owner) <==> (t in s.threads && s.threads[t].owner == owner)
      ensures t in s.threads && s.threads[t].owner == owner ==> ThreadsAfter(s, e)[t] == s.threads[t]
    {
      OthersKeepOp(s, e, owner, t);
    }
  }

  // ---- The owner's own events act on its view alone ----

  lemma {:induction false} IndexOfAt(ids: seq<nat>, i: nat)
    requires Distinct(ids) && i < |ids|
    ensures ids[i] in ids && IndexOf(ids, ids[i]) == i
  {
    if i < |ids| - 1 {
      IndexOfAt(ids[..|ids| - 1], i);
    }
  }

  lemma IndexLaws(ids: seq<nat>)
    requires Distinct(ids)
    ensures forall i {:trigger ids[i]} | 0 <= i < |ids| :: ids[i] in ids && IndexOf(ids, ids[i]) == i
  {
    forall i | 0 <= i < |ids| ensures ids[i] in ids && IndexOf(ids, ids[i]) == i {
      IndexOfAt(ids, i);
    }
  }

  ghost predicate Sound(s: State) {
    Fresh(s) && EntriesHaveSlots(s) && OpsSound(s)
  }

  predicate NamesCall(op: Op) {
    op.Looking? || op.Asleep? || op.Settled?
  }

  ghost predicate OpsKnown(threads: map<nat, Op>, owner: nat, ids: seq<nat>) {
    forall t <- threads :: threads[t].owner == owner && NamesCall(threads[t]) ==> threads[t].call in ids
  }

  lemma SoundOpsKnown(s: State, owner: nat, ids: seq<nat>)
    requires Sound(s) && Numbers(s, owner, ids)
    ensures OpsKnown(s.threads, owner, ids)
  {
    forall t <- s.threads | s.threads[t].owner == owner && NamesCall(s.threads[t]) ensures s.threads[t].call in ids {
      assert OpSound(s, s.threads[t]) && IssuedTo(s, s.threads[t].call, owner);
    }
  }

  // How single changes of the registry look through one owner's eyes.

  lemma WakeSeen(threads: map<nat, Op>, owner: nat, ids: seq<nat>, c: nat)
    requires Distinct(ids) && c in ids && OpsKnown(threads, owner, ids)
    ensures Ops(Woken(threads, c), owner, ids) == LWoken(Ops(threads, owner, ids), IndexOf(ids, c))
  {
    IndexLaws(ids);
  }

  lemma OpSeen(threads: map<nat, Op>, owner: nat, ids: seq<nat>, t: nat, op: Op)
    requires op.owner == owner
    ensures Ops(threads[t := op], owner, ids) == Ops(threads, owner, ids)[t := SeenOp(op, ids)]
  {
  }

  lemma EndSeen(threads: map<nat, Op>, owner: nat, ids: seq<nat>, t: nat)
    ensures Ops(threads - {t}, owner, ids) == Ops(threads, owner, ids) - {t}
  {
  }

  // The owner's events. Each lemma asks only for what the event relies on.

  function ViewAfter(s: State, e: Event, owner: nat, ids: seq<nat>): Local
    requires Enabled(s, e)
  {
    Local(CellsAfter(s, e, ids), Ops(ThreadsAfter(s, e), owner, ids))
  }

  lemma ViewOfStep(s: State, e: Event, owner: nat, ids: seq<nat>)
    requires Step(s, e).Some?
    ensures View(Step(s, e).value, owner, ids) == ViewAfter(s, e, owner, ids)
  {
    CellsOfStep(s, e, ids);
  }

  /** The view after the event, and the answer, come from the view before. */
  ghost predicate Reacts(s: State, e: Event, owner: nat, ids: seq<nat>)
    requires Enabled(s, e)
  {
    && ViewAfter(s, e, owner, Renumbered(s, e, owner, ids)) == React(View(s, owner, ids), AsInput(s, e, ids))
    && Answer(s, e) == Told(View(s, owner, ids), AsInput(s, e, ids))
  }

  /** `e` is an event of `owner` in a state whose calls `ids` numbers. */
  ghost predicate IsOwn(s: State, e: Event, owner: nat, ids: seq<nat>) {
    Distinct(ids) && OpsKnown(s.threads, owner, ids) && Enabled(s, e) && OwnerOf(s, e) == Some(owner)
  }

  /** Events that change no call. */
  predicate Quiet(s: State, e: Event) {
    e.FetchId? || e.InsertFails? || e.Lookup? || e.Sleep? || e.Wake? || e.Expire? || (e.Release? && !Owns(s.reg, e.owner, e.call))
  }

  lemma QuietCells(s: State, e: Event, ids: seq<nat>)
    requires Enabled(s, e) && Quiet(s, e)
    ensures CellsAfter(s, e, ids) == Cells(s, ids)
  {
    forall i | 0 <= i < |ids| ensures CellAfter(s, e, ids[i]) == CellOf(s, ids[i]) {
      UntouchedKeepsCell(s, e, ids[i]);
    }
  }

  /** Events that change the one call `c`. */
  lemma OneCell(s: State, e: Event, ids: seq<nat>, c: nat)
    requires Enabled(s, e) && Distinct(ids) && c in ids
    requires forall d | d != c :: Untouched(s, e, d)
    ensures CellsAfter(s, e, ids) == Cells(s, ids)[IndexOf(ids, c) := CellAfter(s, e, c)]
  {
    IndexLaws(ids);
    forall i | 0 <= i < |ids| && ids[i] != c ensures CellAfter(s, e, ids[i]) == CellOf(s, ids[i]) {
      UntouchedKeepsCell(s, e, ids[i]);
    }
  }

  lemma TaskReacts(s: State, e: Event, owner: nat, ids: seq<nat>)
    requires IsOwn(s, e, owner, ids) && (e.Spawn? || e.TaskEnds?) && e.call in ids
    ensures Reacts(s, e, owner, ids)
  {
    OneCell(s, e, ids, e.call);
  }

  lemma AttachReacts(s: State, e: Event, owner: nat, ids: seq<nat>)
    requires IsOwn(s, e, owner, ids) && e.Attach? && e.call in ids
    requires e.call in s.reg.calls ==> Owns(s.reg, owner, e.call)
    ensures Reacts(s, e, owner, ids)
  {
    OneCell(s, e, ids, e.call);
  }

  lemma NotifiedSeen(s: State, owner: nat, ids: seq<nat>, c: nat)
    requires Distinct(ids) && OpsKnown(s.threads, owner, ids) && c in ids
    ensures Ops(Notified(s, c), owner, ids) == LNotified(View(s, owner, ids), IndexOf(ids, c))
  {
    if Slot(s, c).Pending? {
      WakeSeen(s.threads, owner, ids, c);
    }
  }

  lemma PublishReacts(s: State, e: Event, owner: nat, ids: seq<nat>)
    requires IsOwn(s, e, owner, ids) && e.Publish? && e.call in ids
    ensures Reacts(s, e, owner, ids)
  {
    OneCell(s, e, ids, e.call);
    NotifiedSeen(s, owner, ids, e.call);
  }

  lemma OneIndex(ids: seq<nat>, c: nat)
    requires Distinct(ids) && c in ids
    ensures Indices(ids, {c}) == {IndexOf(ids, c)} && Indices(ids, {}) == {}
  {
    IndexLaws(ids);
  }

  lemma ReleaseReacts(s: State, t: nat, owner: nat, ids: seq<nat>, c: nat)
    requires Enabled(s, Release(t, owner, c)) && Owns(s.reg, owner, c) && Distinct(ids) && c in ids
    ensures Reacts(s, Release(t, owner, c), owner, ids)
  {
    OneCell(s, Release(t, owner, c), ids, c);
    OpSeen(s.threads, owner, ids, t, Closing(owner, {c}, if s.reg.calls[c].attached then {c} else {}));
    OneIndex(ids, c);
  }

  lemma VainReleaseReacts(s: State, e: Event, owner: nat, ids: seq<nat>)
    requires IsOwn(s, e, owner, ids) && e.Release? && !Owns(s.reg, owner, e.call)
    requires e.call in ids ==> e.call !in s.reg.calls
    ensures Reacts(s, e, owner, ids)
  {
    QuietCells(s, e, ids);
  }

  lemma ReleaseOwnerCells(s: State, e: Event, owner: nat, ids: seq<nat>)
    requires Enabled(s, e) && e.ReleaseOwner? && e.owner == owner
    requires forall i | 0 <= i < |ids| :: ids[i] in s.reg.calls ==> s.reg.calls[ids[i]].owner == owner
    ensures CellsAfter(s, e, ids) == CallsReact(View(s, owner, ids), LReleaseOwner(e.thread))
    ensures Indices(ids, CallsOf(s.reg.calls, owner))
         == set i | 0 <= i < |View(s, owner, ids).calls| && View(s, owner, ids).calls[i].registered
  {
  }

  lemma ReleaseOwnerReacts(s: State, e: Event, owner: nat, ids: seq<nat>)
    requires IsOwn(s, e, owner, ids) && e.ReleaseOwner?
    requires forall i | 0 <= i < |ids| :: ids[i] in s.reg.calls ==> s.reg.calls[ids[i]].owner == owner
    ensures Reacts(s, e, owner, ids)
  {
    ReleaseOwnerCells(s, e, owner, ids);
    OpSeen(s.threads, owner, ids, e.thread, ThreadsAfter(s, e)[e.thread]);
    assert Indices(ids, {}) == {};
  }

  lemma OneIndexLess(ids: seq<nat>, c: nat, todo: set<nat>)
    requires Distinct(ids) && c in ids
    ensures Indices(ids, todo - {c}) == Indices(ids, todo) - {IndexOf(ids, c)}
  {
    IndexLaws(ids);
  }

  lemma CloseOps(s: State, t: nat, owner: nat, todo: set<nat>, abort: set<nat>, ids: seq<nat>, c: nat)
    requires t in s.threads && s.threads[t] == Closing(owner, todo, abort) && Distinct(ids) && c in ids
    requires Ops(Notified(s, c), owner, ids) == LNotified(View(s, owner, ids), IndexOf(ids, c))
    ensures Ops(Notified(s, c)[t := Closing(owner, todo - {c}, abort)], owner, ids)
         == ThreadsReact(View(s, owner, ids), LClose(t, IndexOf(ids, c)))
  {
    OpSeen(Notified(s, c), owner, ids, t, Closing(owner, todo - {c}, abort));
    OneIndexLess(ids, c, todo);
    assert View(s, owner, ids).threads[t] == LClosing(Indices(ids, todo), Indices(ids, abort));
  }

  lemma CloseCells(s: State, t: nat, owner: nat, ids: seq<nat>, c: nat)
    requires Enabled(s, Close(t, c)) && Distinct(ids) && c in ids
    ensures CellsAfter(s, Close(t, c), ids) == CallsReact(View(s, owner, ids), LClose(t, IndexOf(ids, c)))
  {
    OneCell(s, Close(t, c), ids, c);
  }

  lemma CloseReacts(s: State, t: nat, owner: nat, ids: seq<nat>, c: nat)
    requires Enabled(s, Close(t, c)) && s.threads[t].owner == owner && Distinct(ids) && OpsKnown(s.threads, owner, ids) && c in ids
    ensures Reacts(s, Close(t, c), owner, ids)
  {
    CloseCells(s, t, owner, ids, c);
    NotifiedSeen(s, owner, ids, c);
    CloseOps(s, t, owner, s.threads[t].todo, s.threads[t].abort, ids, c);
  }

  lemma FinishClosingCell(s: State, e: Event, c: nat)
    requires Enabled(s, e) && e.FinishClosing?
    ensures CellAfter(s, e, c) == CellOf(s, c).(aborted := c in s.aborted || c in s.threads[e.thread].abort)
  {
  }

  lemma FinishClosingCells(s: State, e: Event, owner: nat, ids: seq<nat>)
    requires IsOwn(s, e, owner, ids) && e.FinishClosing?
    ensures CellsAfter(s, e, ids) == CallsReact(View(s, owner, ids), LFinishClosing(e.thread))
  {
    var abort := s.threads[e.thread].abort;
    var cells := CallsReact(View(s, owner, ids), LFinishClosing(e.thread));
    forall i | 0 <= i < |ids| ensures CellsAfter(s, e, ids)[i] == cells[i] {
      FinishClosingCell(s, e, ids[i]);
      assert i in Indices(ids, abort) <==> ids[i] in abort;
    }
  }

  lemma FinishClosingReacts(s: State, t: nat, owner: nat, ids: seq<nat>)
    requires Enabled(s, FinishClosing(t)) && s.threads[t].owner == owner
    requires CellsAfter(s, FinishClosing(t), ids) == CallsReact(View(s, owner, ids), LFinishClosing(t))
    ensures Reacts(s, FinishClosing(t), owner, ids)
  {
    EndSeen(s.threads, owner, ids, t);
  }

  lemma LookupReacts(s: State, t: nat, owner: nat, ids: seq<nat>, c: nat)
    requires Enabled(s, Lookup(t, owner, c))
    requires (c in ids && c in s.reg.calls) <==> Owns(s.reg, owner, c)
    ensures Reacts(s, Lookup(t, owner, c), owner, ids)
  {
    QuietCells(s, Lookup(t, owner, c), ids);
    if Owns(s.reg, owner, c) {
      OpSeen(s.threads, owner, ids, t, Looking(owner, c));
    }
  }

  lemma SleepOps(s: State, t: nat, owner: nat, ids: seq<nat>, c: nat)
    requires t in s.threads && s.threads[t] == Looking(owner, c) && c in ids
    ensures Ops(s.threads[t := Asleep(owner, c)], owner, ids) == ThreadsReact(View(s, owner, ids), LSleep(t))
  {
    OpSeen(s.threads, owner, ids, t, Asleep(owner, c));
    assert View(s, owner, ids).threads[t] == LLooking(IndexOf(ids, c));
  }

  lemma WakeOps(s: State, t: nat, owner: nat, ids: seq<nat>, c: nat)
    requires t in s.threads && s.threads[t] == Asleep(owner, c) && c in ids
    ensures Ops(s.threads[t := Looking(owner, c)], owner, ids) == ThreadsReact(View(s, owner, ids), LWake(t))
  {
    OpSeen(s.threads, owner, ids, t, Looking(owner, c));
    assert View(s, owner, ids).threads[t] == LAsleep(IndexOf(ids, c));
  }

  lemma WaitReacts(s: State, e: Event, owner: nat, ids: seq<nat>)
    requires IsOwn(s, e, owner, ids) && (e.Sleep? || e.Wake?)
    ensures Reacts(s, e, owner, ids)
  {
    QuietCells(s, e, ids);
    if e.Sleep? {
      SleepOps(s, e.thread, owner, ids, s.threads[e.thread].call);
    } else {
      WakeOps(s, e.thread, owner, ids, s.threads[e.thread].call);
    }
  }

  lemma EndOps(s: State, e: Event, owner: nat, ids: seq<nat>)
    requires Enabled(s, e) && (e.Expire? || e.InsertFails? || e.Retire?)
    ensures Ops(ThreadsAfter(s, e), owner, ids) == Ops(s.threads, owner, ids) - {e.thread}
  {
    EndSeen(s.threads, owner, ids, e.thread);
  }

  lemma EndReacts(s: State, e: Event, owner: nat, ids: seq<nat>)
    requires IsOwn(s, e, owner, ids) && (e.Expire? || e.InsertFails?)
    ensures Reacts(s, e, owner, ids)
  {
    QuietCells(s, e, ids);
    EndOps(s, e, owner, ids);
  }

  lemma FetchReacts(s: State, e: Event, owner: nat, ids: seq<nat>)
    requires IsOwn(s, e, owner, ids) && e.FetchId?
    ensures Reacts(s, e, owner, ids)
  {
    QuietCells(s, e, ids);
    if s.nextCall < MAX_CALL_ID {
      OpSeen(s.threads, owner, ids, e.thread, ThreadsAfter(s, e)[e.thread]);
    }
  }

  lemma SettleCells(s: State, t: nat, owner: nat, ids: seq<nat>, c: nat)
    requires Enabled(s, Settle(t)) && s.threads[t] == Looking(owner, c) && Distinct(ids) && c in ids
    ensures CellsAfter(s, Settle(t), ids) == CallsReact(View(s, owner, ids), LSettle(t))
  {
    OneCell(s, Settle(t), ids, c);
    assert CellAfter(s, Settle(t), c) == CellOf(s, c).(slot := SettledSlot(Slot(s, c)));
    assert View(s, owner, ids).threads[t] == LLooking(IndexOf(ids, c));
  }

  lemma SettleOps(s: State, t: nat, owner: nat, ids: seq<nat>, c: nat)
    requires t in s.threads && s.threads[t] == Looking(owner, c) && c in ids
    ensures Ops(s.threads[t := Settled(owner, c, SettledAnswer(Slot(s, c)))], owner, ids)
         == ThreadsReact(View(s, owner, ids), LSettle(t))
  {
    OpSeen(s.threads, owner, ids, t, Settled(owner, c, SettledAnswer(Slot(s, c))));
    assert View(s, owner, ids).threads[t] == LLooking(IndexOf(ids, c));
  }

  lemma SettleReacts(s: State, t: nat, owner: nat, ids: seq<nat>, c: nat)
    requires Enabled(s, Settle(t)) && s.threads[t] == Looking(owner, c) && Distinct(ids) && c in ids
    ensures Reacts(s, Settle(t), owner, ids)
  {
    SettleCells(s, t, owner, ids, c);
    SettleOps(s, t, owner, ids, c);
  }

  lemma RetireCells(s: State, t: nat, owner: nat, ids: seq<nat>, c: nat, answer: Operation)
    requires Enabled(s, Retire(t)) && s.threads[t] == Settled(owner, c, answer) && Distinct(ids) && c in ids
    requires c in s.reg.calls ==> Owns(s.reg, owner, c)
    ensures CellsAfter(s, Retire(t), ids) == CallsReact(View(s, owner, ids), LRetire(t))
  {
    OneCell(s, Retire(t), ids, c);
    assert CellAfter(s, Retire(t), c) == Unregistered(CellOf(s, c));
    assert View(s, owner, ids).threads[t] == LSettled(IndexOf(ids, c), answer);
  }

  lemma RetireReacts(s: State, t: nat, owner: nat, ids: seq<nat>, c: nat, answer: Operation)
    requires Enabled(s, Retire(t)) && s.threads[t] == Settled(owner, c, answer) && Distinct(ids) && c in ids
    requires c in s.reg.calls ==> Owns(s.reg, owner, c)
    ensures Reacts(s, Retire(t), owner, ids)
  {
    RetireCells(s, t, owner, ids, c, answer);
    EndOps(s, Retire(t), owner, ids);
    assert View(s, owner, ids).threads[t] == LSettled(IndexOf(ids, c), answer);
  }

  lemma SeenOpGrows(op: Op, ids: seq<nat>, call: nat)
    requires call !in ids
    requires NamesCall(op) ==> op.call in ids
    requires op.Closing? ==> call !in op.todo && call !in op.abort
    ensures SeenOp(op, ids + [call]) == SeenOp(op, ids)
  {
    var ids' := ids + [call];
    assert ids'[..|ids|] == ids;
    if op.Closing? {
      assert Indices(ids', op.todo) == Indices(ids, op.todo) && Indices(ids', op.abort) == Indices(ids, op.abort);
    }
  }

  lemma InsertOps(s: State, e: Event, owner: nat, ids: seq<nat>)
    requires OpsSound(s) && IsOwn(s, e, owner, ids) && e.Insert?
    requires s.threads[e.thread].call !in ids && s.threads[e.thread].call !in s.slots
    ensures Ops(ThreadsAfter(s, e), owner, ids + [s.threads[e.thread].call]) == Ops(s.threads, owner, ids) - {e.thread}
  {
    var call := s.threads[e.thread].call;
    forall t <- ThreadsAfter(s, e) | s.threads[t].owner == owner
      ensures SeenOp(s.threads[t], ids + [call]) == SeenOp(s.threads[t], ids)
    {
      assert OpSound(s, s.threads[t]);
      SeenOpGrows(s.threads[t], ids, call);
    }
  }

  lemma InsertCells(s: State, e: Event, ids: seq<nat>)
    requires Enabled(s, e) && e.Insert? && s.threads[e.thread].call !in ids && s.threads[e.thread].call !in s.running
    ensures CellsAfter(s, e, ids + [s.threads[e.thread].call])
         == Cells(s, ids) + [Cell(true, false, Pending, true, false, false)]
  {
    var call := s.threads[e.thread].call;
    forall i | 0 <= i < |ids| ensures CellAfter(s, e, ids[i]) == CellOf(s, ids[i]) {
      assert ids[i] in ids;
      UntouchedKeepsCell(s, e, ids[i]);
    }
    assert CellAfter(s, e, call) == Cell(true, false, Pending, true, false, false);
  }

  lemma InsertReacts(s: State, e: Event, owner: nat, ids: seq<nat>)
    requires OpsSound(s) && IsOwn(s, e, owner, ids) && e.Insert?
    requires s.threads[e.thread].call !in ids && s.threads[e.thread].call !in s.slots && s.threads[e.thread].call !in s.running
    ensures Reacts(s, e, owner, ids)
  {
    InsertOps(s, e, owner, ids);
    InsertCells(s, e, ids);
  }

  /** Whatever the numbering lists belongs to the owner, and the registry
      agrees with it. */
  lemma NumberedEntry(s: State, owner: nat, ids: seq<nat>, c: nat)
    requires EntriesHaveSlots(s) && Numbers(s, owner, ids)
    ensures c in ids ==> (c in s.reg.calls <==> Owns(s.reg, owner, c))
    ensures Owns(s.reg, owner, c) ==> c in ids
    ensures c in s.slots && c in s.owners && s.owners[c] == owner ==> c in ids
  {
    assert c in s.reg.calls ==> IssuedTo(s, c, s.reg.calls[c].owner);
    assert c in ids <==> IssuedTo(s, c, owner);
  }

  lemma OwnTaskReacts(s: State, e: Event, owner: nat, ids: seq<nat>)
    requires Sound(s) && Numbers(s, owner, ids) && IsOwn(s, e, owner, ids)
    requires e.Spawn? || e.Attach? || e.TaskEnds? || e.Publish?
    ensures Reacts(s, e, owner, ids)
  {
    NumberedEntry(s, owner, ids, e.call);
    if e.Publish? {
      PublishReacts(s, e, owner, ids);
    } else if e.Attach? {
      AttachReacts(s, e, owner, ids);
    } else {
      TaskReacts(s, e, owner, ids);
    }
  }

  lemma OwnReleaseReacts(s: State, e: Event, owner: nat, ids: seq<nat>)
    requires Sound(s) && Numbers(s, owner, ids) && IsOwn(s, e, owner, ids)
    requires e.Release? || e.ReleaseOwner? || e.Lookup?
    ensures Reacts(s, e, owner, ids)
  {
    if e.ReleaseOwner? {
      forall i | 0 <= i < |ids| ensures ids[i] in s.reg.calls ==> s.reg.calls[ids[i]].owner == owner {
        assert ids[i] in ids;
        NumberedEntry(s, owner, ids, ids[i]);
      }
      ReleaseOwnerReacts(s, e, owner, ids);
    } else {
      NumberedEntry(s, owner, ids, e.call);
      if e.Lookup? {
        LookupReacts(s, e.thread, owner, ids, e.call);
      } else if Owns(s.reg, owner, e.call) {
        ReleaseReacts(s, e.thread, owner, ids, e.call);
      } else {
        VainReleaseReacts(s, e, owner, ids);
      }
    }
  }

  lemma OwnThreadReacts(s: State, e: Event, owner: nat, ids: seq<nat>)
    requires Sound(s) && Numbers(s, owner, ids) && IsOwn(s, e, owner, ids)
    requires e.Close? || e.Retire? || e.Insert?
    ensures Reacts(s, e, owner, ids)
  {
    assert OpSound(s, s.threads[e.thread]);
    match e
    case Close(t, c) => NumberedEntry(s, owner, ids, c); CloseReacts(s, t, owner, ids, c);
    case Retire(t) => NumberedEntry(s, owner, ids, s.threads[t].call); RetireReacts(s, t, owner, ids, s.threads[t].call, s.threads[t].answer);
    case Insert(t) => assert !IssuedTo(s, s.threads[t].call, owner); InsertReacts(s, e, owner, ids);
  }

  lemma OwnPauseReacts(s: State, e: Event, owner: nat, ids: seq<nat>)
    requires IsOwn(s, e, owner, ids)
    requires e.FetchId? || e.InsertFails? || e.FinishClosing? || e.Sleep? || e.Wake? || e.Expire? || e.Settle?
    ensures Reacts(s, e, owner, ids)
  {
    if e.FetchId? {
      FetchReacts(s, e, owner, ids);
    } else if e.FinishClosing? {
      FinishClosingCells(s, e, owner, ids);
      FinishClosingReacts(s, e.thread, owner, ids);
    } else if e.Settle? {
      SettleReacts(s, e.thread, owner, ids, s.threads[e.thread].call);
    } else if e.Sleep? || e.Wake? {
      WaitReacts(s, e, owner, ids);
    } else {
      EndReacts(s, e, owner, ids);
    }
  }

  lemma OwnEventReacts(s: State, e: Event, owner: nat, ids: seq<nat>)
    requires Sound(s) && Numbers(s, owner, ids) && Enabled(s, e) && OwnerOf(s, e) == Some(owner)
    ensures Reacts(s, e, owner, ids)
  {
    SoundOpsKnown(s, owner, ids);
    if e.Spawn? || e.Attach? || e.TaskEnds? || e.Publish? {
      OwnTaskReacts(s, e, owner, ids);
    } else if e.Release? || e.ReleaseOwner? || e.Lookup? {
      OwnReleaseReacts(s, e, owner, ids);
    } else if e.Close? || e.Retire? || e.Insert? {
      OwnThreadReacts(s, e, owner, ids);
    } else {
      OwnPauseReacts(s, e, owner, ids);
    }
  }

  lemma InsertNumbers(s: State, e: Event, owner: nat, ids: seq<nat>)
    requires Numbers(s, owner, ids) && Step(s, e).Some? && e.Insert? && OwnerOf(s, e) == Some(owner)
    requires s.threads[e.thread].call !in s.slots
    ensures Numbers(Step(s, e).value, owner, ids + [s.threads[e.thread].call])
  {
    assert !IssuedTo(s, s.threads[e.thread].call, owner);
  }

  lemma SameCallsNumbered(s: State, s': State, owner: nat, ids: seq<nat>)
    requires Numbers(s, owner, ids) && s'.slots.Keys == s.slots.Keys && s'.owners == s.owners
    ensures Numbers(s', owner, ids)
  {
  }

  lemma OwnEventNumbers(s: State, e: Event, owner: nat, ids: seq<nat>)
    requires Sound(s) && Numbers(s, owner, ids) && Step(s, e).Some? && OwnerOf(s, e) == Some(owner)
    ensures Numbers(Step(s, e).value, owner, Renumbered(s, e, owner, ids))
  {
    FreshInserts(s, e);
    StepWritesKnown(s, e);
    if e.Insert? {
      InsertNumbers(s, e, owner, ids);
    } else {
      SlotKeysStay(s, e);
      SameCallsNumbered(s, Step(s, e).value, owner, ids);
    }
  }

  // ---- Whole runs ----

  ghost function NumberingAt(ss: seq<State>, es: seq<Event>, owner: nat, n: nat): seq<nat>
    requires n <= |es| < |ss|
  {
    if n == 0 then [] else Renumbered(ss[n - 1], es[n - 1], owner, NumberingAt(ss, es, owner, n - 1))
  }

  /** What the owner itself did in the first `n` steps, in its own numbering. */
  ghost function InputsAt(ss: seq<State>, es: seq<Event>, owner: nat, n: nat): seq<Input>
    requires n <= |es| < |ss|
  {
    if n == 0 then []
    else if OwnerOf(ss[n - 1], es[n - 1]) != Some(owner) then InputsAt(ss, es, owner, n - 1)
    else InputsAt(ss, es, owner, n - 1) + [AsInput(ss[n - 1], es[n - 1], NumberingAt(ss, es, owner, n - 1))]
  }

  /** What the awaits of the owner were told in the first `n` steps. */
  ghost function AnswersAt(ss: seq<State>, es: seq<Event>, owner: nat, n: nat): seq<Option<Operation>>
    requires n <= |es| < |ss|
  {
    if n == 0 then []
    else if OwnerOf(ss[n - 1], es[n - 1]) != Some(owner) then AnswersAt(ss, es, owner, n - 1)
    else AnswersAt(ss, es, owner, n - 1) + [Answer(ss[n - 1], es[n - 1])]
  }

  function Replay(inputs: seq<Input>): Local {
    if inputs == [] then Nothing else React(Replay(inputs[..|inputs| - 1]), inputs[|inputs| - 1])
  }

  function ReplayAnswers(inputs: seq<Input>): seq<Option<Operation>> {
    if inputs == [] then []
    else ReplayAnswers(inputs[..|inputs| - 1]) + [Told(Replay(inputs[..|inputs| - 1]), inputs[|inputs| - 1])]
  }

  /** In every run, everything one owner sees and is told is a function of its
      own inputs. */
  lemma {:induction false} OwnerSeesItself(ss: seq<State>, es: seq<Event>, owner: nat, n: nat)
    requires IsRun(ss, es) && n <= |es|
    ensures Numbers(ss[n], owner, NumberingAt(ss, es, owner, n))
    ensures View(ss[n], owner, NumberingAt(ss, es, owner, n)) == Replay(InputsAt(ss, es, owner, n))
    ensures AnswersAt(ss, es, owner, n) == ReplayAnswers(InputsAt(ss, es, owner, n))
  {
    if n == 0 {
      assert View(Init, owner, []) == Nothing;
    } else {
      OwnerSeesItself(ss, es, owner, n - 1);
      CallRuns.InvHolds(ss, es, n - 1);
      OneMoreStep(ss, es, owner, n);
    }
  }

  lemma OneMoreStep(ss: seq<State>, es: seq<Event>, owner: nat, n: nat)
    requires IsRun(ss, es) && 0 < n <= |es| && Inv(ss[n - 1])
    requires Numbers(ss[n - 1], owner, NumberingAt(ss, es, owner, n - 1))
    requires View(ss[n - 1], owner, NumberingAt(ss, es, owner, n - 1)) == Replay(InputsAt(ss, es, owner, n - 1))
    requires AnswersAt(ss, es, owner, n - 1) == ReplayAnswers(InputsAt(ss, es, owner, n - 1))
    ensures Numbers(ss[n], owner, NumberingAt(ss, es, owner, n))
    ensures View(ss[n], owner, NumberingAt(ss, es, owner, n)) == Replay(InputsAt(ss, es, owner, n))
    ensures AnswersAt(ss, es, owner, n) == ReplayAnswers(InputsAt(ss, es, owner, n))
  {
    var s, e, ids := ss[n - 1], es[n - 1], NumberingAt(ss, es, owner, n - 1);
    assert Step(s, e) == Some(ss[n]);
    if OwnerOf(s, e) == Some(owner) {
      OwnEventReacts(s, e, owner, ids);
      ViewOfStep(s, e, owner, Renumbered(s, e, owner, ids));
      OwnEventNumbers(s, e, owner, ids);
      var inputs := InputsAt(ss, es, owner, n);
      assert inputs[..|inputs| - 1] == InputsAt(ss, es, owner, n - 1);
    } else {
      OthersAreInvisible(s, e, owner, ids);
    }
  }

  /** Non-interference: two runs in which the owner did the same things, no
      matter what the other owners did and which identifiers came out, tell the
      owner the same and leave it the same view. */
  lemma OwnersDoNotInterfere(ss: seq<State>, es: seq<Event>, ss': seq<State>, es': seq<Event>, owner: nat)
    requires IsRun(ss, es) && IsRun(ss', es')
    requires InputsAt(ss, es, owner, |es|) == InputsAt(ss', es', owner, |es'|)
    ensures AnswersAt(ss, es, owner, |es|) == AnswersAt(ss', es', owner, |es'|)
    ensures View(ss[|es|], owner, NumberingAt(ss, es, owner, |es|))
         == View(ss'[|es'|], owner, NumberingAt(ss', es', owner, |es'|))
  {
    OwnerSeesItself(ss, es, owner, |es|);
    OwnerSeesItself(ss', es', owner, |es'|);
  }

  lemma {:induction false} IndicesSize(ids: seq<nat>, cs: set<nat>)
    requires Distinct(ids) && forall c <- cs :: c in ids
    ensures |Indices(ids, cs)| == |cs|
    decreases cs
  {
    if c :| c in cs {
      IndicesSize(ids, cs - {c});
      IndexLaws(ids);
      assert Indices(ids, cs) == Indices(ids, cs - {c}) + {IndexOf(ids, c)};
    } else {
      assert Indices(ids, cs) == {};
    }
  }

  /** The count that limits the owner's submissions is part of that view. */
  lemma CountIsSeen(s: State, owner: nat, ids: seq<nat>)
    requires Inv(s) && Numbers(s, owner, ids)
    ensures var calls := View(s, owner, ids).calls;
            RegisteredCount(s.reg, owner) == |set i | 0 <= i < |calls| && calls[i].registered|
  {
    CountIsNumberOfCalls(s.reg, owner);
    var mine, calls := CallsOf(s.reg.calls, owner), Cells(s, ids);
    forall c <- mine ensures c in ids {
      assert IssuedTo(s, c, owner);
    }
    IndicesSize(ids, mine);
    forall i | 0 <= i < |ids| ensures calls[i].registered <==> ids[i] in mine {
      assert ids[i] in ids;
    }
    assert Indices(ids, mine) == set i | 0 <= i < |calls| && calls[i].registered;
  }
}
