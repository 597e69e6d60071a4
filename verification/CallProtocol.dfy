/** Submit-and-complete calls as a transition system: one step per lock section
    of rust/core-bridge/src/client_calls.rs, any number of threads, calls and
    owners, in any interleaving. */
module CallProtocol {
  import opened Common
  import opened ClientCalls

  /** What a thread still has to do in the operation it is inside of. */
  datatype Op =
    | Registering(owner: nat, call: nat)
      // `release_call` and `release_owner` past the registry section
    | Closing(owner: nat, todo: set<nat>, abort: set<nat>)
      // `await_call` holding the slot: running, or blocked on the condition variable
    | Looking(owner: nat, call: nat)
    | Asleep(owner: nat, call: nat)
      // `await_call` past the slot section
    | Settled(owner: nat, call: nat, answer: Operation)

  datatype State = State(
    nextCall: nat,
    reg: Registry,
    slots: map<nat, SlotState>,
    owners: map<nat, nat>,    // who registered each call, kept after it retires
    guards: set<nat>,         // live completion guards
    running: set<nat>,        // spawned tasks that have not ended
    aborted: set<nat>,        // tasks told to abort
    threads: map<nat, Op>)

  datatype Event =
    | FetchId(thread: nat, owner: nat)
    | Insert(thread: nat)
    | InsertFails(thread: nat)
    | Spawn(call: nat)
    | Attach(owner: nat, call: nat)
    | Publish(call: nat, outcome: Operation)
    | TaskEnds(call: nat)
    | Release(thread: nat, owner: nat, call: nat)
    | ReleaseOwner(thread: nat, owner: nat)
    | Close(thread: nat, call: nat)
    | FinishClosing(thread: nat)
    | Lookup(thread: nat, owner: nat, call: nat)
    | Sleep(thread: nat)
    | Wake(thread: nat)
    | Expire(thread: nat)
    | Settle(thread: nat)
    | Retire(thread: nat)

  const Init := State(1, Registry(map[], map[]), map[], map[], {}, {}, {}, map[])

  /** `notify_all` on the condition variable of `call`. */
  function Woken(threads: map<nat, Op>, call: nat): map<nat, Op> {
    map t | t in threads ::
      if threads[t].Asleep? && threads[t].call == call then Looking(threads[t].owner, call) else threads[t]
  }

  function Slot(s: State, call: nat): SlotState {
    if call in s.slots then s.slots[call] else Closed
  }

  /** When each step can be taken. */
  predicate Enabled(s: State, e: Event) {
    match e
    case FetchId(t, _) => t !in s.threads
    case Insert(t) => t in s.threads && s.threads[t].Registering?
    case InsertFails(t) => t in s.threads && s.threads[t].Registering?
    case Spawn(call) => call in s.guards && call !in s.running
    case Attach(owner, call) => call in s.owners && s.owners[call] == owner  // by the owner that registered the call
    case Publish(call, _) => call in s.guards
    case TaskEnds(call) => call in s.running && call !in s.guards
    case Release(t, _, _) => t !in s.threads
    case ReleaseOwner(t, _) => t !in s.threads
    case Close(t, call) => t in s.threads && s.threads[t].Closing? && call in s.threads[t].todo
    case FinishClosing(t) => t in s.threads && s.threads[t].Closing? && s.threads[t].todo == {}
    case Lookup(t, _, _) => t !in s.threads
    case Sleep(t) => t in s.threads && s.threads[t].Looking? && Slot(s, s.threads[t].call).Pending?
    case Wake(t) => t in s.threads && s.threads[t].Asleep?
    case Expire(t) => t in s.threads && s.threads[t].Looking? && Slot(s, s.threads[t].call).Pending?
    case Settle(t) => t in s.threads && s.threads[t].Looking? && !Slot(s, s.threads[t].call).Pending?
    case Retire(t) => t in s.threads && s.threads[t].Settled?
  }

  // What each step does to each part of the state.

  function NextCallAfter(s: State, e: Event): nat {
    if e.FetchId? then s.nextCall + 1 else s.nextCall
  }

  function RegAfter(s: State, e: Event): Registry
    requires Enabled(s, e)
  {
    match e
    case Insert(t) => Registered(s.reg, s.threads[t].call, s.threads[t].owner)
    case Attach(owner, call) => Attached(s.reg, call, owner)
    case Release(_, owner, call) => if Owns(s.reg, owner, call) then Removed(s.reg, call, owner) else s.reg
    case ReleaseOwner(_, owner) => OwnerReleased(s.reg, owner)
    case Retire(t) => Removed(s.reg, s.threads[t].call, s.threads[t].owner)
    case _ => s.reg
  }

  function SlotsAfter(s: State, e: Event): map<nat, SlotState>
    requires Enabled(s, e)
  {
    match e
    case Insert(t) => s.slots[s.threads[t].call := Pending]
    case Publish(call, outcome) => s.slots[call := Completed(Slot(s, call), outcome)]
    case Close(_, call) => s.slots[call := ClosedSlot(Slot(s, call))]
    case Settle(t) => s.slots[s.threads[t].call := SettledSlot(Slot(s, s.threads[t].call))]
    case _ => s.slots
  }

  function OwnersAfter(s: State, e: Event): map<nat, nat>
    requires Enabled(s, e)
  {
    if e.Insert? then s.owners[s.threads[e.thread].call := s.threads[e.thread].owner] else s.owners
  }

  function GuardsAfter(s: State, e: Event): set<nat>
    requires Enabled(s, e)
  {
    match e
    case Insert(t) => s.guards + {s.threads[t].call}
    case Publish(call, _) => s.guards - {call}
    case _ => s.guards
  }

  function RunningAfter(s: State, e: Event): set<nat> {
    match e
    case Spawn(call) => s.running + {call}
    case TaskEnds(call) => s.running - {call}
    case _ => s.running
  }

  function AbortedAfter(s: State, e: Event): set<nat>
    requires Enabled(s, e)
  {
    match e
    case Insert(t) => s.aborted - {s.threads[t].call}
    case Attach(owner, call) => if Owns(s.reg, owner, call) then s.aborted else s.aborted + {call}
    case FinishClosing(t) => s.aborted + s.threads[t].abort
    case _ => s.aborted
  }

  /** Waiters of `call` after its slot was written. */
  function Notified(s: State, call: nat): map<nat, Op> {
    if Slot(s, call).Pending? then Woken(s.threads, call) else s.threads
  }

  function ThreadsAfter(s: State, e: Event): map<nat, Op>
    requires Enabled(s, e)
  {
    match e
    case FetchId(t, owner) =>
      if s.nextCall >= MAX_CALL_ID then s.threads else s.threads[t := Registering(owner, s.nextCall)]
    case Insert(t) => s.threads - {t}
    case InsertFails(t) => s.threads - {t}
    case Spawn(_) => s.threads
    case Attach(_, _) => s.threads
    case Publish(call, _) => Notified(s, call)
    case TaskEnds(_) => s.threads
    case Release(t, owner, call) =>
      if !Owns(s.reg, owner, call) then s.threads
      else s.threads[t := Closing(owner, {call}, if s.reg.calls[call].attached then {call} else {})]
    case ReleaseOwner(t, owner) => s.threads[t := Closing(owner, CallsOf(s.reg.calls, owner), {})]
    case Close(t, call) => Notified(s, call)[t := s.threads[t].(todo := s.threads[t].todo - {call})]
    case FinishClosing(t) => s.threads - {t}
    case Lookup(t, owner, call) => if Owns(s.reg, owner, call) then s.threads[t := Looking(owner, call)] else s.threads
    case Sleep(t) => s.threads[t := Asleep(s.threads[t].owner, s.threads[t].call)]
    case Wake(t) => s.threads[t := Looking(s.threads[t].owner, s.threads[t].call)]
    case Expire(t) => s.threads - {t}
    case Settle(t) =>
      s.threads[t := Settled(s.threads[t].owner, s.threads[t].call, SettledAnswer(Slot(s, s.threads[t].call)))]
    case Retire(t) => s.threads - {t}
  }

  function Step(s: State, e: Event): Option<State> {
    if !Enabled(s, e) then None
    else
      Some(State(NextCallAfter(s, e), RegAfter(s, e), SlotsAfter(s, e), OwnersAfter(s, e),
                 GuardsAfter(s, e), RunningAfter(s, e), AbortedAfter(s, e), ThreadsAfter(s, e)))
  }

  /** What the step hands back to the awaiting caller, if it ends an await. */
  function Answer(s: State, e: Event): Option<Operation> {
    match e
    case Lookup(t, owner, call) => if Owns(s.reg, owner, call) then None else Some(ClosedFailure())
    case Expire(t) => Some(NotReadyFailure())
    case Retire(t) => if t in s.threads && s.threads[t].Settled? then Some(s.threads[t].answer) else None
    case _ => None
  }

  // ---- The invariant ----

  ghost predicate Fresh(s: State) {
    && s.owners.Keys == s.slots.Keys
    && (forall c <- s.slots :: c < s.nextCall)
    && (forall t <- s.threads ::
          s.threads[t].Registering? ==> s.threads[t].call < s.nextCall && s.threads[t].call !in s.slots)
    && (forall t <- s.threads, u <- s.threads ::
          t != u && s.threads[t].Registering? && s.threads[u].Registering? ==> s.threads[t].call != s.threads[u].call)
  }

  /** `call` was registered by `owner`, at any time. */
  ghost predicate IssuedTo(s: State, call: nat, owner: nat) {
    call in s.slots && call in s.owners && s.owners[call] == owner
  }

  ghost predicate EntriesHaveSlots(s: State) {
    && (forall c <- s.reg.calls :: IssuedTo(s, c, s.reg.calls[c].owner))
    && s.guards <= s.slots.Keys
    && s.running <= s.slots.Keys
  }

  /** Some thread is inside a release of `call` and has not closed it yet. */
  ghost predicate BeingClosed(s: State, call: nat) {
    exists t <- s.threads :: s.threads[t].Closing? && call in s.threads[t].todo
  }

  /** A pending slot has a live guard, and is registered or being released. */
  ghost predicate PendingIsHeld(s: State) {
    forall c <- s.slots :: s.slots[c].Pending? ==> c in s.guards && (c in s.reg.calls || BeingClosed(s, c))
  }

  ghost predicate OpSound(s: State, op: Op) {
    match op
    case Registering(_, _) => true
    case Closing(owner, todo, abort) =>
      (forall c <- todo :: IssuedTo(s, c, owner) && c !in s.reg.calls) && (forall c <- abort :: IssuedTo(s, c, owner))
    case Looking(owner, call) => IssuedTo(s, call, owner)
    case Asleep(owner, call) => IssuedTo(s, call, owner) && s.slots[call].Pending?
    case Settled(owner, call, _) => IssuedTo(s, call, owner) && s.slots[call].Closed?
  }

  ghost predicate OpsSound(s: State) {
    forall t <- s.threads :: OpSound(s, s.threads[t])
  }

  ghost predicate Inv(s: State) {
    Fresh(s) && EntriesHaveSlots(s) && PendingIsHeld(s) && OpsSound(s) && CountsExact(s.reg)
  }
}
