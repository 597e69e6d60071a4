/** The completion registry of rust/core-bridge/src/client_calls.rs: what each
    lock section does, on values, to one slot and to the registry maps. */
module ClientCalls {
  import opened Common

  const MAX_CALL_ID := 0x4000_0000_0000_0000

  /** Terminal and pending states of one call. */
  datatype SlotState = Pending | Ready(outcome: Operation) | Closed

  /** A registry entry without its slot: who may release the call, and whether
      the owner has attached an abort handle. */
  datatype Entry = Entry(owner: nat, attached: bool)

  datatype Registry = Registry(calls: map<nat, Entry>, perOwner: map<nat, nat>)

  function ClosedFailure(): Operation {
    Err(Failure(STATUS_INVALID_STATE, "Temporal client call ended because the client shut down"))
  }

  function NotReadyFailure(): Operation {
    Err(Failure(STATUS_NOT_READY, "Temporal client call has not completed; retry"))
  }

  function PanicFailure(): Operation {
    Err(Failure(STATUS_PANIC, "Rust panic contained in a Temporal client call"))
  }

  // ---- One slot ----

  /** `CallSlot::complete`: only a pending slot takes the outcome. */
  function Completed(state: SlotState, outcome: Operation): SlotState {
    if state.Pending? then Ready(outcome) else state
  }

  /** `CallSlot::close`: only a pending slot is closed. */
  function ClosedSlot(state: SlotState): SlotState {
    if state.Pending? then Closed else state
  }

  /** The slot section of `await_call`: the slot afterwards. */
  function SettledSlot(state: SlotState): SlotState {
    if state.Pending? then Pending else Closed
  }

  /** The slot section of `await_call`: its answer. */
  function SettledAnswer(state: SlotState): Operation {
    match state
    case Pending => NotReadyFailure()
    case Ready(outcome) => outcome
    case Closed => ClosedFailure()
  }

  /** The lock sections on one slot: a publication, a close, a read. */
  datatype SlotOp = SlotComplete(outcome: Operation) | SlotClose | SlotRead

  function SlotAfter(ops: seq<SlotOp>): SlotState {
    if ops == [] then Pending
    else
      var before := SlotAfter(ops[..|ops| - 1]);
      match ops[|ops| - 1]
      case SlotComplete(outcome) => Completed(before, outcome)
      case SlotClose => ClosedSlot(before)
      case SlotRead => SettledSlot(before)
  }

  /** The first section that is not a read. */
  function FirstWrite(ops: seq<SlotOp>): (f: nat)
    ensures f <= |ops| && (f < |ops| ==> !ops[f].SlotRead?) && forall i | 0 <= i < f :: ops[i].SlotRead?
  {
    if ops == [] then 0
    else
      var f := FirstWrite(ops[..|ops| - 1]);
      if f < |ops| - 1 || !ops[|ops| - 1].SlotRead? then f else |ops|
  }

  /** A slot is one-shot, whatever sections follow one another: only the first
      publication or close decides, and a published outcome is there until one
      read has taken it. */
  lemma {:induction false} SlotIsOneShot(ops: seq<SlotOp>)
    ensures var f := FirstWrite(ops);
            SlotAfter(ops) == if f == |ops| then Pending
                              else if ops[f].SlotClose? || SlotRead in ops[f..] then Closed
                              else Ready(ops[f].outcome)
  {
    if ops != [] {
      var front, last := ops[..|ops| - 1], ops[|ops| - 1];
      SlotIsOneShot(front);
      var f := FirstWrite(front);
      assert ops == front + [last] && ops[f..] == front[f..] + [last];
    }
  }

  // ---- The registry maps ----

  function CallsOf(calls: map<nat, Entry>, owner: nat): set<nat> {
    set call | call in calls && calls[call].owner == owner
  }

  /** The counter of `owner` is exactly the number of registered calls, and
      an owner without calls has no counter. */
  ghost predicate CountExact(r: Registry, owner: nat) {
    if owner in r.perOwner
    then r.perOwner[owner] == |CallsOf(r.calls, owner)| && r.perOwner[owner] > 0
    else CallsOf(r.calls, owner) == {}
  }

  ghost predicate CountsExact(r: Registry) {
    forall owner :: CountExact(r, owner)
  }

  predicate Owns(r: Registry, owner: nat, call: nat) {
    call in r.calls && r.calls[call].owner == owner
  }

  /** The counter update of `Registry::remove`: a saturating decrement, and no
      counter at zero. */
  function Decremented(perOwner: map<nat, nat>, owner: nat): map<nat, nat> {
    if owner !in perOwner then perOwner
    else
      var count := if perOwner[owner] == 0 then 0 else perOwner[owner] - 1;
      if count == 0 then perOwner - {owner} else perOwner[owner := count]
  }

  /** `Registry::remove` with the owner given: the maps afterwards. */
  function Removed(r: Registry, call: nat, owner: nat): Registry {
    if Owns(r, owner, call) then Registry(r.calls - {call}, Decremented(r.perOwner, owner)) else r
  }

  /** The lock section of `register`. */
  function Registered(r: Registry, call: nat, owner: nat): Registry {
    var count := if owner in r.perOwner then r.perOwner[owner] else 0;
    Registry(r.calls[call := Entry(owner, false)], r.perOwner[owner := count + 1])
  }

  /** The lock section of `release_owner`. */
  function OwnerReleased(r: Registry, owner: nat): Registry {
    Registry(map c | c in r.calls && r.calls[c].owner != owner :: r.calls[c], r.perOwner - {owner})
  }

  /** The lock section of `attach_task`. */
  function Attached(r: Registry, call: nat, owner: nat): Registry {
    if Owns(r, owner, call) then r.(calls := r.calls[call := Entry(owner, true)]) else r
  }

  /** `registered_calls`. */
  function RegisteredCount(r: Registry, owner: nat): nat {
    if owner in r.perOwner then r.perOwner[owner] else 0
  }

  lemma CountIsNumberOfCalls(r: Registry, owner: nat)
    requires CountsExact(r)
    ensures RegisteredCount(r, owner) == |CallsOf(r.calls, owner)|
  {
    assert CountExact(r, owner);
  }

  /** Removing a call keeps every counter exact, takes out that call and no
      other, and never reaches the saturating branch of the subtraction. */
  lemma RemovedKeepsCounts(r: Registry, call: nat, owner: nat)
    requires CountsExact(r)
    ensures CountsExact(Removed(r, call, owner))
    ensures Removed(r, call, owner).calls == if Owns(r, owner, call) then r.calls - {call} else r.calls
    ensures Owns(r, owner, call) ==> owner in r.perOwner && r.perOwner[owner] >= 1
  {
    var r' := Removed(r, call, owner);
    if Owns(r, owner, call) {
      assert CountExact(r, owner) && call in CallsOf(r.calls, owner);
      forall o
        ensures CallsOf(r'.calls, o) == if o == owner then CallsOf(r.calls, o) - {call} else CallsOf(r.calls, o)
      {
      }
      forall o
        ensures CountExact(r', o)
      {
        assert CountExact(r, o);
        assert |CallsOf(r'.calls, o)| == 0 ==> CallsOf(r'.calls, o) == {};
      }
    }
  }

  lemma RegisteredKeepsCounts(r: Registry, call: nat, owner: nat)
    requires CountsExact(r) && call !in r.calls
    ensures CountsExact(Registered(r, call, owner))
  {
    var r' := Registered(r, call, owner);
    forall o
      ensures CountExact(r', o)
    {
      assert CallsOf(r'.calls, o) == if o == owner then CallsOf(r.calls, o) + {call} else CallsOf(r.calls, o);
      assert CountExact(r, o);
    }
  }

  lemma OwnerReleasedKeepsCounts(r: Registry, owner: nat)
    requires CountsExact(r)
    ensures CountsExact(OwnerReleased(r, owner))
    ensures CallsOf(OwnerReleased(r, owner).calls, owner) == {}
  {
    var r' := OwnerReleased(r, owner);
    forall o
      ensures CountExact(r', o)
    {
      assert CallsOf(r'.calls, o) == if o == owner then {} else CallsOf(r.calls, o);
      assert CountExact(r, o);
    }
  }

  lemma AttachedKeepsCounts(r: Registry, call: nat, owner: nat)
    requires CountsExact(r)
    ensures CountsExact(Attached(r, call, owner))
  {
    var r' := Attached(r, call, owner);
    forall o
      ensures CountExact(r', o)
    {
      assert CallsOf(r'.calls, o) == CallsOf(r.calls, o);
      assert CountExact(r, o);
    }
  }
}
