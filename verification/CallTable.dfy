/** The code of rust/core-bridge/src/client_calls.rs: a slot cell and the
    registry that owns one per live call, both updated in place. Each method is
    proved to do what the value functions of `ClientCalls` say; `CallProtocol`
    interleaves those functions. */
module CallTable {
  import opened Common
  import opened ClientCalls

  class CallSlot {
    var state: SlotState

    constructor ()
      ensures state == Pending
    {
      state := Pending;
    }

    method Complete(outcome: Operation)
      modifies this
      ensures state == Completed(old(state), outcome)
    {
      if state.Pending? {
        state := Ready(outcome);
      }
    }

    method Close()
      modifies this
      ensures state == ClosedSlot(old(state))
    {
      if state.Pending? {
        state := Closed;
      }
    }

    /** The slot section of `await_call` once its wait has ended. */
    method Settle() returns (answer: Operation)
      modifies this
      ensures state == SettledSlot(old(state)) && answer == SettledAnswer(old(state))
    {
      var taken := state;
      state := Closed;
      match taken
      case Pending =>
        state := Pending;
        answer := NotReadyFailure();
      case Ready(outcome) => answer := outcome;
      case Closed => answer := ClosedFailure();
    }
  }

  /** `task` is the abort handle, attached after the spawn. */
  datatype RegisteredCall = RegisteredCall(owner: nat, slot: CallSlot, task: Option<nat>)

  /** Two registries with exact counters and the same calls are the same. */
  lemma CountsDetermined(a: Registry, b: Registry)
    requires CountsExact(a) && CountsExact(b) && a.calls == b.calls
    ensures a == b
  {
    forall o
      ensures o in a.perOwner <==> o in b.perOwner
      ensures o in a.perOwner ==> a.perOwner[o] == b.perOwner[o]
    {
      assert CountExact(a, o) && CountExact(b, o);
    }
  }

  lemma OwnerReleasedDetermined(before: Registry, after: Registry, owner: nat)
    requires CountsExact(before) && CountsExact(after)
    requires after.calls == OwnerReleased(before, owner).calls
    ensures after == OwnerReleased(before, owner)
  {
    OwnerReleasedKeepsCounts(before, owner);
    CountsDetermined(after, OwnerReleased(before, owner));
  }

  function StillUnregistered(r: Registry, owner: nat, ids: seq<nat>): seq<nat> {
    if ids == [] then []
    else
      var rest := StillUnregistered(r, owner, ids[..|ids| - 1]);
      if Owns(r, owner, ids[|ids| - 1]) then rest else rest + [ids[|ids| - 1]]
  }

  /** `unregistered_calls` returns exactly the given calls that are not
      registered under the owner, each as often as it was given. */
  lemma {:induction false} StillUnregisteredIsFilter(r: Registry, owner: nat, ids: seq<nat>, call: nat)
    ensures multiset(StillUnregistered(r, owner, ids))[call]
         == if Owns(r, owner, call) then 0 else multiset(ids)[call]
  {
    if ids != [] {
      StillUnregisteredIsFilter(r, owner, ids[..|ids| - 1], call);
      assert ids == ids[..|ids| - 1] + [ids[|ids| - 1]];
    }
  }

  class CallTable {
    var calls: map<nat, RegisteredCall>
    var perOwner: map<nat, nat>
    var nextCall: nat

    ghost function View(): Registry
      reads this
    {
      Registry(map c | c in calls :: Entry(calls[c].owner, calls[c].task.Some?), perOwner)
    }

    ghost predicate Valid()
      reads this
    {
      && CountsExact(View())
      && (forall c <- calls :: c < nextCall)
      && (forall c <- calls, d <- calls :: c != d ==> calls[c].slot != calls[d].slot)
    }

    ghost function Slots(): set<CallSlot>
      reads this
    {
      set c | c in calls :: calls[c].slot
    }

    constructor ()
      ensures Valid() && calls == map[] && perOwner == map[] && nextCall == 1
    {
      calls, perOwner, nextCall := map[], map[], 1;
    }

    method Remove(call: nat, owner: Option<nat>) returns (removed: Option<RegisteredCall>)
      requires Valid()
      modifies this`calls, this`perOwner
      ensures Valid()
      ensures removed == if call in old(calls) && (owner.None? || owner.value == old(calls)[call].owner)
                         then Some(old(calls)[call]) else None
      ensures calls == if removed.Some? then old(calls) - {call} else old(calls)
      ensures View() == if removed.Some? then Removed(old(View()), call, removed.value.owner) else old(View())
    {
      ghost var before := View();
      if call !in calls || (owner.Some? && owner.value != calls[call].owner) {
        return None;
      }
      removed := Some(calls[call]);
      var holder := calls[call].owner;
      RemovedKeepsCounts(before, call, holder);
      calls := calls - {call};
      DecrementCount(holder);
      assert View().calls == before.calls - {call};
    }

    method DecrementCount(holder: nat)
      modifies this`perOwner
      ensures perOwner == Decremented(old(perOwner), holder)
    {
      if holder in perOwner {
        var count := if perOwner[holder] == 0 then 0 else perOwner[holder] - 1;
        perOwner := perOwner[holder := count];
        if count == 0 {
          perOwner := perOwner - {holder};
        }
      }
    }

    /** `reserved` says whether both maps could reserve room. */
    method Register(owner: nat, reserved: bool) returns (result: Option<(nat, CallSlot)>)
      requires Valid()
      modifies this
      ensures Valid() && nextCall == old(nextCall) + 1
      ensures result.Some? <==> old(nextCall) < MAX_CALL_ID && reserved
      ensures result.None? ==> calls == old(calls) && perOwner == old(perOwner)
      ensures result.Some? ==>
                var (call, slot) := result.value;
                call == old(nextCall) && fresh(slot) && slot.state == Pending
                && calls == old(calls)[call := RegisteredCall(owner, slot, None)]
                && View() == Registered(old(View()), call, owner)
    {
      ghost var before := View();
      var call := nextCall;
      nextCall := nextCall + 1;
      if call >= MAX_CALL_ID || !reserved {
        return None;
      }
      var slot := new CallSlot();
      var count := if owner in perOwner then perOwner[owner] else 0;
      perOwner := perOwner[owner := count + 1];
      calls := calls[call := RegisteredCall(owner, slot, None)];
      RegisteredKeepsCounts(before, call, owner);
      assert View().calls == Registered(before, call, owner).calls;
      return Some((call, slot));
    }

    method ReleaseOwner(owner: nat)
      requires Valid()
      modifies this`calls, this`perOwner, Slots()
      ensures Valid() && View() == OwnerReleased(old(View()), owner)
      ensures forall c <- old(calls) ::
                old(calls)[c].slot.state == if old(calls)[c].owner == owner
                                            then ClosedSlot(old(calls[c].slot.state))
                                            else old(calls[c].slot.state)
    {
      var released := UnregisterOwner(owner);
      CloseAll(released);
    }

    /** The registry section of `release_owner`. */
    method UnregisterOwner(owner: nat) returns (released: seq<RegisteredCall>)
      requires Valid()
      modifies this`calls, this`perOwner
      ensures Valid() && View() == OwnerReleased(old(View()), owner)
      ensures forall x <- released :: exists c :: c in old(calls) && old(calls)[c] == x
      ensures forall x <- released :: x.owner == owner
      ensures forall c <- old(calls) :: old(calls)[c].owner == owner ==> old(calls)[c] in released
    {
      ghost var before := View();
      ghost var all := CallsOf(View().calls, owner);
      var ids := set c | c in calls && calls[c].owner == owner;
      assert ids == all;
      released := [];
      while ids != {}
        invariant Valid() && ids <= all && calls == old(calls) - (all - ids)
        invariant forall c <- all - ids :: old(calls)[c] in released
        invariant forall x <- released :: exists c :: c in all && old(calls)[c] == x
        decreases ids
      {
        var id :| id in ids;
        var removed := Remove(id, Some(owner));
        released := released + [removed.value];
        ids := ids - {id};
      }
      assert View().calls == OwnerReleased(before, owner).calls;
      OwnerReleasedDetermined(before, View(), owner);
    }

    /** Closes slots outside the registry lock. */
    method CloseAll(released: seq<RegisteredCall>)
      modifies set x | x in released :: x.slot
      ensures forall x <- released :: x.slot.state == ClosedSlot(old(x.slot.state))
    {
      for i := 0 to |released|
        invariant forall k | 0 <= k < i :: released[k].slot.state == ClosedSlot(old(released[k].slot.state))
        invariant forall k | i <= k < |released| ::
                    released[k].slot.state in {old(released[k].slot.state), ClosedSlot(old(released[k].slot.state))}
      {
        released[i].slot.Close();
      }
    }

    /** Returns the handle that must be aborted because the call is gone. */
    method AttachTask(owner: nat, call: nat, task: nat) returns (orphan: Option<nat>)
      requires Valid()
      modifies this`calls
      ensures Valid() && View() == Attached(old(View()), call, owner)
      ensures orphan == if Owns(old(View()), owner, call) then None else Some(task)
    {
      ghost var before := View();
      if call in calls && calls[call].owner == owner {
        calls := calls[call := calls[call].(task := Some(task))];
        orphan := None;
      } else {
        orphan := Some(task);
      }
      AttachedKeepsCounts(before, call, owner);
      assert View().calls == Attached(before, call, owner).calls;
    }

    /** Returns the abort handle, if one was attached. */
    method ReleaseCall(owner: nat, call: nat) returns (abort: Option<nat>)
      requires Valid()
      modifies this`calls, this`perOwner, Slots()
      ensures Valid() && View() == Removed(old(View()), call, owner)
      ensures abort == if Owns(old(View()), owner, call) then old(calls)[call].task else None
      ensures forall c <- old(calls) ::
                old(calls)[c].slot.state == if c == call && old(calls)[c].owner == owner
                                            then ClosedSlot(old(calls[c].slot.state))
                                            else old(calls[c].slot.state)
    {
      var released := Remove(call, Some(owner));
      abort := None;
      if released.Some? {
        released.value.slot.Close();
        abort := released.value.task;
      }
    }

    method UnregisteredCalls(owner: nat, ids: seq<nat>) returns (gone: seq<nat>)
      ensures gone == StillUnregistered(View(), owner, ids)
    {
      gone := [];
      for i := 0 to |ids|
        invariant gone == StillUnregistered(View(), owner, ids[..i])
      {
        assert ids[..i + 1][..i] == ids[..i];
        if !(ids[i] in calls && calls[ids[i]].owner == owner) {
          gone := gone + [ids[i]];
        }
      }
      assert ids[..|ids|] == ids;
    }

    /** `await_call` whose wait has ended: the three lock sections in a row. */
    method AwaitCall(owner: nat, call: nat) returns (answer: Operation)
      requires Valid()
      modifies this`calls, this`perOwner, Slots()
      ensures Valid()
      ensures !Owns(old(View()), owner, call) ==>
                answer == ClosedFailure() && View() == old(View()) && forall x <- old(Slots()) :: x.state == old(x.state)
      ensures Owns(old(View()), owner, call) ==>
                answer == SettledAnswer(old(calls[call].slot.state))
                && old(calls)[call].slot.state == SettledSlot(old(calls[call].slot.state))
                && View() == if old(calls[call].slot.state).Pending? then old(View()) else Removed(old(View()), call, owner)
      ensures forall c <- old(calls) :: c != call ==> old(calls)[c].slot.state == old(calls[c].slot.state)
    {
      if call !in calls || calls[call].owner != owner {
        return ClosedFailure();
      }
      var slot := calls[call].slot;
      var pending := slot.state.Pending?;
      answer := slot.Settle();
      if pending {
        return;
      }
      var _ := Remove(call, Some(owner));
    }

    method RegisteredCalls(owner: nat) returns (n: nat)
      requires Valid()
      ensures n == |CallsOf(View().calls, owner)|
    {
      CountIsNumberOfCalls(View(), owner);
      n := if owner in perOwner then perOwner[owner] else 0;
    }
  }
}
