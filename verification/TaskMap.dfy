/** The owner's task map, `Runtime::pending_calls`, and the loops of
    `submit_client_call` and `reap_released_calls` that walk it. Each method is
    proved against the function that `Admission` interleaves. */
module TaskMap {
  import opened Common
  import opened ClientCalls
  import opened Admission
  import opened AdmissionClasses

  class TaskMap {
    var pending: map<nat, Scope>
    var limits: Limits

    constructor (limits: Limits)
      ensures pending == map[] && this.limits == limits
    {
      pending := map[];
      this.limits := limits;
    }

    /** Aborts and marks the calls that left the registry; they stop counting. */
    method MarkReleased(gone: seq<nat>) returns (aborted: set<nat>)
      modifies this`pending
      ensures pending == Marked(old(pending), AsSet(gone))
      ensures pending.Keys == old(pending).Keys
      ensures forall c | c in pending :: if c in gone then pending[c].Released? else pending[c] == old(pending)[c]
      ensures aborted == AsSet(gone) * old(pending).Keys
    {
      aborted := {};
      for i := 0 to |gone|
        invariant pending == Marked(old(pending), AsSet(gone[..i]))
        invariant aborted == AsSet(gone[..i]) * old(pending).Keys
      {
        if gone[i] in pending {
          aborted := aborted + {gone[i]};
          pending := pending[gone[i] := Released];
        }
        assert AsSet(gone[..i + 1]) == AsSet(gone[..i]) + {gone[i]};
      }
      assert gone[..|gone|] == gone;
    }

    /** The capacity class of a start: one pass over the pending calls. */
    method StartScopeFor(request: StartRequest) returns (scope: Option<Scope>, status: nat)
      ensures (scope, if scope.None? then Some(status) else None) == Verdict(pending, limits, Start(request))
      ensures scope.Some? <==>
                (forall c: nat :: !Clashes(pending, request, c))
                && (request.requestId in StartKeys(pending).Values || Room(StartKeys(pending), limits.starts))
      ensures scope.Some? ==> scope.value == StartScope(request)
      ensures scope.None? ==>
                status == if exists c: nat :: Clashes(pending, request, c) then STATUS_PROTOCOL else STATUS_RESOURCE_EXHAUSTED
    {
      var left := pending;
      var distinct: set<string> := {};
      ghost var walked: map<nat, Scope> := map[];
      while left != map[]
        invariant walked.Keys !! left.Keys && walked + left == pending
        invariant distinct == StartIds(walked) && Agrees(walked, StartScope(request))
        decreases left.Keys
      {
        var c :| c in left;
        var call := left[c];
        assert pending[c] == call;
        if call.StartScope? {
          if call.start.requestId == request.requestId && !SameStartRequest(call.start, request) {
            VerdictIsExact(pending, limits, Start(request));
            return None, STATUS_PROTOCOL;
          }
          distinct := distinct + {call.start.requestId};
        }
        OneMore(walked, c, call);
        left, walked := left - {c}, walked[c := call];
      }
      assert walked == pending;
      VerdictIsExact(pending, limits, Start(request));
      if |distinct| >= limits.starts && request.requestId !in distinct {
        return None, STATUS_RESOURCE_EXHAUSTED;
      }
      return Some(StartScope(request)), 0;
    }

    /** The capacity class of a wait. */
    method WaitScopeFor(request: string) returns (scope: Option<Scope>, status: nat)
      ensures (scope, if scope.None? then Some(status) else None) == Verdict(pending, limits, Wait(request))
      ensures scope.Some? <==> request in WaitKeys(pending).Values || Room(WaitKeys(pending), limits.waits)
      ensures scope.Some? ==> scope.value == WaitScope(request)
      ensures scope.None? ==> status == STATUS_RESOURCE_EXHAUSTED
    {
      VerdictIsExact(pending, limits, Wait(request));
      var distinct := set c | c in pending && pending[c].WaitScope? :: pending[c].wait;
      if |distinct| >= limits.waits && request !in distinct {
        return None, STATUS_RESOURCE_EXHAUSTED;
      }
      return Some(WaitScope(request)), 0;
    }

    /** Joins and removes every released call; returns the joined tasks. */
    method ReapReleased() returns (tasks: set<nat>)
      modifies this`pending
      ensures pending == WithoutReleased(old(pending))
      ensures forall c | c in old(pending) :: c in pending <==> !old(pending)[c].Released?
      ensures forall c | c in pending :: c in old(pending) && pending[c] == old(pending)[c]
      ensures tasks == old(pending).Keys - pending.Keys
    {
      var released := set c | c in pending && pending[c].Released?;
      tasks := {};
      while released != {}
        invariant pending == old(pending) - tasks
        invariant tasks + released == set c | c in old(pending) && old(pending)[c].Released?
        invariant tasks !! released
        decreases released
      {
        var c :| c in released;
        pending := pending - {c};
        tasks := tasks + {c};
        released := released - {c};
      }
    }
  }

  function AsSet(s: seq<nat>): set<nat> {
    set c | c in s
  }

  /** Walking past a call adds exactly its start, if it is one. */
  lemma OneMore(walked: map<nat, Scope>, c: nat, call: Scope)
    requires c !in walked
    ensures StartIds(walked[c := call]) == StartIds(walked) + (if call.StartScope? then {call.start.requestId} else {})
  {
    var after := walked[c := call];
    forall id <- StartIds(walked) ensures id in StartIds(after) {
      var d :| d in walked && walked[d].StartScope? && walked[d].start.requestId == id;
      assert after[d] == walked[d];
    }
    if call.StartScope? {
      assert after[c] == call;
    }
  }
}
