/** Workflow leases: the ledger and ready queue of the worker
    (rust/core-bridge/src/worker_bridge.rs) and the activation retained for
    each run handed to OCaml (rust/core-bridge/src/abi.rs), before shutdown
    draining, for live and replay workers. The ledger entry is retired before
    Core is told, so the poll lane may admit the next activation of a run while
    the owner still completes or rejects the previous one. */
module WorkflowLeases {
  import opened Common

  const MAX_RUN_ID_BYTES := 64 * 1024

  datatype Activation = Activation(runId: string, body: string)

  /** Outstanding runs, with whether they are leased to OCaml. */
  type Ledger = map<string, bool>

  datatype Owner = Free | Holding(activation: Activation) | Completing(runId: string) | Rejecting(runId: string)

  datatype State = State(ledger: Ledger, lane: Option<Activation>, ready: seq<Activation>, retained: map<string, Activation>, owner: Owner)

  datatype Event =
    | LaneAdmits(activation: Activation)
    | LaneQueues
    | Take
    | Retain
    | Unrepresentable
    | BeginCompletion(runId: string)
    | CoreAccepts
    | CoreRefuses
    | Unanswered
    | BeginRejection(activation: Activation)
    | EndRejection

  predicate Leased(ledger: Ledger, r: string) {
    r in ledger && ledger[r]
  }

  predicate Unleased(ledger: Ledger, r: string) {
    r in ledger && !ledger[r]
  }

  function Paid(ledger: Ledger, r: string): Ledger {
    map u | u in ledger && u != r :: ledger[u]
  }

  function Dropped(retained: map<string, Activation>, r: string): map<string, Activation> {
    map u | u in retained && u != r :: retained[u]
  }

  /** `retain_workflow_activation`: a duplicate is refused. */
  function Kept(retained: map<string, Activation>, a: Activation): Option<map<string, Activation>> {
    if a.runId in retained then None else Some(retained[a.runId := a])
  }

  function Step(s: State, e: Event): Option<State> {
    match e
    case LaneAdmits(a) =>
      if s.lane.Some? then None
      else if 0 < Utf8Length(a.runId) <= MAX_RUN_ID_BYTES && a.runId !in s.ledger then
        Some(s.(ledger := s.ledger[a.runId := false], lane := Some(a)))
      else Some(s)
    case LaneQueues =>
      if s.lane.Some? then Some(s.(lane := None, ready := s.ready + [s.lane.value])) else None
    case Take =>
      if !s.owner.Free? || s.ready == [] then None
      else if Unleased(s.ledger, s.ready[0].runId) then
        Some(s.(ledger := s.ledger[s.ready[0].runId := true], ready := s.ready[1..], owner := Holding(s.ready[0])))
      else Some(s.(ready := s.ready[1..]))
    case Retain =>
      if !s.owner.Holding? then None
      else
        var kept := Kept(s.retained, s.owner.activation);
        if kept.Some? then Some(s.(retained := kept.value, owner := Free))
        else Some(s.(ledger := Paid(s.ledger, s.owner.activation.runId), owner := Free))
    case Unrepresentable =>
      if s.owner.Holding? then Some(s.(ledger := Paid(s.ledger, s.owner.activation.runId), owner := Free)) else None
    case BeginCompletion(r) =>
      if s.owner.Free? && r in s.retained && Leased(s.ledger, r) then
        Some(s.(ledger := Paid(s.ledger, r), owner := Completing(r)))
      else None
    case CoreAccepts =>
      if s.owner.Completing? then Some(s.(retained := Dropped(s.retained, s.owner.runId), owner := Free)) else None
    case CoreRefuses =>
      // The lease is restored unless the lane admitted the run again meanwhile.
      if s.owner.Completing? then
        Some(s.(ledger := if s.owner.runId in s.ledger then s.ledger else s.ledger[s.owner.runId := true], owner := Free))
      else None
    case Unanswered =>
      // A replay completion that timed out or was stranded: the lease stays
      // retired, because Core may have consumed the completion.
      if s.owner.Completing? then Some(s.(owner := Free)) else None
    case BeginRejection(a) =>
      if s.owner.Free? && a.runId in s.retained && s.retained[a.runId] == a then
        Some(s.(ledger := if Leased(s.ledger, a.runId) then Paid(s.ledger, a.runId) else s.ledger, owner := Rejecting(a.runId)))
      else None
    case EndRejection =>
      if s.owner.Rejecting? then Some(s.(retained := Dropped(s.retained, s.owner.runId), owner := Free)) else None
  }

  const INIT := State(map[], None, [], map[], Free)

  // ---- What every step keeps ----

  function Queued(s: seq<Activation>, r: string): nat {
    if s == [] then 0 else One(s[0].runId == r) + Queued(s[1..], r)
  }

  lemma {:induction false} QueuedAppend(s: seq<Activation>, a: Activation, r: string)
    ensures Queued(s + [a], r) == Queued(s, r) + One(a.runId == r)
  {
    if s != [] {
      assert (s + [a])[1..] == s[1..] + [a];
      QueuedAppend(s[1..], a, r);
    }
  }

  predicate Held(owner: Owner, r: string) {
    owner.Holding? && owner.activation.runId == r
  }

  predicate Settling(owner: Owner, r: string) {
    (owner.Completing? || owner.Rejecting?) && owner.runId == r
  }

  /** The activation belongs to a lease, or to one being settled. */
  predicate Owed(s: State, r: string) {
    (Leased(s.ledger, r) && !Held(s.owner, r)) || Settling(s.owner, r)
  }

  /** A leased run has its activation in the owner's hands or retained, a run
      being settled is retained and no longer leased, and an unleased one is on
      its way exactly once. */
  predicate RunOk(s: State, r: string) {
    && (Owed(s, r) ==> r in s.retained)
    && (Held(s.owner, r) ==> Leased(s.ledger, r))
    && (Settling(s.owner, r) ==> !Leased(s.ledger, r))
    && One(s.lane.Some? && s.lane.value.runId == r) + Queued(s.ready, r) == One(Unleased(s.ledger, r))
    && (r in s.retained ==> s.retained[r].runId == r)
  }

  ghost predicate Inv(s: State) {
    forall r: string :: RunOk(s, r)
  }

  lemma LaneKeeps(s: State, e: Event)
    requires Inv(s) && Step(s, e).Some? && (e.LaneAdmits? || e.LaneQueues?)
    ensures Inv(Step(s, e).value)
  {
    var s' := Step(s, e).value;
    forall r: string ensures RunOk(s', r) {
      assert RunOk(s, r);
      if e.LaneQueues? {
        QueuedAppend(s.ready, s.lane.value, r);
      }
    }
  }

  lemma TakeKeeps(s: State, e: Event)
    requires Inv(s) && Step(s, e).Some? && (e.Take? || e.Retain? || e.Unrepresentable?)
    ensures Inv(Step(s, e).value)
  {
    var s' := Step(s, e).value;
    if e.Take? {
      assert RunOk(s, s.ready[0].runId);
    } else {
      assert RunOk(s, s.owner.activation.runId);
    }
    forall r: string ensures RunOk(s', r) {
      assert RunOk(s, r);
    }
  }

  lemma SettleKeeps(s: State, e: Event)
    requires Inv(s) && Step(s, e).Some?
    requires e.BeginCompletion? || e.CoreAccepts? || e.CoreRefuses? || e.Unanswered? || e.BeginRejection? || e.EndRejection?
    ensures Inv(Step(s, e).value)
  {
    var s' := Step(s, e).value;
    forall r: string ensures RunOk(s', r) {
      assert RunOk(s, r);
    }
  }

  lemma StepKeepsInv(s: State, e: Event)
    requires Inv(s) && Step(s, e).Some?
    ensures Inv(Step(s, e).value)
  {
    match e
    case LaneAdmits(_) => LaneKeeps(s, e);
    case LaneQueues => LaneKeeps(s, e);
    case Take => TakeKeeps(s, e);
    case Retain => TakeKeeps(s, e);
    case Unrepresentable => TakeKeeps(s, e);
    case _ => SettleKeeps(s, e);
  }

  // ---- Runs ----

  predicate IsRun(ss: seq<State>, es: seq<Event>) {
    |ss| == |es| + 1 && ss[0] == INIT && forall i | 0 <= i < |es| :: Step(ss[i], es[i]) == Some(ss[i + 1])
  }

  lemma {:induction false} InvHolds(ss: seq<State>, es: seq<Event>, i: nat)
    requires IsRun(ss, es) && i <= |es|
    ensures Inv(ss[i])
  {
    if i > 0 {
      InvHolds(ss, es, i - 1);
      assert Step(ss[i - 1], es[i - 1]) == Some(ss[i - 1 + 1]);
      StepKeepsInv(ss[i - 1], es[i - 1]);
    }
  }

  // ---- The order of activations ----

  /** The activations the lane has admitted before step `i`, in order. */
  function Admissions(ss: seq<State>, es: seq<Event>, i: nat): seq<Activation>
    requires |ss| == |es| + 1 && i <= |es|
  {
    if i == 0 then []
    else Admissions(ss, es, i - 1) + (if es[i - 1].LaneAdmits? && ss[i].lane.Some? then [es[i - 1].activation] else [])
  }

  /** The activations handed out before step `i`, in order. */
  function HandedOut(ss: seq<State>, es: seq<Event>, i: nat): seq<Activation>
    requires |ss| == |es| + 1 && i <= |es|
  {
    if i == 0 then []
    else HandedOut(ss, es, i - 1) + (if es[i - 1].Take? && ss[i].owner.Holding? then [ss[i].owner.activation] else [])
  }

  function InLane(lane: Option<Activation>): seq<Activation> {
    if lane.Some? then [lane.value] else []
  }

  function Waiting(s: State): seq<Activation> {
    s.ready + InLane(s.lane)
  }

  lemma QueueStep(s: State, e: Event)
    requires Inv(s) && Step(s, e).Some?
    ensures var s' := Step(s, e).value;
            Waiting(s) + (if e.LaneAdmits? && s'.lane.Some? then [e.activation] else [])
            == (if e.Take? && s'.owner.Holding? then [s'.owner.activation] else []) + Waiting(s')
  {
    if e.Take? {
      assert RunOk(s, s.ready[0].runId);
      assert s.ready == [s.ready[0]] + s.ready[1..];
    }
  }

  /** First in, first out, over every run: what the lane admitted is what was
      handed out, what is queued and what the lane still holds, in that order;
      no activation is lost or handed out twice. */
  lemma {:induction false} ActivationsKeepTheirOrder(ss: seq<State>, es: seq<Event>, i: nat)
    requires IsRun(ss, es) && i <= |es|
    ensures Admissions(ss, es, i) == HandedOut(ss, es, i) + Waiting(ss[i])
  {
    if i > 0 {
      var h := i - 1;
      ActivationsKeepTheirOrder(ss, es, h);
      InvHolds(ss, es, h);
      assert Step(ss[h], es[h]) == Some(ss[h + 1]);
      QueueStep(ss[h], es[h]);
      QueueMoves(Admissions(ss, es, h), HandedOut(ss, es, h), Waiting(ss[h]),
                 if es[h].LaneAdmits? && ss[i].lane.Some? then [es[h].activation] else [],
                 if es[h].Take? && ss[i].owner.Holding? then [ss[i].owner.activation] else [], Waiting(ss[i]));
    }
  }

  // ---- What is admitted, completed and rejected ----

  /** A polled activation is admitted iff its run id is valid and not
      outstanding; any other changes nothing. */
  lemma AdmissionIsExact(ss: seq<State>, es: seq<Event>, i: nat, a: Activation)
    requires IsRun(ss, es) && i < |es| && es[i] == LaneAdmits(a)
    ensures ss[i + 1].lane.Some? <==> 1 <= Utf8Length(a.runId) <= 0x1_0000 && a.runId !in ss[i].ledger
    ensures if ss[i + 1].lane.Some? then ss[i + 1].lane == Some(a) && Unleased(ss[i + 1].ledger, a.runId) else ss[i + 1] == ss[i]
  {
    assert Step(ss[i], es[i]) == Some(ss[i + 1]);
  }

  /** An activation in the owner's hands is retained if its place is vacant;
      otherwise, or if it is unrepresentable, its lease is retired. */
  lemma HandoffIsExact(s: State)
    ensures Step(s, Retain).Some? <==> s.owner.Holding?
    ensures Step(s, Unrepresentable).Some? <==> s.owner.Holding?
    ensures s.owner.Holding? ==>
              && Step(s, Unrepresentable) == Some(s.(ledger := Paid(s.ledger, s.owner.activation.runId), owner := Free))
              && Step(s, Retain) == if s.owner.activation.runId in s.retained then Step(s, Unrepresentable)
                                    else Some(s.(retained := s.retained[s.owner.activation.runId := s.owner.activation], owner := Free))
  {
  }

  /** A queued activation is handed out and leased. */
  lemma TakeIsExact(s: State)
    requires Inv(s)
    ensures Step(s, Take).Some? <==> s.owner.Free? && s.ready != []
    ensures Step(s, Take).Some? ==>
              Step(s, Take)
              == Some(s.(ledger := s.ledger[s.ready[0].runId := true], ready := s.ready[1..], owner := Holding(s.ready[0])))
  {
    if s.ready != [] {
      assert RunOk(s, s.ready[0].runId);
    }
  }

  /** A completion is let through iff the run is retained and leased. Accepted,
      it leaves neither; refused, it changes nothing. */
  lemma CompletionIsExact(s: State, r: string)
    requires s.owner.Free?
    ensures Step(s, BeginCompletion(r)).Some? <==> r in s.retained && r in s.ledger && s.ledger[r]
    ensures Step(s, BeginCompletion(r)).Some? ==>
              && Step(Step(s, BeginCompletion(r)).value, CoreRefuses) == Some(s)
              && Step(Step(s, BeginCompletion(r)).value, CoreAccepts)
                 == Some(s.(ledger := Paid(s.ledger, r), retained := Dropped(s.retained, r)))
    ensures r !in Paid(s.ledger, r) && forall u | u != r :: u in Paid(s.ledger, r) <==> u in s.ledger
    ensures r !in Dropped(s.retained, r) && forall u | u != r :: u in Dropped(s.retained, r) <==> u in s.retained
  {
    if r in s.ledger && s.ledger[r] {
      assert Paid(s.ledger, r)[r := true] == s.ledger;
    }
  }

  /** A rejection is let through iff that very activation is retained; it goes,
      and its lease with it. */
  lemma RejectionIsExact(s: State, a: Activation)
    requires Inv(s) && s.owner.Free?
    ensures Step(s, BeginRejection(a)).Some? <==> a.runId in s.retained && s.retained[a.runId] == a
    ensures Step(s, BeginRejection(a)).Some? ==>
              Step(Step(s, BeginRejection(a)).value, EndRejection)
              == Some(s.(ledger := if Leased(s.ledger, a.runId) then Paid(s.ledger, a.runId) else s.ledger,
                         retained := Dropped(s.retained, a.runId)))
  {
  }

  // ---- Activations without a lease ----

  predicate Stale(s: State, r: string) {
    r in s.retained && !Owed(s, r)
  }

  /** A completion of `r` ends with its activation kept and its lease not
      restored. */
  predicate Strands(s: State, e: Event, r: string) {
    s.owner == Completing(r) && (e.Unanswered? || (e.CoreRefuses? && r in s.ledger))
  }

  /** Exactly which steps leave an activation without a lease. */
  lemma StaleStep(s: State, e: Event, r: string)
    requires Inv(s) && Step(s, e).Some? && !Stale(s, r)
    ensures Stale(Step(s, e).value, r) <==> Strands(s, e, r)
  {
    assert RunOk(s, r);
  }

  lemma {:induction false} StaleHasSource(ss: seq<State>, es: seq<Event>, i: nat, r: string) returns (k: nat)
    requires IsRun(ss, es) && i <= |es| && Stale(ss[i], r)
    ensures k < i && Strands(ss[k], es[k], r) && forall m | k < m <= i :: Stale(ss[m], r)
  {
    assert i > 0;
    assert Step(ss[i - 1], es[i - 1]) == Some(ss[i - 1 + 1]);
    if Stale(ss[i - 1], r) {
      k := StaleHasSource(ss, es, i - 1, r);
    } else {
      InvHolds(ss, es, i - 1);
      StaleStep(ss[i - 1], es[i - 1], r);
      k := i - 1;
    }
  }

  /** Between owner operations a leased run has its activation retained. A
      retained one is leased unless its completion was left unanswered, or was
      refused after the run was admitted again, and it was not rejected since. */
  lemma LeasedIffRetained(ss: seq<State>, es: seq<Event>, i: nat, r: string) returns (k: nat)
    requires IsRun(ss, es) && i <= |es| && ss[i].owner.Free?
    ensures Leased(ss[i].ledger, r) ==> r in ss[i].retained
    ensures r in ss[i].retained && !Leased(ss[i].ledger, r) ==>
              k < i && Strands(ss[k], es[k], r) && forall m | k < m <= i :: Stale(ss[m], r)
  {
    InvHolds(ss, es, i);
    assert RunOk(ss[i], r);
    k := 0;
    if Stale(ss[i], r) {
      k := StaleHasSource(ss, es, i, r);
    }
  }

  /** The duplicate and unknown branches of the poll are unreachable: whatever
      is taken is handed out. It finds its place vacant, unless an unsettled
      completion left an activation of the run there, which then stays; the new
      one is rejected and its lease retired. */
  lemma NoDuplicateIsDelivered(ss: seq<State>, es: seq<Event>, i: nat) returns (k: nat)
    requires IsRun(ss, es) && i < |es|
    ensures es[i].Take? ==> ss[i].ready != [] && ss[i + 1].owner == Holding(ss[i].ready[0])
    ensures es[i].Retain? ==>
              && ss[i].owner.Holding? && ss[i + 1].owner.Free?
              && var a := ss[i].owner.activation;
                 if a.runId in ss[i].retained
                 then ss[i + 1].retained == ss[i].retained && a.runId !in ss[i + 1].ledger && k < i && Strands(ss[k], es[k], a.runId)
                 else ss[i + 1].retained == ss[i].retained[a.runId := a] && Leased(ss[i + 1].ledger, a.runId)
  {
    InvHolds(ss, es, i);
    assert Step(ss[i], es[i]) == Some(ss[i + 1]);
    k := 0;
    if es[i].Take? {
      assert RunOk(ss[i], ss[i].ready[0].runId);
    } else if es[i].Retain? {
      var r := ss[i].owner.activation.runId;
      assert RunOk(ss[i], r);
      if r in ss[i].retained {
        k := StaleHasSource(ss, es, i, r);
      }
    }
  }

  /** A retained activation is the one that was handed out, unchanged since. */
  lemma {:induction false} RetainedIsNeverReplaced(ss: seq<State>, es: seq<Event>, i: nat, r: string) returns (k: nat)
    requires IsRun(ss, es) && i <= |es| && r in ss[i].retained
    ensures k < i && es[k].Retain? && ss[k].owner == Holding(ss[i].retained[r]) && r !in ss[k].retained
    ensures forall m | k < m <= i :: r in ss[m].retained && ss[m].retained[r] == ss[i].retained[r]
  {
    assert i > 0;
    assert Step(ss[i - 1], es[i - 1]) == Some(ss[i - 1 + 1]);
    if r in ss[i - 1].retained {
      k := RetainedIsNeverReplaced(ss, es, i - 1, r);
    } else {
      k := i - 1;
    }
  }
}
