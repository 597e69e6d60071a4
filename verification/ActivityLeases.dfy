/** Activity leases: the completion ledger and ready queue of the worker
    (rust/core-bridge/src/worker_bridge.rs) and the semantic documents the
    runtime retains for what it handed to OCaml (rust/core-bridge/src/abi.rs),
    before shutdown draining. The poll lane and the owner thread take steps in
    any order. */
module ActivityLeases {
  import opened Common

  type Token = seq<bv8>

  const MAX_TASK_TOKEN_BYTES := 128 * 1024 * 1024

  /** A Start owes Core one completion; a Cancel is an update to that Start. */
  datatype Doc = Start(token: Token, body: string) | Cancel(token: Token, body: string)

  datatype Debt = Debt(leased: bool, cancelled: bool)

  type Ledger = map<Token, Debt>

  type Docs = map<Token, seq<Doc>>

  /** What the owner thread is in the middle of. */
  datatype Owner = Free | Holding(doc: Doc) | Completing(token: Token) | Retiring(doc: Doc)

  /** `lane` is a task the poll lane admitted but has not yet queued. */
  datatype State = State(ledger: Ledger, lane: Option<Doc>, ready: seq<Doc>, docs: Docs, owner: Owner)

  // ---- Documents ----

  /** `retain_activity_task`. */
  function Retained(docs: Docs, d: Doc): Docs {
    docs[d.token := (if d.token in docs then docs[d.token] else []) + [d]]
  }

  /** `retire_activity_semantics`. */
  function AllRetired(docs: Docs, token: Token): Docs {
    map t | t in docs && t != token :: docs[t]
  }

  function WithoutFirst(s: seq<Doc>, d: Doc): seq<Doc> {
    if s == [] then [] else if s[0] == d then s[1..] else [s[0]] + WithoutFirst(s[1..], d)
  }

  /** `retire_activity_semantic`. */
  function OneRetired(docs: Docs, d: Doc): Docs {
    if d.token !in docs then docs
    else
      var rest := WithoutFirst(docs[d.token], d);
      if rest == [] then AllRetired(docs, d.token) else docs[d.token := rest]
  }

  predicate IsRetained(docs: Docs, d: Doc) {
    d.token in docs && d in docs[d.token]
  }

  function Starts(s: seq<Doc>): nat {
    if s == [] then 0 else One(s[0].Start?) + Starts(s[1..])
  }

  function StartsOf(docs: Docs, t: Token): nat {
    if t in docs then Starts(docs[t]) else 0
  }

  lemma {:induction false} StartsOfAppend(s: seq<Doc>, d: Doc)
    ensures Starts(s + [d]) == Starts(s) + One(d.Start?)
  {
    if s != [] {
      assert (s + [d])[1..] == s[1..] + [d];
      StartsOfAppend(s[1..], d);
    }
  }

  /** Exactly one matching document goes; the others keep their order. */
  lemma {:induction false} WithoutFirstRemovesOne(s: seq<Doc>, d: Doc)
    requires d in s
    ensures multiset(s) == multiset(WithoutFirst(s, d)) + multiset{d}
    ensures Starts(s) == Starts(WithoutFirst(s, d)) + One(d.Start?)
  {
    assert s == [s[0]] + s[1..];
    if s[0] != d {
      WithoutFirstRemovesOne(s[1..], d);
      var rest := WithoutFirst(s[1..], d);
      assert ([s[0]] + rest)[1..] == rest;
    }
  }

  function DocsFor(docs: Docs, t: Token): seq<Doc> {
    if t in docs then docs[t] else []
  }

  /** Nothing but the documents of `token` differs. */
  ghost predicate OnlyTokenChanged(before: Docs, after: Docs, token: Token) {
    forall t | t != token :: (t in after <==> t in before) && (t in before ==> after[t] == before[t])
  }

  lemma {:induction false} WithoutFirstUndoesAppend(s: seq<Doc>, d: Doc)
    requires d !in s
    ensures WithoutFirst(s + [d], d) == s
  {
    if s != [] {
      assert (s + [d])[1..] == s[1..] + [d];
      WithoutFirstUndoesAppend(s[1..], d);
    }
  }

  /** Retiring what was just retained restores the documents: the same ones
      always, in the same order unless an equal one was retained before. */
  lemma RetireUndoesRetain(docs: Docs, d: Doc)
    requires DocsOk(docs)
    ensures var after := OneRetired(Retained(docs, d), d);
            && after.Keys == docs.Keys && OnlyTokenChanged(docs, after, d.token)
            && multiset(DocsFor(after, d.token)) == multiset(DocsFor(docs, d.token))
            && (!IsRetained(docs, d) ==> after == docs)
  {
    var s, after := DocsFor(docs, d.token), OneRetired(Retained(docs, d), d);
    assert d.token in docs ==> ListOk(d.token, s);
    AppendThenRemove(s, d);
    if d !in s {
      WithoutFirstUndoesAppend(s, d);
      assert after.Keys == docs.Keys;
    }
  }

  lemma AppendThenRemove(s: seq<Doc>, d: Doc)
    ensures multiset(WithoutFirst(s + [d], d)) == multiset(s) && |WithoutFirst(s + [d], d)| == |s|
  {
    var rest := WithoutFirst(s + [d], d);
    WithoutFirstRemovesOne(s + [d], d);
    assert multiset(s + [d]) == multiset(s) + multiset{d};
    assert multiset(rest) == multiset(s + [d]) - multiset{d} == multiset(s);
    assert |multiset(s)| == |s| && |multiset(rest)| == |rest|;
  }

  // ---- The queue ----

  function Queued(s: seq<Doc>, t: Token): nat {
    if s == [] then 0 else One(s[0].Start? && s[0].token == t) + Queued(s[1..], t)
  }

  lemma {:induction false} QueuedAppend(s: seq<Doc>, d: Doc, t: Token)
    ensures Queued(s + [d], t) == Queued(s, t) + One(d.Start? && d.token == t)
  {
    if s != [] {
      assert (s + [d])[1..] == s[1..] + [d];
      QueuedAppend(s[1..], d, t);
    }
  }

  /** `try_take_activity`: stale cancellations are dropped on the way. */
  datatype Take = Nothing | Handed(doc: Doc, ledger: Ledger, rest: seq<Doc>) | Confused(rest: seq<Doc>)

  function TakeFrom(ledger: Ledger, ready: seq<Doc>): Take {
    if ready == [] then Nothing
    else
      var d := ready[0];
      if d.Cancel? && d.token !in ledger then TakeFrom(ledger, ready[1..])
      else if d.Cancel? then Handed(d, ledger, ready[1..])
      else if d.token in ledger && !ledger[d.token].leased then
        Handed(d, ledger[d.token := ledger[d.token].(leased := true)], ready[1..])
      else Confused(ready[1..])
  }

  // ---- Steps ----

  datatype Event =
    | LaneAdmits(doc: Doc)
    | LaneQueues
    | Take
    | Retain
    | Unrepresentable
    | CoreCompletes(token: Token)
    | ClearDocuments
    | RejectDocument(doc: Doc)
    | RetireDocument

  predicate Leased(ledger: Ledger, t: Token) {
    t in ledger && ledger[t].leased
  }

  predicate Unleased(ledger: Ledger, t: Token) {
    t in ledger && !ledger[t].leased
  }

  function Paid(ledger: Ledger, t: Token): Ledger {
    map u | u in ledger && u != t :: ledger[u]
  }

  /** `record_activity`: the ledger after admitting a polled task, if it is queued. */
  function Admitted(ledger: Ledger, d: Doc): Option<Ledger> {
    if !(0 < |d.token| <= MAX_TASK_TOKEN_BYTES) then None
    else
      match d
      case Start(t, _) => if t in ledger then None else Some(ledger[t := Debt(false, false)])
      case Cancel(t, _) =>
        if t in ledger && !ledger[t].cancelled then Some(ledger[t := ledger[t].(cancelled := true)]) else None
  }

  function Step(s: State, e: Event): Option<State> {
    match e
    case LaneAdmits(d) =>
      if s.lane.Some? then None
      else
        var ledger := Admitted(s.ledger, d);
        if ledger.Some? then Some(s.(ledger := ledger.value, lane := Some(d))) else Some(s)
    case LaneQueues =>
      if s.lane.Some? then Some(s.(lane := None, ready := s.ready + [s.lane.value])) else None
    case Take =>
      if !s.owner.Free? then None
      else
        var k := TakeFrom(s.ledger, s.ready);
        if k.Handed? then Some(s.(ledger := k.ledger, ready := k.rest, owner := Holding(k.doc)))
        else Some(s.(ready := if k.Confused? then k.rest else []))
    case Retain =>
      if s.owner.Holding? then Some(s.(docs := Retained(s.docs, s.owner.doc), owner := Free)) else None
    case Unrepresentable =>
      // Only a Start owes a completion; it is retired whatever Core answers.
      if !s.owner.Holding? then None
      else if s.owner.doc.Start? then Some(s.(ledger := Paid(s.ledger, s.owner.doc.token), owner := Free))
      else Some(s.(owner := Free))
    case CoreCompletes(t) =>
      if s.owner.Free? && Leased(s.ledger, t) then Some(s.(ledger := Paid(s.ledger, t), owner := Completing(t))) else None
    case ClearDocuments =>
      if s.owner.Completing? then Some(s.(docs := AllRetired(s.docs, s.owner.token), owner := Free)) else None
    case RejectDocument(d) =>
      if !(s.owner.Free? && IsRetained(s.docs, d)) then None
      else if d.Start? && Leased(s.ledger, d.token) then Some(s.(ledger := Paid(s.ledger, d.token), owner := Retiring(d)))
      else Some(s.(owner := Retiring(d)))
    case RetireDocument =>
      if s.owner.Retiring? then Some(s.(docs := OneRetired(s.docs, s.owner.doc), owner := Free)) else None
  }

  const INIT := State(map[], None, [], map[], Free)

  // ---- What every step keeps ----

  predicate ListOk(t: Token, s: seq<Doc>) {
    s != [] && forall i | 0 <= i < |s| :: s[i].token == t
  }

  predicate DocsOk(docs: Docs) {
    forall t | t in docs :: ListOk(t, docs[t])
  }

  function HeldStart(owner: Owner, t: Token): nat {
    One(owner.Holding? && owner.doc.Start? && owner.doc.token == t)
  }

  /** A retained Start whose debt the owner has already paid. */
  function SettledStart(owner: Owner, t: Token): nat {
    One((owner.Completing? && owner.token == t) || (owner.Retiring? && owner.doc.Start? && owner.doc.token == t))
  }

  function LaneStart(lane: Option<Doc>, t: Token): nat {
    One(lane.Some? && lane.value.Start? && lane.value.token == t)
  }

  /** Every debt has exactly one Start document: on its way to the owner while
      unleased, retained (or in the owner's hands) while leased. */
  predicate TokenOk(s: State, t: Token) {
    && StartsOf(s.docs, t) + HeldStart(s.owner, t) == One(Leased(s.ledger, t)) + SettledStart(s.owner, t)
    && LaneStart(s.lane, t) + Queued(s.ready, t) == One(Unleased(s.ledger, t))
  }

  ghost predicate TokensOk(s: State) {
    forall t: Token :: TokenOk(s, t)
  }

  ghost predicate Inv(s: State) {
    && DocsOk(s.docs)
    && TokensOk(s)
    && (s.owner.Retiring? ==> IsRetained(s.docs, s.owner.doc))
    && (s.owner.Completing? ==> !Leased(s.ledger, s.owner.token))
    && (s.owner.Holding? ==> s.owner.doc.token in s.ledger)
  }

  // ---- Taking ----

  /** Queued Starts a take accounts for. */
  function TakenStarts(k: Take, t: Token): nat {
    if k.Handed? then Queued(k.rest, t) + One(k.doc.Start? && k.doc.token == t) else 0
  }

  ghost predicate QueueOk(ledger: Ledger, lane: Option<Doc>, ready: seq<Doc>) {
    forall t: Token :: LaneStart(lane, t) + Queued(ready, t) == One(Unleased(ledger, t))
  }

  /** The handoff of a queued Start always finds its unleased debt, so the
      duplicate and unknown branches of the take are unreachable. */
  lemma {:induction false} TakeIsClear(ledger: Ledger, lane: Option<Doc>, ready: seq<Doc>)
    requires QueueOk(ledger, lane, ready)
    ensures var k := TakeFrom(ledger, ready);
            && !k.Confused?
            && (k.Handed? && k.doc.Start? ==>
                  Unleased(ledger, k.doc.token)
                  && k.ledger == ledger[k.doc.token := ledger[k.doc.token].(leased := true)])
            && (k.Handed? && k.doc.Cancel? ==> k.ledger == ledger && k.doc.token in ledger)
    ensures forall t: Token :: Queued(ready, t) == TakenStarts(TakeFrom(ledger, ready), t)
  {
    if ready != [] {
      var d := ready[0];
      assert d.Start? ==> Queued(ready, d.token) >= 1 && LaneStart(lane, d.token) + Queued(ready, d.token) == One(Unleased(ledger, d.token));
      if d.Cancel? && d.token !in ledger {
        forall t: Token ensures Queued(ready[1..], t) == Queued(ready, t) {
        }
        assert QueueOk(ledger, lane, ready[1..]);
        TakeIsClear(ledger, lane, ready[1..]);
      }
    }
  }

  lemma {:induction false} TakeKeepsDebts(ledger: Ledger, ready: seq<Doc>)
    ensures TakeFrom(ledger, ready).Handed? ==> TakeFrom(ledger, ready).ledger.Keys == ledger.Keys
  {
    if ready != [] {
      TakeKeepsDebts(ledger, ready[1..]);
    }
  }

  lemma TakeKeeps(s: State)
    requires Inv(s) && s.owner.Free?
    ensures Inv(Step(s, Take).value)
  {
    var s' := Step(s, Take).value;
    var k := TakeFrom(s.ledger, s.ready);
    forall t: Token ensures LaneStart(s.lane, t) + Queued(s.ready, t) == One(Unleased(s.ledger, t)) {
      assert TokenOk(s, t);
    }
    TakeIsClear(s.ledger, s.lane, s.ready);
    forall t: Token ensures TokenOk(s', t) {
      assert TokenOk(s, t);
      assert Queued(s.ready, t) == TakenStarts(k, t);
    }
  }

  // ---- The lane ----

  lemma AdmitKeeps(s: State, d: Doc)
    requires Inv(s) && Step(s, LaneAdmits(d)).Some?
    ensures Inv(Step(s, LaneAdmits(d)).value)
  {
    var s' := Step(s, LaneAdmits(d)).value;
    forall t: Token ensures TokenOk(s', t) {
      assert TokenOk(s, t);
    }
  }

  lemma QueueKeeps(s: State)
    requires Inv(s) && s.lane.Some?
    ensures Inv(Step(s, LaneQueues).value)
  {
    var s' := Step(s, LaneQueues).value;
    forall t: Token ensures TokenOk(s', t) {
      assert TokenOk(s, t);
      QueuedAppend(s.ready, s.lane.value, t);
    }
  }

  // ---- Documents ----

  lemma RetainKeeps(s: State)
    requires Inv(s) && s.owner.Holding?
    ensures Inv(Step(s, Retain).value)
  {
    var s', d := Step(s, Retain).value, s.owner.doc;
    var before := if d.token in s.docs then s.docs[d.token] else [];
    StartsOfAppend(before, d);
    forall t: Token ensures TokenOk(s', t) {
      assert TokenOk(s, t);
    }
    assert d.token in s.docs ==> ListOk(d.token, before);
    assert ListOk(d.token, before + [d]);
  }

  lemma PayKeeps(s: State, e: Event)
    requires Inv(s) && Step(s, e).Some? && (e.Unrepresentable? || e.CoreCompletes? || e.RejectDocument?)
    ensures Inv(Step(s, e).value)
  {
    var s' := Step(s, e).value;
    if e.RejectDocument? && e.doc.Start? {
      StartIsLeased(s, e.doc);
    }
    forall t: Token ensures TokenOk(s', t) {
      assert TokenOk(s, t);
    }
  }

  /** A retained Start implies an outstanding, leased debt. */
  lemma StartIsLeased(s: State, d: Doc)
    requires Inv(s) && s.owner.Free? && IsRetained(s.docs, d) && d.Start?
    ensures Leased(s.ledger, d.token)
  {
    assert TokenOk(s, d.token);
    WithoutFirstRemovesOne(s.docs[d.token], d);
  }

  lemma ClearKeeps(s: State)
    requires Inv(s) && s.owner.Completing?
    ensures Inv(Step(s, ClearDocuments).value)
  {
    var s' := Step(s, ClearDocuments).value;
    forall t: Token ensures TokenOk(s', t) {
      assert TokenOk(s, t);
    }
  }

  lemma {:induction false} WithoutFirstKeepsTokens(s: seq<Doc>, d: Doc, t: Token)
    requires forall i | 0 <= i < |s| :: s[i].token == t
    ensures forall i | 0 <= i < |WithoutFirst(s, d)| :: WithoutFirst(s, d)[i].token == t
  {
    if s != [] && s[0] != d {
      WithoutFirstKeepsTokens(s[1..], d, t);
    }
  }

  lemma OneRetiredEffect(docs: Docs, d: Doc, t: Token)
    requires DocsOk(docs) && IsRetained(docs, d)
    ensures DocsOk(OneRetired(docs, d))
    ensures StartsOf(docs, t) == StartsOf(OneRetired(docs, d), t) + One(d.Start? && d.token == t)
  {
    assert ListOk(d.token, docs[d.token]);
    WithoutFirstRemovesOne(docs[d.token], d);
    WithoutFirstKeepsTokens(docs[d.token], d, d.token);
  }

  lemma RetireKeeps(s: State)
    requires Inv(s) && s.owner.Retiring?
    ensures Inv(Step(s, RetireDocument).value)
  {
    var s', d := Step(s, RetireDocument).value, s.owner.doc;
    OneRetiredEffect(s.docs, d, d.token);
    forall t: Token ensures TokenOk(s', t) {
      assert TokenOk(s, t);
      OneRetiredEffect(s.docs, d, t);
    }
  }

  lemma StepKeepsInv(s: State, e: Event)
    requires Inv(s) && Step(s, e).Some?
    ensures Inv(Step(s, e).value)
  {
    match e
    case LaneAdmits(d) => AdmitKeeps(s, d);
    case LaneQueues => QueueKeeps(s);
    case Take => TakeKeeps(s);
    case Retain => RetainKeeps(s);
    case ClearDocuments => ClearKeeps(s);
    case RetireDocument => RetireKeeps(s);
    case _ => PayKeeps(s, e);
  }

  // ---- Runs ----

  predicate IsRun(ss: seq<State>, es: seq<Event>) {
    |ss| == |es| + 1 && ss[0] == INIT && forall i | 0 <= i < |es| :: Step(ss[i], es[i]) == Some(ss[i + 1])
  }

  lemma {:induction false} InvHolds(ss: seq<State>, es: seq<Event>, i: nat)
    requires IsRun(ss, es) && i <= |es|
    ensures Inv(ss[i])
  {
    if i > 0 {
      InvHolds(ss, es, i - 1);
      assert Step(ss[i - 1], es[i - 1]) == Some(ss[i - 1 + 1]);
      StepKeepsInv(ss[i - 1], es[i - 1]);
    }
  }

  /** Between owner operations: no list is stored empty, a token is leased iff
      exactly one Start document is retained for it, and otherwise none is; a
      queued Start always waits on an unleased debt. */
  lemma DocumentsMatchDebts(ss: seq<State>, es: seq<Event>, i: nat, t: Token)
    requires IsRun(ss, es) && i <= |es| && ss[i].owner.Free?
    ensures t in ss[i].docs ==> ss[i].docs[t] != []
    ensures StartsOf(ss[i].docs, t) == One(Leased(ss[i].ledger, t))
    ensures LaneStart(ss[i].lane, t) + Queued(ss[i].ready, t) == One(Unleased(ss[i].ledger, t))
    ensures !TakeFrom(ss[i].ledger, ss[i].ready).Confused?
  {
    InvHolds(ss, es, i);
    var s := ss[i];
    assert TokenOk(s, t);
    forall u: Token ensures LaneStart(s.lane, u) + Queued(s.ready, u) == One(Unleased(s.ledger, u)) {
      assert TokenOk(s, u);
    }
    TakeIsClear(s.ledger, s.lane, s.ready);
    assert t in s.docs ==> ListOk(t, s.docs[t]);
  }

  /** Rejecting a document removes exactly one occurrence of it and touches no
      other token; a Cancel pays no debt and keeps the token's Start, a Start
      pays exactly its own debt. The lane may act in between. */
  lemma RejectionIsExact(ss: seq<State>, es: seq<Event>, i: nat, j: nat, d: Doc)
    requires IsRun(ss, es) && i < j < |es| && es[i] == RejectDocument(d) && es[j] == RetireDocument
    requires forall m | i < m < j :: es[m].LaneAdmits? || es[m].LaneQueues?
    ensures IsRetained(ss[i].docs, d)
    ensures forall t | t != d.token :: (t in ss[j + 1].docs <==> t in ss[i].docs) && (t in ss[i].docs ==> ss[j + 1].docs[t] == ss[i].docs[t])
    ensures multiset(DocsFor(ss[i].docs, d.token)) == multiset(DocsFor(ss[j + 1].docs, d.token)) + multiset{d}
    ensures d.Cancel? ==> ss[i + 1].ledger == ss[i].ledger
    ensures d.Start? ==> Leased(ss[i].ledger, d.token) && ss[i + 1].ledger == Paid(ss[i].ledger, d.token)
  {
    RejectStep(ss, es, i, d);
    LaneLeavesDocs(ss, es, i + 1, j);
    assert Step(ss[j], es[j]) == Some(ss[j + 1]);
    WithoutFirstRemovesOne(ss[i].docs[d.token], d);
  }

  lemma RejectStep(ss: seq<State>, es: seq<Event>, i: nat, d: Doc)
    requires IsRun(ss, es) && i < |es| && es[i] == RejectDocument(d)
    ensures IsRetained(ss[i].docs, d) && ss[i + 1].docs == ss[i].docs && ss[i + 1].owner == Retiring(d)
    ensures d.Cancel? ==> ss[i + 1].ledger == ss[i].ledger
    ensures d.Start? ==> Leased(ss[i].ledger, d.token) && ss[i + 1].ledger == Paid(ss[i].ledger, d.token)
  {
    assert Step(ss[i], es[i]) == Some(ss[i + 1]);
    if d.Start? {
      InvHolds(ss, es, i);
      StartIsLeased(ss[i], d);
    }
  }

  lemma {:induction false} LaneLeavesDocs(ss: seq<State>, es: seq<Event>, i: nat, j: nat)
    requires IsRun(ss, es) && i <= j <= |es| && forall m | i <= m < j :: es[m].LaneAdmits? || es[m].LaneQueues?
    ensures ss[j].docs == ss[i].docs && ss[j].owner == ss[i].owner
    decreases j - i
  {
    if i < j {
      LaneLeavesDocs(ss, es, i, j - 1);
      assert Step(ss[j - 1], es[j - 1]) == Some(ss[j - 1 + 1]);
    }
  }

  // ---- The order of tasks ----

  /** The tasks the lane has admitted before step `i`, in order. */
  function Admissions(ss: seq<State>, es: seq<Event>, i: nat): seq<Doc>
    requires |ss| == |es| + 1 && i <= |es|
  {
    if i == 0 then []
    else Admissions(ss, es, i - 1) + (if es[i - 1].LaneAdmits? && ss[i].lane.Some? then [es[i - 1].doc] else [])
  }

  /** The tasks that takes have removed from the queue before step `i`. */
  function Removals(ss: seq<State>, es: seq<Event>, i: nat): seq<Doc>
    requires |ss| == |es| + 1 && i <= |es|
  {
    if i == 0 then []
    else Removals(ss, es, i - 1) + (if es[i - 1].Take? then FrontOf(ss[i - 1].ready, ss[i].ready) else [])
  }

  function FrontOf(before: seq<Doc>, after: seq<Doc>): seq<Doc> {
    if |after| <= |before| then before[..|before| - |after|] else []
  }

  function InLane(lane: Option<Doc>): seq<Doc> {
    if lane.Some? then [lane.value] else []
  }

  predicate StaleCancels(ledger: Ledger, docs: seq<Doc>) {
    forall d | d in docs :: d.Cancel? && d.token !in ledger
  }

  /** A take removes stale cancellations and hands out the task behind them. */
  predicate TakenFromFront(ledger: Ledger, ready: seq<Doc>, k: Take, skipped: seq<Doc>) {
    && StaleCancels(ledger, skipped)
    && match k
       case Nothing => ready == skipped
       case Handed(d, _, rest) => ready == skipped + [d] + rest && !(d.Cancel? && d.token !in ledger)
       case Confused(rest) => |skipped| < |ready| && ready == skipped + [ready[|skipped|]] + rest
  }

  lemma {:induction false} TakeIsInOrder(ledger: Ledger, ready: seq<Doc>) returns (skipped: seq<Doc>)
    ensures TakenFromFront(ledger, ready, TakeFrom(ledger, ready), skipped)
  {
    skipped := [];
    if ready != [] {
      var d := ready[0];
      assert ready == [d] + ready[1..];
      if d.Cancel? && d.token !in ledger {
        skipped := TakeIsInOrder(ledger, ready[1..]);
        skipped := [d] + skipped;
      }
    }
  }

  function Waiting(s: State): seq<Doc> {
    s.ready + InLane(s.lane)
  }

  lemma QueueStep(s: State, e: Event)
    requires Step(s, e).Some?
    ensures var s' := Step(s, e).value;
            Waiting(s) + (if e.LaneAdmits? && s'.lane.Some? then [e.doc] else [])
            == (if e.Take? then FrontOf(s.ready, s'.ready) else []) + Waiting(s')
  {
    if e.Take? {
      TakeLeavesRest(s);
      SameEnd(FrontOf(s.ready, Step(s, e).value.ready), Step(s, e).value.ready, InLane(s.lane));
    } else if e.LaneQueues? {
      assert Waiting(s) == s.ready + [s.lane.value];
    }
  }

  lemma SameEnd(front: seq<Doc>, rest: seq<Doc>, end: seq<Doc>)
    ensures (front + rest) + end + [] == front + (rest + end)
  {
  }

  lemma TakeLeavesRest(s: State)
    requires Step(s, Take).Some?
    ensures Step(s, Take).value.lane == s.lane && s.ready == FrontOf(s.ready, Step(s, Take).value.ready) + Step(s, Take).value.ready
  {
    var skipped := TakeIsInOrder(s.ledger, s.ready);
    var rest := Step(s, Take).value.ready;
    assert s.ready[|s.ready| - |rest|..] == rest;
  }

  /** First in, first out, over every run: what the lane admitted is what was
      taken off the queue, what is queued and what the lane still holds, in that
      order. */
  lemma {:induction false} TasksKeepTheirOrder(ss: seq<State>, es: seq<Event>, i: nat)
    requires IsRun(ss, es) && i <= |es|
    ensures Admissions(ss, es, i) == Removals(ss, es, i) + Waiting(ss[i])
  {
    if i > 0 {
      var h := i - 1;
      TasksKeepTheirOrder(ss, es, h);
      assert Step(ss[h], es[h]) == Some(ss[h + 1]);
      QueueStep(ss[h], es[h]);
      QueueMoves(Admissions(ss, es, h), Removals(ss, es, h), Waiting(ss[h]),
                 if es[h].LaneAdmits? && ss[i].lane.Some? then [es[h].doc] else [],
                 if es[h].Take? then FrontOf(ss[h].ready, ss[i].ready) else [], Waiting(ss[i]));
    }
  }

  /** All but the last of the removed tasks are stale cancellations, and the
      last is the one handed out. */
  predicate HandsOutNext(ledger: Ledger, removed: seq<Doc>, d: Doc) {
    removed != [] && removed[|removed| - 1] == d && StaleCancels(ledger, removed[..|removed| - 1])
  }

  /** A take hands out the first task that is not a stale cancellation, and
      takes nothing behind it; it hands out none only if there is none. */
  lemma TakeHandsOutNext(ss: seq<State>, es: seq<Event>, i: nat)
    requires IsRun(ss, es) && i < |es| && es[i] == Take
    ensures if ss[i + 1].owner.Holding?
            then HandsOutNext(ss[i].ledger, FrontOf(ss[i].ready, ss[i + 1].ready), ss[i + 1].owner.doc)
            else ss[i + 1].ready == [] && StaleCancels(ss[i].ledger, ss[i].ready)
  {
    var s, s' := ss[i], ss[i + 1];
    assert Step(s, Take) == Some(s');
    var skipped := TakeIsInOrder(s.ledger, s.ready);
    InvHolds(ss, es, i);
    TakeIsNeverConfused(s);
    if s'.owner.Holding? {
      assert FrontOf(s.ready, s'.ready) == skipped + [s'.owner.doc];
    }
  }

  lemma TakeIsNeverConfused(s: State)
    requires Inv(s)
    ensures !TakeFrom(s.ledger, s.ready).Confused?
  {
    forall t: Token ensures LaneStart(s.lane, t) + Queued(s.ready, t) == One(Unleased(s.ledger, t)) {
      assert TokenOk(s, t);
    }
    TakeIsClear(s.ledger, s.lane, s.ready);
  }

  // ---- What is admitted, completed and returned ----

  /** A polled task is admitted iff its token is valid and it is the Start of a
      token without a debt, or the first Cancel of one with a debt; any other
      changes nothing. */
  lemma AdmissionIsExact(ss: seq<State>, es: seq<Event>, i: nat, d: Doc)
    requires IsRun(ss, es) && i < |es| && es[i] == LaneAdmits(d)
    ensures AdmittedAt(ss, es, i, d) <==>
              1 <= |d.token| <= 0x800_0000
              && (if d.Start? then d.token !in ss[i].ledger else d.token in ss[i].ledger && !ss[i].ledger[d.token].cancelled)
    ensures if AdmittedAt(ss, es, i, d) then ss[i + 1].lane == Some(d) && d.token in ss[i + 1].ledger else ss[i + 1] == ss[i]
  {
    assert Step(ss[i], es[i]) == Some(ss[i + 1]);
  }

  predicate AdmittedAt(ss: seq<State>, es: seq<Event>, i: nat, d: Doc)
    requires i < |es| < |ss|
  {
    es[i] == LaneAdmits(d) && ss[i + 1].lane.Some?
  }

  predicate AdmitsStart(ss: seq<State>, es: seq<Event>, i: nat, t: Token)
    requires i < |es| < |ss|
  {
    es[i].LaneAdmits? && es[i].doc.Start? && es[i].doc.token == t && ss[i + 1].lane.Some?
  }

  predicate NoNewCancel(ledger: Ledger, t: Token) {
    t in ledger ==> ledger[t].cancelled
  }

  lemma {:induction false} TakeKeepsCancelled(ledger: Ledger, ready: seq<Doc>, t: Token)
    requires NoNewCancel(ledger, t) && TakeFrom(ledger, ready).Handed?
    ensures NoNewCancel(TakeFrom(ledger, ready).ledger, t)
  {
    if ready[0].Cancel? && ready[0].token !in ledger {
      TakeKeepsCancelled(ledger, ready[1..], t);
    }
  }

  lemma CancelledStep(s: State, e: Event, t: Token)
    requires Step(s, e).Some? && NoNewCancel(s.ledger, t)
    requires !(e.LaneAdmits? && e.doc.Start? && e.doc.token == t && Step(s, e).value.lane.Some?)
    ensures NoNewCancel(Step(s, e).value.ledger, t)
  {
    if e.Take? && TakeFrom(s.ledger, s.ready).Handed? {
      TakeKeepsCancelled(s.ledger, s.ready, t);
    }
  }

  lemma {:induction false} CancelledStays(ss: seq<State>, es: seq<Event>, i: nat, j: nat, t: Token)
    requires IsRun(ss, es) && i <= j <= |es| && NoNewCancel(ss[i].ledger, t)
    requires forall m | i <= m < j :: !AdmitsStart(ss, es, m, t)
    ensures NoNewCancel(ss[j].ledger, t)
    decreases j
  {
    if i < j {
      CancelledStays(ss, es, i, j - 1, t);
      assert Step(ss[j - 1], es[j - 1]) == Some(ss[j - 1 + 1]);
      assert !AdmitsStart(ss, es, j - 1, t);
      CancelledStep(ss[j - 1], es[j - 1], t);
    }
  }

  /** One Cancel per Start: between two admitted Cancels of a token, a Start of
      it was admitted. */
  lemma OneCancelPerStart(ss: seq<State>, es: seq<Event>, i: nat, j: nat, c: Doc, d: Doc) returns (k: nat)
    requires IsRun(ss, es) && i < j < |es| && AdmittedAt(ss, es, i, c) && AdmittedAt(ss, es, j, d)
    requires c.Cancel? && d.Cancel? && c.token == d.token
    ensures i < k < j && AdmitsStart(ss, es, k, c.token)
  {
    assert Step(ss[i], es[i]) == Some(ss[i + 1]);
    AdmissionIsExact(ss, es, j, d);
    if forall m | i < m < j :: !AdmitsStart(ss, es, m, c.token) {
      CancelledStays(ss, es, i + 1, j, c.token);
      assert false;
    }
    k :| i < k < j && AdmitsStart(ss, es, k, c.token);
  }

  /** A task in the owner's hands is retained, or dropped as unrepresentable; in
      the latter case a Start's debt goes with it and a Cancel pays nothing. */
  lemma HandoffIsExact(s: State)
    ensures Step(s, Retain).Some? <==> s.owner.Holding?
    ensures Step(s, Unrepresentable).Some? <==> s.owner.Holding?
    ensures s.owner.Holding? ==>
              && Step(s, Retain) == Some(s.(docs := Retained(s.docs, s.owner.doc), owner := Free))
              && Step(s, Unrepresentable)
                 == Some(s.(ledger := if s.owner.doc.Start? then Paid(s.ledger, s.owner.doc.token) else s.ledger, owner := Free))
  {
  }

  /** A completion is accepted iff its token is leased. It then leaves neither a
      debt nor a document of the token, and nothing else changes. */
  lemma CompletionIsExact(s: State, t: Token)
    requires s.owner.Free?
    ensures Step(s, CoreCompletes(t)).Some? <==> t in s.ledger && s.ledger[t].leased
    ensures Step(s, CoreCompletes(t)).Some? ==>
              Step(Step(s, CoreCompletes(t)).value, ClearDocuments)
              == Some(s.(ledger := Paid(s.ledger, t), docs := AllRetired(s.docs, t)))
    ensures t !in Paid(s.ledger, t) && forall u | u != t :: u in Paid(s.ledger, t) <==> u in s.ledger
    ensures t !in AllRetired(s.docs, t) && OnlyTokenChanged(s.docs, AllRetired(s.docs, t), t)
  {
  }

  // ---- Documents without a debt ----

  /** Documents are retained for a token that owes nothing, with no operation
      on its Start under way. */
  predicate Orphaned(s: State, t: Token) {
    t in s.docs && t !in s.ledger && SettledStart(s.owner, t) == 0
  }

  /** The step pays the debt of `t` for good and leaves documents of it behind. */
  predicate Orphans(s: State, e: Event, t: Token) {
    || (e.Unrepresentable? && s.owner.Holding? && s.owner.doc.Start? && s.owner.doc.token == t && t in s.docs)
    || (e.RetireDocument? && s.owner.Retiring? && s.owner.doc.Start? && s.owner.doc.token == t
        && t !in s.ledger && |DocsFor(s.docs, t)| > 1)
  }

  /** Exactly which steps leave documents without a debt. */
  lemma OrphanStep(s: State, e: Event, t: Token)
    requires Inv(s) && Step(s, e).Some? && !Orphaned(s, t)
    ensures Orphaned(Step(s, e).value, t) <==> Orphans(s, e, t)
  {
    if e.RejectDocument? && e.doc.Start? {
      StartIsLeased(s, e.doc);
    } else if e.RetireDocument? {
      var d := s.owner.doc;
      RetiredLeavesRest(s.docs, d);
      assert t != d.token ==> (t in OneRetired(s.docs, d) <==> t in s.docs);
    } else if e.Take? {
      TakeKeepsDebts(s.ledger, s.ready);
    }
  }

  lemma RetiredLeavesRest(docs: Docs, d: Doc)
    requires IsRetained(docs, d)
    ensures d.token in OneRetired(docs, d) <==> |docs[d.token]| > 1
  {
    var s := docs[d.token];
    WithoutFirstRemovesOne(s, d);
    assert |multiset(s)| == |s| && |multiset(WithoutFirst(s, d))| == |WithoutFirst(s, d)|;
  }

  /** In every run, a token that has documents but no debt got into that state
      by one of those steps, and its Start was not polled again since. */
  lemma {:induction false} OrphanHasSource(ss: seq<State>, es: seq<Event>, i: nat, t: Token) returns (k: nat)
    requires IsRun(ss, es) && i <= |es| && Orphaned(ss[i], t)
    ensures k < i && Orphans(ss[k], es[k], t) && forall m | k < m <= i :: Orphaned(ss[m], t)
  {
    assert i > 0;
    assert Step(ss[i - 1], es[i - 1]) == Some(ss[i - 1 + 1]);
    if Orphaned(ss[i - 1], t) {
      k := OrphanHasSource(ss, es, i - 1, t);
    } else {
      InvHolds(ss, es, i - 1);
      OrphanStep(ss[i - 1], es[i - 1], t);
      k := i - 1;
    }
  }

  /** Documents do not imply a debt: rejecting a Start pays its debt, and its
      token keeps documents exactly when more than the Start was retained. */
  lemma CancelsOutliveTheirStart(ss: seq<State>, es: seq<Event>, i: nat, j: nat, d: Doc)
    requires IsRun(ss, es) && i < j < |es| && es[i] == RejectDocument(d) && es[j] == RetireDocument && d.Start?
    requires forall m | i < m < j :: es[m].LaneAdmits? || es[m].LaneQueues?
    ensures IsRetained(ss[i].docs, d) && d.token in ss[i].ledger && d.token !in ss[i + 1].ledger
    ensures d.token in ss[j + 1].docs <==> |ss[i].docs[d.token]| > 1
    ensures Orphaned(ss[j + 1], d.token) <==> |ss[i].docs[d.token]| > 1 && d.token !in ss[j].ledger
    ensures forall c | c in DocsFor(ss[j + 1].docs, d.token) :: c.Cancel?
  {
    RejectStep(ss, es, i, d);
    LaneLeavesDocs(ss, es, i + 1, j);
    assert Step(ss[j], es[j]) == Some(ss[j + 1]);
    RetiredLeavesRest(ss[i].docs, d);
    OneStartRetained(ss, es, i, d);
    WithoutFirstRemovesOne(ss[i].docs[d.token], d);
    OnlyCancels(WithoutFirst(ss[i].docs[d.token], d));
  }

  lemma OneStartRetained(ss: seq<State>, es: seq<Event>, i: nat, d: Doc)
    requires IsRun(ss, es) && i <= |es| && ss[i].owner.Free? && d.Start? && IsRetained(ss[i].docs, d)
    ensures Starts(ss[i].docs[d.token]) == 1
  {
    InvHolds(ss, es, i);
    assert TokenOk(ss[i], d.token);
    StartIsLeased(ss[i], d);
  }

  lemma {:induction false} OnlyCancels(s: seq<Doc>)
    requires Starts(s) == 0
    ensures forall d | d in s :: d.Cancel?
  {
    if s != [] {
      assert s == [s[0]] + s[1..];
      OnlyCancels(s[1..]);
    }
  }

  lemma Extend(ss: seq<State>, es: seq<Event>, e: Event, s: State) returns (longer: seq<State>)
    requires IsRun(ss, es) && Step(ss[|es|], e) == Some(s)
    ensures IsRun(longer, es + [e]) && longer[|es| + 1] == s
  {
    longer := ss + [s];
  }

  /** A run that leaves every valid token with documents and no debt: a Start
      and its Cancel are handed over, then the Start is rejected. */
  lemma DocumentsOutliveDebts(t: Token, body: string, reason: string) returns (ss: seq<State>, es: seq<Event>)
    requires 0 < |t| <= MAX_TASK_TOKEN_BYTES
    ensures IsRun(ss, es) && ss[|es|] == State(map[], None, [], map[t := [Cancel(t, reason)]], Free)
    ensures Orphaned(ss[|es|], t)
  {
    var d, c := Start(t, body), Cancel(t, reason);
    ss, es := HandedOver(t, d, c);
    var s := ss[|es|];
    assert Paid(s.ledger, t) == map[];
    assert WithoutFirst([d, c], d) == [d, c][1..] == [c];
    assert OneRetired(s.docs, d) == map[t := [c]];
    ss := Extend(ss, es, RejectDocument(d), s.(ledger := map[], owner := Retiring(d)));
    es := es + [RejectDocument(d)];
    ss := Extend(ss, es, RetireDocument, State(map[], None, [], map[t := [c]], Free));
    es := es + [RetireDocument];
  }

  lemma HandedOver(t: Token, d: Doc, c: Doc) returns (ss: seq<State>, es: seq<Event>)
    requires 0 < |t| <= MAX_TASK_TOKEN_BYTES && d.Start? && c.Cancel? && d.token == c.token == t
    ensures IsRun(ss, es) && ss[|es|] == State(map[t := Debt(true, true)], None, [], map[t := [d, c]], Free)
  {
    ss, es := [INIT], [];
    assert [d][1..] == [] && [c][1..] == [];
    assert Retained(map[], d) == map[t := [d]] by { assert [] + [d] == [d]; }
    assert Retained(map[t := [d]], c) == map[t := [d, c]] by { assert [d] + [c] == [d, c]; }
    assert map[t := Debt(false, false)][t := Debt(true, false)] == map[t := Debt(true, false)];
    assert map[t := Debt(true, false)][t := Debt(true, true)] == map[t := Debt(true, true)];
    ss, es := OneHandedOver(ss, es, d, map[t := Debt(false, false)], map[t := Debt(true, false)]);
    ss, es := OneHandedOver(ss, es, c, map[t := Debt(true, true)], map[t := Debt(true, true)]);
  }

  lemma OneHandedOver(ss: seq<State>, es: seq<Event>, d: Doc, admitted: Ledger, taken: Ledger)
    returns (longer: seq<State>, after: seq<Event>)
    requires IsRun(ss, es) && ss[|es|].lane.None? && ss[|es|].ready == [] && ss[|es|].owner.Free?
    requires Admitted(ss[|es|].ledger, d) == Some(admitted) && TakeFrom(admitted, [d]) == Handed(d, taken, [])
    ensures IsRun(longer, after)
    ensures longer[|after|] == ss[|es|].(ledger := taken, docs := Retained(ss[|es|].docs, d))
  {
    var s := ss[|es|];
    assert [] + [d] == [d];
    longer := Extend(ss, es, LaneAdmits(d), s.(ledger := admitted, lane := Some(d)));
    after := es + [LaneAdmits(d)];
    longer := Extend(longer, after, LaneQueues, s.(ledger := admitted, ready := [d]));
    after := after + [LaneQueues];
    longer := Extend(longer, after, Take, s.(ledger := taken, owner := Holding(d)));
    after := after + [Take];
    longer := Extend(longer, after, Retain, s.(ledger := taken, docs := Retained(s.docs, d)));
    after := after + [Retain];
  }

  lemma {:induction false} NothingToRemove(s: seq<Doc>, d: Doc)
    requires d !in s
    ensures WithoutFirst(s, d) == s
  {
    if s != [] {
      NothingToRemove(s[1..], d);
      assert s == [s[0]] + s[1..];
    }
  }

  /** The first occurrence is the one that goes. */
  lemma {:induction false} WithoutFirstAt(s: seq<Doc>, d: Doc, i: nat)
    requires i < |s| && s[i] == d && d !in s[..i]
    ensures WithoutFirst(s, d) == s[..i] + s[i + 1..]
  {
    if i > 0 {
      assert s[0] in s[..i] && s[1..][..i - 1] == s[..i][1..];
      WithoutFirstAt(s[1..], d, i - 1);
      assert s[..i] == [s[0]] + s[1..][..i - 1] && s[1..][i..] == s[i + 1..];
    }
  }

  // ---- The code ----

  class LeaseBook {
    var docs: Docs

    constructor ()
      ensures docs == map[]
    {
      docs := map[];
    }

    method Retain(d: Doc)
      modifies this
      ensures docs == Retained(old(docs), d)
      ensures IsRetained(docs, d) && OnlyTokenChanged(old(docs), docs, d.token)
      ensures multiset(docs[d.token]) == multiset(DocsFor(old(docs), d.token)) + multiset{d}
      ensures old(DocsOk(docs)) ==> DocsOk(docs)
    {
      var tasks := if d.token in docs then docs[d.token] else [];
      assert DocsOk(docs) && d.token in docs ==> ListOk(d.token, tasks);
      docs := docs[d.token := tasks + [d]];
    }

    /** `activity_rejection_task`. */
    method FindRejected(d: Doc) returns (status: Option<nat>)
      ensures status == if IsRetained(docs, d) then None else Some(STATUS_PROTOCOL)
    {
      if d.token !in docs {
        return Some(STATUS_PROTOCOL);
      }
      var i := 0;
      while i < |docs[d.token]|
        invariant 0 <= i <= |docs[d.token]| && d !in docs[d.token][..i]
      {
        if docs[d.token][i] == d {
          return None;
        }
        i := i + 1;
      }
      status := Some(STATUS_PROTOCOL);
    }

    method RetireAll(token: Token)
      modifies this
      ensures docs == AllRetired(old(docs), token)
      ensures DocsFor(docs, token) == [] && OnlyTokenChanged(old(docs), docs, token)
      ensures old(DocsOk(docs)) ==> DocsOk(docs)
    {
      docs := map t | t in docs && t != token :: docs[t];
    }

    /** `iter().position` and the removal at that position. */
    static method RemoveFirst(tasks: seq<Doc>, d: Doc) returns (rest: seq<Doc>)
      ensures rest == WithoutFirst(tasks, d)
    {
      var i := 0;
      while i < |tasks| && tasks[i] != d
        invariant 0 <= i <= |tasks| && d !in tasks[..i]
      {
        i := i + 1;
      }
      if i < |tasks| {
        WithoutFirstAt(tasks, d, i);
        rest := tasks[..i] + tasks[i + 1..];
      } else {
        assert tasks[..i] == tasks;
        NothingToRemove(tasks, d);
        rest := tasks;
      }
    }

    method RetireOne(d: Doc)
      modifies this
      ensures docs == OneRetired(old(docs), d)
    {
      if d.token in docs {
        var rest := RemoveFirst(docs[d.token], d);
        docs := docs[d.token := rest];
        if rest == [] {
          RetireAll(d.token);
        }
      }
    }
  }
}
