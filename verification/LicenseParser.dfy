/** The licence-expression parser of scripts/check-cargo-licenses.py: the class
    with its mutable position, the function it computes, and the grammar (Annex
    D of SPDX Specification 2.3, operator precedence of D.4.5) it accepts. */
module LicenseParser {
  type Token = string

  datatype Node =
    | License(value: Token)
    | With(value: Token, left: Node)
    | And(left: Node, right: Node)
    | Or(left: Node, right: Node)

  datatype Error = UnexpectedEnd | UnexpectedToken(token: Token) | ExpectedException | ExpectedClosing

  datatype Parsed = Tree(node: Node, next: nat) | Failed(error: Error)

  predicate Ident(t: Token) {
    t !in {"AND", "OR", "WITH", "(", ")"}
  }

  predicate TokenAt(ts: seq<Token>, p: nat, t: Token) {
    p < |ts| && ts[p] == t
  }

  // ---- What the parser computes from position `p` ----

  function ParsePrimary(ts: seq<Token>, p: nat): (r: Parsed)
    ensures r.Tree? ==> p < r.next <= |ts|
    decreases |ts| - p, 0
  {
    if p >= |ts| then Failed(UnexpectedEnd)
    else if ts[p] == "(" then
      match ParseOr(ts, p + 1)
      case Failed(error) => Failed(error)
      case Tree(node, q) =>
        if q >= |ts| then Failed(UnexpectedEnd)
        else if ts[q] != ")" then Failed(ExpectedClosing)
        else Tree(node, q + 1)
    else if !Ident(ts[p]) then Failed(UnexpectedToken(ts[p]))
    else Tree(License(ts[p]), p + 1)
  }

  function ParseWith(ts: seq<Token>, p: nat): (r: Parsed)
    ensures r.Tree? ==> p < r.next <= |ts|
    decreases |ts| - p, 1
  {
    match ParsePrimary(ts, p)
    case Failed(error) => Failed(error)
    case Tree(node, q) =>
      if !TokenAt(ts, q, "WITH") then Tree(node, q)
      else if q + 1 >= |ts| then Failed(UnexpectedEnd)
      else if !Ident(ts[q + 1]) then Failed(ExpectedException)
      else Tree(With(ts[q + 1], node), q + 2)
  }

  function ParseAnd(ts: seq<Token>, p: nat): (r: Parsed)
    ensures r.Tree? ==> p < r.next <= |ts|
    decreases |ts| - p, 3
  {
    match ParseWith(ts, p)
    case Failed(error) => Failed(error)
    case Tree(node, q) => AndLoop(ts, q, node)
  }

  function AndLoop(ts: seq<Token>, p: nat, node: Node): (r: Parsed)
    requires p <= |ts|
    ensures r.Tree? ==> p <= r.next <= |ts|
    decreases |ts| - p, 2
  {
    if !TokenAt(ts, p, "AND") then Tree(node, p)
    else
      match ParseWith(ts, p + 1)
      case Failed(error) => Failed(error)
      case Tree(right, q) => AndLoop(ts, q, And(node, right))
  }

  function ParseOr(ts: seq<Token>, p: nat): (r: Parsed)
    ensures r.Tree? ==> p < r.next <= |ts|
    decreases |ts| - p, 5
  {
    match ParseAnd(ts, p)
    case Failed(error) => Failed(error)
    case Tree(node, q) => OrLoop(ts, q, node)
  }

  function OrLoop(ts: seq<Token>, p: nat, node: Node): (r: Parsed)
    requires p <= |ts|
    ensures r.Tree? ==> p <= r.next <= |ts|
    decreases |ts| - p, 4
  {
    if !TokenAt(ts, p, "OR") then Tree(node, p)
    else
      match ParseAnd(ts, p + 1)
      case Failed(error) => Failed(error)
      case Tree(right, q) => OrLoop(ts, q, Or(node, right))
  }

  /** A whole expression: nothing may follow it. */
  function Parse(ts: seq<Token>): Parsed {
    match ParseOr(ts, 0)
    case Failed(error) => Failed(error)
    case Tree(node, q) => if q != |ts| then Failed(UnexpectedToken(ts[q])) else Tree(node, q)
  }

  // ---- The code ----

  class Parser {
    const tokens: seq<Token>
    var position: nat

    constructor (tokens: seq<Token>)
      ensures this.tokens == tokens && position == 0
    {
      this.tokens := tokens;
      position := 0;
    }

    /** The tree, or the failure, and on success the position reached. */
    ghost predicate Yields(r: Parsed, spec: Parsed)
      reads this
    {
      position <= |tokens|
      && (if spec.Tree? then r == Tree(spec.node, position) && spec.next == position else r == spec)
    }

    method ParseAll() returns (r: Parsed)
      requires position == 0
      modifies this
      ensures r == Parse(tokens)
    {
      r := ParseOrMethod();
      if r.Tree? && position != |tokens| {
        r := Failed(UnexpectedToken(tokens[position]));
      }
    }

    method ParseOrMethod() returns (r: Parsed)
      requires position <= |tokens|
      modifies this
      ensures Yields(r, ParseOr(tokens, old(position)))
      decreases |tokens| - position, 5
    {
      var start := position;
      r := ParseAndMethod();
      if r.Failed? {
        return;
      }
      while position < |tokens| && tokens[position] == "OR"
        invariant start < position <= |tokens|
        invariant r.Tree? && r.next == position
        invariant ParseOr(tokens, start) == OrLoop(tokens, position, r.node)
        decreases |tokens| - position
      {
        position := position + 1;
        var right := ParseAndMethod();
        if right.Failed? {
          r := right;
          return;
        }
        r := Tree(Or(r.node, right.node), position);
      }
    }

    method ParseAndMethod() returns (r: Parsed)
      requires position <= |tokens|
      modifies this
      ensures Yields(r, ParseAnd(tokens, old(position)))
      decreases |tokens| - position, 3
    {
      var start := position;
      r := ParseWithMethod();
      if r.Failed? {
        return;
      }
      while position < |tokens| && tokens[position] == "AND"
        invariant start < position <= |tokens|
        invariant r.Tree? && r.next == position
        invariant ParseAnd(tokens, start) == AndLoop(tokens, position, r.node)
        decreases |tokens| - position
      {
        position := position + 1;
        var right := ParseWithMethod();
        if right.Failed? {
          r := right;
          return;
        }
        r := Tree(And(r.node, right.node), position);
      }
    }

    method ParseWithMethod() returns (r: Parsed)
      requires position <= |tokens|
      modifies this
      ensures Yields(r, ParseWith(tokens, old(position)))
      decreases |tokens| - position, 1
    {
      r := ParsePrimaryMethod();
      if r.Failed? {
        return;
      }
      if position < |tokens| && tokens[position] == "WITH" {
        position := position + 1;
        if position == |tokens| {
          return Failed(UnexpectedEnd);
        }
        var exception := tokens[position];
        position := position + 1;
        if exception in {"AND", "OR", "WITH", "(", ")"} {
          return Failed(ExpectedException);
        }
        r := Tree(With(exception, r.node), position);
      }
    }

    method ParsePrimaryMethod() returns (r: Parsed)
      requires position <= |tokens|
      modifies this
      ensures Yields(r, ParsePrimary(tokens, old(position)))
      decreases |tokens| - position, 0
    {
      if position == |tokens| {
        return Failed(UnexpectedEnd);
      }
      var token := tokens[position];
      position := position + 1;
      if token == "(" {
        r := ParseOrMethod();
        if r.Failed? {
          return;
        }
        if position == |tokens| {
          return Failed(UnexpectedEnd);
        }
        var closing := tokens[position];
        position := position + 1;
        if closing != ")" {
          return Failed(ExpectedClosing);
        }
        return Tree(r.node, position);
      }
      if token in {"AND", "OR", "WITH", ")"} {
        return Failed(UnexpectedToken(token));
      }
      return Tree(License(token), position);
    }
  }

  // ---- The grammar ----

  datatype OrExpr = OrOne(and: AndExpr) | OrMore(left: OrExpr, and: AndExpr)
  datatype AndExpr = AndOne(with: WithExpr) | AndMore(left: AndExpr, with: WithExpr)
  datatype WithExpr = Plain(primary: Primary) | Excepted(primary: Primary, exception: Token)
  datatype Primary = Name(token: Token) | Group(inner: OrExpr)

  predicate OrOk(x: OrExpr) {
    match x case OrOne(a) => AndOk(a) case OrMore(l, a) => OrOk(l) && AndOk(a)
  }

  predicate AndOk(x: AndExpr) {
    match x case AndOne(w) => WithOk(w) case AndMore(l, w) => AndOk(l) && WithOk(w)
  }

  predicate WithOk(x: WithExpr) {
    match x case Plain(p) => PrimaryOk(p) case Excepted(p, t) => PrimaryOk(p) && Ident(t)
  }

  predicate PrimaryOk(x: Primary) {
    match x case Name(t) => Ident(t) case Group(inner) => OrOk(inner)
  }

  /** The tokens a derivation spells. */
  function OrYield(x: OrExpr): (r: seq<Token>)
    ensures r != []
  {
    match x case OrOne(a) => AndYield(a) case OrMore(l, a) => OrYield(l) + ["OR"] + AndYield(a)
  }

  function AndYield(x: AndExpr): (r: seq<Token>)
    ensures r != []
  {
    match x case AndOne(w) => WithYield(w) case AndMore(l, w) => AndYield(l) + ["AND"] + WithYield(w)
  }

  function WithYield(x: WithExpr): (r: seq<Token>)
    ensures r != []
  {
    match x case Plain(p) => PrimaryYield(p) case Excepted(p, t) => PrimaryYield(p) + ["WITH", t]
  }

  function PrimaryYield(x: Primary): (r: seq<Token>)
    ensures r != []
  {
    match x case Name(t) => [t] case Group(inner) => ["("] + OrYield(inner) + [")"]
  }

  /** The left-associated tree of a derivation; parentheses leave no node. */
  function OrTree(x: OrExpr): Node {
    match x case OrOne(a) => AndTree(a) case OrMore(l, a) => Or(OrTree(l), AndTree(a))
  }

  function AndTree(x: AndExpr): Node {
    match x case AndOne(w) => WithTree(w) case AndMore(l, w) => And(AndTree(l), WithTree(w))
  }

  function WithTree(x: WithExpr): Node {
    match x case Plain(p) => PrimaryTree(p) case Excepted(p, t) => With(t, PrimaryTree(p))
  }

  function PrimaryTree(x: Primary): Node {
    match x case Name(t) => License(t) case Group(inner) => OrTree(inner)
  }

  /** `x` is spelled at position `p`. */
  predicate Spells(ts: seq<Token>, p: nat, word: seq<Token>) {
    p + |word| <= |ts| && ts[p..p + |word|] == word
  }

  lemma SpellsParts(ts: seq<Token>, p: nat, a: seq<Token>, b: seq<Token>)
    requires Spells(ts, p, a + b)
    ensures Spells(ts, p, a) && Spells(ts, p + |a|, b)
  {
    assert ts[p..p + |a|] == (a + b)[..|a|] == a;
    assert ts[p + |a|..p + |a| + |b|] == (a + b)[|a|..] == b;
  }

  lemma SpellsJoin(ts: seq<Token>, p: nat, a: seq<Token>, b: seq<Token>)
    requires Spells(ts, p, a) && Spells(ts, p + |a|, b)
    ensures Spells(ts, p, a + b)
  {
    assert ts[p..p + |a| + |b|] == ts[p..p + |a|] + ts[p + |a|..p + |a| + |b|];
  }

  /** Two words with an operator between them. */
  lemma OperatorParts(ts: seq<Token>, p: nat, a: seq<Token>, operator: Token, b: seq<Token>)
    requires Spells(ts, p, a + [operator] + b)
    ensures Spells(ts, p, a) && TokenAt(ts, p + |a|, operator) && Spells(ts, p + |a| + 1, b)
  {
    assert a + [operator] + b == a + ([operator] + b);
    SpellsParts(ts, p, a, [operator] + b);
    SpellsParts(ts, p + |a|, [operator], b);
    assert ts[p + |a|] == ts[p + |a|..p + |a| + 1][0];
  }

  lemma OperatorJoin(ts: seq<Token>, p: nat, a: seq<Token>, operator: Token, b: seq<Token>)
    requires Spells(ts, p, a) && TokenAt(ts, p + |a|, operator) && Spells(ts, p + |a| + 1, b)
    ensures Spells(ts, p, a + [operator] + b)
  {
    assert Spells(ts, p + |a|, [operator]);
    SpellsJoin(ts, p, a, [operator]);
    SpellsJoin(ts, p, a + [operator], b);
  }

  // ---- Completeness: every derivation is parsed to its tree ----

  lemma {:induction false} PrimaryComplete(ts: seq<Token>, p: nat, x: Primary)
    requires PrimaryOk(x) && Spells(ts, p, PrimaryYield(x))
    ensures ParsePrimary(ts, p) == Tree(PrimaryTree(x), p + |PrimaryYield(x)|)
    decreases x, 0
  {
    match x
    case Name(t) => assert ts[p] == ts[p..p + 1][0];
    case Group(inner) =>
      assert PrimaryYield(x) == ["("] + (OrYield(inner) + [")"]);
      SpellsParts(ts, p, ["("], OrYield(inner) + [")"]);
      SpellsParts(ts, p + 1, OrYield(inner), [")"]);
      var q := p + 1 + |OrYield(inner)|;
      assert ts[p] == ts[p..p + 1][0] == "(" && ts[q] == ts[q..q + 1][0] == ")";
      OrComplete(ts, p + 1, inner);
  }

  lemma {:induction false} WithComplete(ts: seq<Token>, p: nat, x: WithExpr)
    requires WithOk(x) && Spells(ts, p, WithYield(x)) && !TokenAt(ts, p + |WithYield(x)|, "WITH")
    ensures ParseWith(ts, p) == Tree(WithTree(x), p + |WithYield(x)|)
    decreases x, 1
  {
    match x
    case Plain(primary) => PrimaryComplete(ts, p, primary);
    case Excepted(primary, t) =>
      SpellsParts(ts, p, PrimaryYield(primary), ["WITH", t]);
      PrimaryComplete(ts, p, primary);
      var q := p + |PrimaryYield(primary)|;
      assert ts[q] == ts[q..q + 2][0] == "WITH" && ts[q + 1] == ts[q..q + 2][1] == t;
  }

  lemma AndLoopStep(ts: seq<Token>, p: nat, node: Node, right: Node, q: nat)
    requires p < q <= |ts| && TokenAt(ts, p, "AND") && ParseWith(ts, p + 1) == Tree(right, q)
    ensures AndLoop(ts, p, node) == AndLoop(ts, q, And(node, right))
  {
  }

  lemma OrLoopStep(ts: seq<Token>, p: nat, node: Node, right: Node, q: nat)
    requires p < q <= |ts| && TokenAt(ts, p, "OR") && ParseAnd(ts, p + 1) == AndLoop(ts, q, right) && !TokenAt(ts, q, "AND")
    ensures OrLoop(ts, p, node) == OrLoop(ts, q, Or(node, right))
  {
  }

  lemma {:induction false} AndReaches(ts: seq<Token>, p: nat, x: AndExpr)
    requires AndOk(x) && Spells(ts, p, AndYield(x)) && !TokenAt(ts, p + |AndYield(x)|, "WITH")
    ensures ParseAnd(ts, p) == AndLoop(ts, p + |AndYield(x)|, AndTree(x))
    decreases x, 2
  {
    match x
    case AndOne(w) => WithComplete(ts, p, w);
    case AndMore(l, w) =>
      OperatorParts(ts, p, AndYield(l), "AND", WithYield(w));
      AndReaches(ts, p, l);
      WithComplete(ts, p + |AndYield(l)| + 1, w);
      AndLoopStep(ts, p + |AndYield(l)|, AndTree(l), WithTree(w), p + |AndYield(x)|);
  }

  lemma {:induction false} OrReaches(ts: seq<Token>, p: nat, x: OrExpr)
    requires OrOk(x) && Spells(ts, p, OrYield(x))
    requires !TokenAt(ts, p + |OrYield(x)|, "WITH") && !TokenAt(ts, p + |OrYield(x)|, "AND")
    ensures ParseOr(ts, p) == OrLoop(ts, p + |OrYield(x)|, OrTree(x))
    decreases x, 3
  {
    match x
    case OrOne(a) => AndReaches(ts, p, a);
    case OrMore(l, a) =>
      OperatorParts(ts, p, OrYield(l), "OR", AndYield(a));
      OrReaches(ts, p, l);
      AndReaches(ts, p + |OrYield(l)| + 1, a);
      OrLoopStep(ts, p + |OrYield(l)|, OrTree(l), AndTree(a), p + |OrYield(x)|);
  }

  lemma {:induction false} OrComplete(ts: seq<Token>, p: nat, x: OrExpr)
    requires OrOk(x) && Spells(ts, p, OrYield(x))
    requires !TokenAt(ts, p + |OrYield(x)|, "OR") && !TokenAt(ts, p + |OrYield(x)|, "AND")
    requires !TokenAt(ts, p + |OrYield(x)|, "WITH")
    ensures ParseOr(ts, p) == Tree(OrTree(x), p + |OrYield(x)|)
    decreases x, 4
  {
    OrReaches(ts, p, x);
  }

  // ---- Soundness: every parse has a derivation ----

  lemma {:induction false} PrimarySound(ts: seq<Token>, p: nat) returns (x: Primary)
    requires ParsePrimary(ts, p).Tree?
    ensures PrimaryOk(x) && ParsePrimary(ts, p) == Tree(PrimaryTree(x), p + |PrimaryYield(x)|)
    ensures Spells(ts, p, PrimaryYield(x))
    decreases |ts| - p, 0
  {
    if ts[p] == "(" {
      var inner := OrSound(ts, p + 1);
      x := Group(inner);
      SpellsJoin(ts, p, ["("], OrYield(inner));
      SpellsJoin(ts, p, ["("] + OrYield(inner), [")"]);
    } else {
      x := Name(ts[p]);
    }
  }

  lemma {:induction false} WithSound(ts: seq<Token>, p: nat) returns (x: WithExpr)
    requires ParseWith(ts, p).Tree?
    ensures WithOk(x) && ParseWith(ts, p) == Tree(WithTree(x), p + |WithYield(x)|)
    ensures Spells(ts, p, WithYield(x))
    decreases |ts| - p, 1
  {
    var primary := PrimarySound(ts, p);
    var q := p + |PrimaryYield(primary)|;
    if TokenAt(ts, q, "WITH") {
      x := Excepted(primary, ts[q + 1]);
      assert Spells(ts, q, ["WITH", ts[q + 1]]);
      SpellsJoin(ts, p, PrimaryYield(primary), ["WITH", ts[q + 1]]);
    } else {
      x := Plain(primary);
    }
  }

  lemma {:induction false} AndSound(ts: seq<Token>, p: nat) returns (x: AndExpr)
    requires ParseAnd(ts, p).Tree?
    ensures AndOk(x) && ParseAnd(ts, p) == Tree(AndTree(x), p + |AndYield(x)|)
    ensures Spells(ts, p, AndYield(x))
    decreases |ts| - p, 3
  {
    var w := WithSound(ts, p);
    x := AndGrow(ts, p, AndOne(w), ParseAnd(ts, p));
  }

  lemma AndMoreSpells(ts: seq<Token>, p: nat, x: AndExpr, w: WithExpr)
    requires AndOk(x) && WithOk(w) && Spells(ts, p, AndYield(x)) && TokenAt(ts, p + |AndYield(x)|, "AND")
    requires Spells(ts, p + |AndYield(x)| + 1, WithYield(w))
    ensures AndOk(AndMore(x, w)) && Spells(ts, p, AndYield(AndMore(x, w)))
    ensures |AndYield(AndMore(x, w))| == |AndYield(x)| + 1 + |WithYield(w)|
  {
    OperatorJoin(ts, p, AndYield(x), "AND", WithYield(w));
  }

  lemma {:induction false} AndGrow(ts: seq<Token>, p: nat, x: AndExpr, r: Parsed) returns (y: AndExpr)
    requires AndOk(x) && Spells(ts, p, AndYield(x)) && r == AndLoop(ts, p + |AndYield(x)|, AndTree(x)) && r.Tree?
    ensures AndOk(y) && r == Tree(AndTree(y), p + |AndYield(y)|)
    ensures Spells(ts, p, AndYield(y))
    decreases |ts| - p, 2, |ts| - |AndYield(x)|
  {
    var q := p + |AndYield(x)|;
    if TokenAt(ts, q, "AND") {
      var w := WithSound(ts, q + 1);
      AndMoreSpells(ts, p, x, w);
      AndLoopStep(ts, q, AndTree(x), WithTree(w), q + 1 + |WithYield(w)|);
      y := AndGrow(ts, p, AndMore(x, w), r);
    } else {
      y := x;
    }
  }

  lemma {:induction false} OrSound(ts: seq<Token>, p: nat) returns (x: OrExpr)
    requires ParseOr(ts, p).Tree?
    ensures OrOk(x) && ParseOr(ts, p) == Tree(OrTree(x), p + |OrYield(x)|)
    ensures Spells(ts, p, OrYield(x))
    decreases |ts| - p, 5
  {
    var a := AndSound(ts, p);
    x := OrGrow(ts, p, OrOne(a), ParseOr(ts, p));
  }

  lemma OrMoreSpells(ts: seq<Token>, p: nat, x: OrExpr, a: AndExpr)
    requires OrOk(x) && AndOk(a) && Spells(ts, p, OrYield(x)) && TokenAt(ts, p + |OrYield(x)|, "OR")
    requires Spells(ts, p + |OrYield(x)| + 1, AndYield(a))
    ensures OrOk(OrMore(x, a)) && Spells(ts, p, OrYield(OrMore(x, a)))
    ensures |OrYield(OrMore(x, a))| == |OrYield(x)| + 1 + |AndYield(a)|
  {
    OperatorJoin(ts, p, OrYield(x), "OR", AndYield(a));
  }

  lemma {:induction false} OrGrow(ts: seq<Token>, p: nat, x: OrExpr, r: Parsed) returns (y: OrExpr)
    requires OrOk(x) && Spells(ts, p, OrYield(x)) && r == OrLoop(ts, p + |OrYield(x)|, OrTree(x)) && r.Tree?
    ensures OrOk(y) && r == Tree(OrTree(y), p + |OrYield(y)|)
    ensures Spells(ts, p, OrYield(y))
    decreases |ts| - p, 4, |ts| - |OrYield(x)|
  {
    var q := p + |OrYield(x)|;
    if TokenAt(ts, q, "OR") {
      var a := AndSound(ts, q + 1);
      OrMoreSpells(ts, p, x, a);
      y := OrGrow(ts, p, OrMore(x, a), r);
    } else {
      y := x;
    }
  }

  /** The parser accepts exactly the language of the grammar and returns the
      left-associated tree, for every token sequence and every tree. */
  lemma ParsesExactlyTheGrammar(ts: seq<Token>, node: Node)
    ensures Parse(ts) == Tree(node, |ts|) <==> exists x: OrExpr :: OrOk(x) && OrYield(x) == ts && OrTree(x) == node
  {
    if Parse(ts) == Tree(node, |ts|) {
      var x := OrSound(ts, 0);
      assert OrYield(x) == ts[..|ts|] == ts;
    }
    forall x: OrExpr | OrOk(x) && OrYield(x) == ts && OrTree(x) == node ensures Parse(ts) == Tree(node, |ts|) {
      assert ts[0..|ts|] == ts;
      OrComplete(ts, 0, x);
    }
  }

  /** The grammar is unambiguous as far as trees go. */
  lemma GrammarIsUnambiguous(x: OrExpr, y: OrExpr)
    requires OrOk(x) && OrOk(y) && OrYield(x) == OrYield(y)
    ensures OrTree(x) == OrTree(y)
  {
    ParsesExactlyTheGrammar(OrYield(x), OrTree(x));
    ParsesExactlyTheGrammar(OrYield(x), OrTree(y));
  }

  // ---- A printer that the parser inverts ----

  predicate NodeOk(n: Node) {
    match n
    case License(t) => Ident(t)
    case With(t, l) => Ident(t) && NodeOk(l)
    case And(l, r) => NodeOk(l) && NodeOk(r)
    case Or(l, r) => NodeOk(l) && NodeOk(r)
  }

  function Print(n: Node): seq<Token>
    decreases n, 0
  {
    match n
    case License(t) => [t]
    case With(t, l) => Enclose(l) + ["WITH", t]
    case And(l, r) => Enclose(l) + ["AND"] + Enclose(r)
    case Or(l, r) => Enclose(l) + ["OR"] + Enclose(r)
  }

  function Enclose(n: Node): seq<Token>
    decreases n, 1
  {
    if n.License? then [n.value] else ["("] + Print(n) + [")"]
  }

  function Derivation(n: Node): OrExpr
    decreases n, 0
  {
    match n
    case License(t) => OrOne(AndOne(Plain(Name(t))))
    case With(t, l) => OrOne(AndOne(Excepted(Atom(l), t)))
    case And(l, r) => OrOne(AndMore(AndOne(Plain(Atom(l))), Plain(Atom(r))))
    case Or(l, r) => OrMore(OrOne(AndOne(Plain(Atom(l)))), AndOne(Plain(Atom(r))))
  }

  function Atom(n: Node): Primary
    decreases n, 1
  {
    if n.License? then Name(n.value) else Group(Derivation(n))
  }

  lemma {:induction false} AtomSpellsEnclose(n: Node)
    requires NodeOk(n)
    ensures PrimaryOk(Atom(n)) && PrimaryYield(Atom(n)) == Enclose(n) && PrimaryTree(Atom(n)) == n
    decreases n, 1
  {
    if !n.License? {
      DerivationSpellsPrint(n);
    }
  }

  /** A with-expression is an and- and an or-expression as it stands. */
  lemma LiftWith(w: WithExpr)
    ensures AndOk(AndOne(w)) == WithOk(w) && AndYield(AndOne(w)) == WithYield(w) && AndTree(AndOne(w)) == WithTree(w)
    ensures OrOk(OrOne(AndOne(w))) == WithOk(w) && OrYield(OrOne(AndOne(w))) == WithYield(w)
            && OrTree(OrOne(AndOne(w))) == WithTree(w)
  {
  }

  lemma {:induction false} DerivationSpellsPrint(n: Node)
    requires NodeOk(n)
    ensures OrOk(Derivation(n)) && OrYield(Derivation(n)) == Print(n) && OrTree(Derivation(n)) == n
    decreases n, 0
  {
    match n
    case License(t) => LiftWith(Plain(Name(t)));
    case With(t, l) =>
      AtomSpellsEnclose(l);
      LiftWith(Excepted(Atom(l), t));
    case And(l, r) =>
      AtomSpellsEnclose(l);
      AtomSpellsEnclose(r);
      LiftWith(Plain(Atom(l)));
      assert WithYield(Plain(Atom(r))) == Enclose(r) && WithTree(Plain(Atom(r))) == r;
      var and := AndMore(AndOne(Plain(Atom(l))), Plain(Atom(r)));
      assert AndOk(and) && AndYield(and) == Print(n) && AndTree(and) == n;
    case Or(l, r) =>
      AtomSpellsEnclose(l);
      AtomSpellsEnclose(r);
      LiftWith(Plain(Atom(l)));
      LiftWith(Plain(Atom(r)));
  }

  /** Printing and parsing: every tree of identifiers comes back. */
  lemma ParseInvertsPrint(n: Node)
    requires NodeOk(n)
    ensures Parse(Print(n)) == Tree(n, |Print(n)|)
  {
    DerivationSpellsPrint(n);
    ParsesExactlyTheGrammar(Print(n), n);
  }

  /** Every parsed tree is a tree of identifiers, so printing it is safe. */
  lemma {:induction false} ParsedIsOk(ts: seq<Token>)
    requires Parse(ts).Tree?
    ensures NodeOk(Parse(ts).node) && Parse(Print(Parse(ts).node)).Tree? && Parse(Print(Parse(ts).node)).node == Parse(ts).node
  {
    var x := OrSound(ts, 0);
    OrTreeOk(x);
    ParseInvertsPrint(Parse(ts).node);
  }

  lemma {:induction false} OrTreeOk(x: OrExpr)
    requires OrOk(x)
    ensures NodeOk(OrTree(x))
    decreases x, 1
  {
    if x.OrMore? {
      OrTreeOk(x.left);
    }
    AndTreeOk(x.and);
  }

  lemma {:induction false} AndTreeOk(x: AndExpr)
    requires AndOk(x)
    ensures NodeOk(AndTree(x))
    decreases x, 1
  {
    if x.AndMore? {
      AndTreeOk(x.left);
    }
    WithTreeOk(x.with);
  }

  lemma {:induction false} WithTreeOk(x: WithExpr)
    requires WithOk(x)
    ensures NodeOk(WithTree(x))
    decreases x, 1
  {
    match x.primary
    case Name(_) =>
    case Group(inner) => OrTreeOk(inner);
  }
}
