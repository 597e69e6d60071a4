/** Evaluating licence expressions (scripts/check-cargo-licenses.py), and what a
    verdict means: the disjunctive normal form of the expression. */
module LicensePolicy {
  import opened Common
  import opened LicenseParser

  const ALLOWED_LICENSES := {
    "0BSD", "Apache-2.0", "BSD-2-Clause", "BSD-3-Clause", "CC0-1.0", "CDLA-Permissive-2.0", "ISC", "MIT", "MIT-0",
    "PostgreSQL", "Unicode-3.0", "Unlicense", "Zlib"
  }

  const ALLOWED_WITH_EXCEPTIONS := {"Apache-2.0 WITH LLVM-exception"}

  // ---- Evaluation ----

  /** `evaluate`: whether the expression is allowed, and the reported choice. */
  function Evaluate(n: Node): (bool, string) {
    match n
    case License(value) => (value in ALLOWED_LICENSES, value)
    case With(value, left) =>
      if !left.License? then (false, "invalid WITH operand")
      else
        var expression := left.value + " WITH " + value;
        (expression in ALLOWED_WITH_EXCEPTIONS, expression)
    case And(left, right) =>
      var (la, lc) := Evaluate(left);
      var (ra, rc) := Evaluate(right);
      (la && ra, lc + " AND " + rc)
    case Or(left, right) =>
      var (la, lc) := Evaluate(left);
      if la then (true, lc) else Evaluate(right)
  }

  // ---- The meaning: disjunctive normal form ----

  datatype Term = Single(id: string) | WithException(id: string, exception: string) | BadOperand

  predicate TermAllowed(a: Term) {
    match a
    case Single(id) => id in ALLOWED_LICENSES
    case WithException(id, exception) => id + " WITH " + exception in ALLOWED_WITH_EXCEPTIONS
    case BadOperand => false
  }

  function TermText(a: Term): string {
    match a
    case Single(id) => id
    case WithException(id, exception) => id + " WITH " + exception
    case BadOperand => "invalid WITH operand"
  }

  /** Terms that must all hold. */
  type Clause = c: seq<Term> | |c| > 0 witness [BadOperand]

  predicate ClauseAllowed(clause: Clause) {
    forall i | 0 <= i < |clause| :: TermAllowed(clause[i])
  }

  function ClauseText(clause: Clause): string {
    var n := |clause| - 1;
    if n == 0 then TermText(clause[0]) else ClauseText(clause[..n]) + " AND " + TermText(clause[n])
  }

  /** Every clause of `a` followed by every clause of `b`, in that order. */
  function Product(a: seq<Clause>, b: seq<Clause>): seq<Clause> {
    if a == [] then [] else Prefixed(a[0], b) + Product(a[1..], b)
  }

  function Prefixed(clause: Clause, b: seq<Clause>): seq<Clause> {
    if b == [] then [] else [clause + b[0]] + Prefixed(clause, b[1..])
  }

  /** OR concatenates the alternatives, AND combines them lexicographically. */
  function Dnf(n: Node): seq<Clause> {
    match n
    case License(value) => [[Single(value)]]
    case With(value, left) => if left.License? then [[WithException(left.value, value)]] else [[BadOperand]]
    case And(left, right) => Product(Dnf(left), Dnf(right))
    case Or(left, right) => Dnf(left) + Dnf(right)
  }

  function FirstAllowed(clauses: seq<Clause>): Option<Clause> {
    if clauses == [] then None
    else if ClauseAllowed(clauses[0]) then Some(clauses[0])
    else FirstAllowed(clauses[1..])
  }

  lemma {:induction false} FirstAllowedIsFirst(clauses: seq<Clause>)
    ensures FirstAllowed(clauses).None? ==> forall i | 0 <= i < |clauses| :: !ClauseAllowed(clauses[i])
    ensures FirstAllowed(clauses).Some? ==>
              exists i | 0 <= i < |clauses| ::
                FirstAllowed(clauses) == Some(clauses[i]) && ClauseAllowed(clauses[i])
                && forall j | 0 <= j < i :: !ClauseAllowed(clauses[j])
  {
    if clauses != [] && !ClauseAllowed(clauses[0]) {
      FirstAllowedIsFirst(clauses[1..]);
      if FirstAllowed(clauses).Some? {
        var i :| 0 <= i < |clauses[1..]| && FirstAllowed(clauses) == Some(clauses[1..][i]) && ClauseAllowed(clauses[1..][i])
                 && forall j | 0 <= j < i :: !ClauseAllowed(clauses[1..][j]);
        assert clauses[i + 1] == clauses[1..][i];
        forall j | 0 <= j < i + 1 ensures !ClauseAllowed(clauses[j]) {
          if j > 0 {
            assert clauses[j] == clauses[1..][j - 1];
          }
        }
      } else {
        forall i | 0 <= i < |clauses| ensures !ClauseAllowed(clauses[i]) {
          if i > 0 {
            assert clauses[i] == clauses[1..][i - 1];
          }
        }
      }
    }
  }

  lemma {:induction false} FirstOfConcat(a: seq<Clause>, b: seq<Clause>)
    ensures FirstAllowed(a + b) == if FirstAllowed(a).Some? then FirstAllowed(a) else FirstAllowed(b)
  {
    if a == [] {
      assert a + b == b;
    } else {
      assert (a + b)[1..] == a[1..] + b;
      FirstOfConcat(a[1..], b);
    }
  }

  lemma ConcatAllowed(a: Clause, b: Clause)
    ensures ClauseAllowed(a + b) <==> ClauseAllowed(a) && ClauseAllowed(b)
  {
    if ClauseAllowed(a + b) {
      forall i | 0 <= i < |a| ensures TermAllowed(a[i]) {
        assert (a + b)[i] == a[i];
      }
      forall i | 0 <= i < |b| ensures TermAllowed(b[i]) {
        assert (a + b)[|a| + i] == b[i];
      }
    }
  }

  lemma {:induction false} FirstOfPrefixed(clause: Clause, b: seq<Clause>)
    ensures FirstAllowed(Prefixed(clause, b))
         == if ClauseAllowed(clause) && FirstAllowed(b).Some? then Some(clause + FirstAllowed(b).value) else None
  {
    if b != [] {
      ConcatAllowed(clause, b[0]);
      FirstOfPrefixed(clause, b[1..]);
      assert Prefixed(clause, b)[1..] == Prefixed(clause, b[1..]);
    }
  }

  lemma {:induction false} FirstOfProduct(a: seq<Clause>, b: seq<Clause>)
    ensures FirstAllowed(Product(a, b))
         == if FirstAllowed(a).Some? && FirstAllowed(b).Some? then Some(FirstAllowed(a).value + FirstAllowed(b).value) else None
  {
    if a != [] {
      FirstOfConcat(Prefixed(a[0], b), Product(a[1..], b));
      FirstOfPrefixed(a[0], b);
      FirstOfProduct(a[1..], b);
    }
  }

  lemma JoinAssociates(x: string, y: string, z: string, sep: string)
    ensures (x + sep + y) + sep + z == x + sep + (y + sep + z)
  {
  }

  lemma TextStep(front: Clause, a: Term)
    ensures ClauseText(front + [a]) == ClauseText(front) + " AND " + TermText(a)
  {
    assert (front + [a])[..|front|] == front;
  }

  predicate Joins(a: Clause, b: Clause) {
    ClauseText(a + b) == ClauseText(a) + " AND " + ClauseText(b)
  }

  lemma TextOfOne(a: Clause, b: Clause)
    requires |b| == 1
    ensures Joins(a, b)
  {
    assert b == [b[0]] && ClauseText(b) == TermText(b[0]);
    TextStep(a, b[0]);
  }

  lemma TextOfMore(a: Clause, front: Clause, last: Term, b: Clause)
    requires b == front + [last] && Joins(a, front)
    ensures Joins(a, b)
  {
    assert a + b == (a + front) + [last];
    TextStep(a + front, last);
    TextStep(front, last);
    JoinAssociates(ClauseText(a), ClauseText(front), TermText(last), " AND ");
  }

  lemma {:induction false} TextOfConcat(a: Clause, b: Clause)
    ensures Joins(a, b)
    decreases |b|
  {
    var n := |b| - 1;
    if n == 0 {
      TextOfOne(a, b);
    } else {
      var front: Clause := b[..n];
      TextOfConcat(a, front);
      TextOfMore(a, front, b[n], b);
    }
  }

  /** The short-circuit evaluator refines the normal form: an expression is
      allowed iff some clause of its DNF has only allowed terms, and the choice
      it reports is then the first such clause. */
  lemma {:induction false} EvaluateRefinesDnf(n: Node)
    ensures Evaluate(n).0 <==> FirstAllowed(Dnf(n)).Some?
    ensures Evaluate(n).0 ==> Evaluate(n).1 == ClauseText(FirstAllowed(Dnf(n)).value)
  {
    match n
    case License(value) =>
      assert Dnf(n)[0][0] == Single(value);
    case With(value, left) =>
      assert Dnf(n)[0][0] == if left.License? then WithException(left.value, value) else BadOperand;
    case And(left, right) =>
      EvaluateRefinesDnf(left);
      EvaluateRefinesDnf(right);
      FirstOfProduct(Dnf(left), Dnf(right));
      if Evaluate(n).0 {
        TextOfConcat(FirstAllowed(Dnf(left)).value, FirstAllowed(Dnf(right)).value);
      }
    case Or(left, right) =>
      EvaluateRefinesDnf(left);
      EvaluateRefinesDnf(right);
      FirstOfConcat(Dnf(left), Dnf(right));
  }

  lemma VerdictIsFirstClause(n: Node)
    ensures Evaluate(n).0 <==> exists i | 0 <= i < |Dnf(n)| :: ClauseAllowed(Dnf(n)[i])
    ensures Evaluate(n).0 ==>
              exists i | 0 <= i < |Dnf(n)| ::
                Evaluate(n).1 == ClauseText(Dnf(n)[i]) && ClauseAllowed(Dnf(n)[i])
                && forall j | 0 <= j < i :: !ClauseAllowed(Dnf(n)[j])
  {
    EvaluateRefinesDnf(n);
    FirstAllowedIsFirst(Dnf(n));
  }

  // ---- A choice is itself an expression with the same verdict ----

  function TermTokens(a: Term): seq<Token> {
    match a
    case Single(id) => [id]
    case WithException(id, exception) => [id, "WITH", exception]
    case BadOperand => ["invalid", "WITH", "operand"]
  }

  function ClauseTokens(clause: Clause): seq<Token> {
    var n := |clause| - 1;
    if n == 0 then TermTokens(clause[0]) else ClauseTokens(clause[..n]) + ["AND"] + TermTokens(clause[n])
  }

  function TermDerivation(a: Term): WithExpr {
    match a
    case Single(id) => Plain(Name(id))
    case WithException(id, exception) => Excepted(Name(id), exception)
    case BadOperand => Excepted(Name("invalid"), "operand")
  }

  function ClauseDerivation(clause: Clause): AndExpr {
    var n := |clause| - 1;
    if n == 0 then AndOne(TermDerivation(clause[0])) else AndMore(ClauseDerivation(clause[..n]), TermDerivation(clause[n]))
  }

  lemma {:induction false} InPrefixed(clause: Clause, b: seq<Clause>, c: Clause)
    requires c in b
    ensures clause + c in Prefixed(clause, b)
  {
    if b[0] != c {
      InPrefixed(clause, b[1..], c);
    }
  }

  lemma {:induction false} InProduct(a: seq<Clause>, b: seq<Clause>, x: Clause, y: Clause)
    requires x in a && y in b
    ensures x + y in Product(a, b)
  {
    if a[0] == x {
      InPrefixed(x, b, y);
    } else {
      InProduct(a[1..], b, x, y);
    }
  }

  /** Allowed or not, the reported choice is one clause of the expression; of a
      denied OR it is one of its right side. */
  lemma {:induction false} ChoiceIsAClause(n: Node) returns (clause: Clause)
    ensures clause in Dnf(n) && Evaluate(n).1 == ClauseText(clause)
    ensures n.Or? && !Evaluate(n).0 ==> clause in Dnf(n.right)
  {
    match n
    case License(value) => clause := [Single(value)];
    case With(value, left) => clause := if left.License? then [WithException(left.value, value)] else [BadOperand];
    case And(left, right) =>
      var x := ChoiceIsAClause(left);
      var y := ChoiceIsAClause(right);
      InProduct(Dnf(left), Dnf(right), x, y);
      TextOfConcat(x, y);
      clause := x + y;
    case Or(left, right) =>
      if Evaluate(left).0 {
        clause := ChoiceIsAClause(left);
      } else {
        clause := ChoiceIsAClause(right);
      }
  }

  /** The exception text splits in only one place. */
  lemma OneSplit(id: string, exception: string)
    requires id + " WITH " + exception in ALLOWED_WITH_EXCEPTIONS
    ensures id == "Apache-2.0" && exception == "LLVM-exception"
  {
    var text := "Apache-2.0 WITH LLVM-exception";
    var joined := id + " WITH " + exception;
    var k := |id|;
    assert joined == text && |text| == 30;
    assert joined[k] == ' ' && joined[k + 1] == 'W';
    assert k == 10;
    assert id == joined[..10] == text[..10] == "Apache-2.0";
    assert exception == joined[16..] == text[16..] == "LLVM-exception";
  }

  lemma TermReparses(a: Term)
    requires TermAllowed(a)
    ensures var w := TermDerivation(a);
            WithOk(w) && WithYield(w) == TermTokens(a) && Evaluate(WithTree(w)) == (true, TermText(a))
  {
    match a
    case Single(id) => AllowedIsIdent(id);
    case WithException(id, exception) => OneSplit(id, exception);
  }

  lemma AllowedIsIdent(id: string)
    requires id in ALLOWED_LICENSES
    ensures Ident(id)
  {
  }

  lemma {:induction false} ClauseReparses(clause: Clause)
    requires ClauseAllowed(clause)
    ensures AndOk(ClauseDerivation(clause)) && AndYield(ClauseDerivation(clause)) == ClauseTokens(clause)
    ensures Evaluate(AndTree(ClauseDerivation(clause))) == (true, ClauseText(clause))
  {
    var n := |clause| - 1;
    TermReparses(clause[n]);
    if n > 0 {
      ClauseReparses(clause[..n]);
    }
  }
}
