/** What the errors of the licence-expression parser mean: an expression that
    "ends unexpectedly" is exactly one that could still be completed, and every
    other error is final. */
module LicenseErrors {
  import opened LicenseParser

  predicate AtOperator(ts: seq<Token>, p: nat) {
    TokenAt(ts, p, "WITH") || TokenAt(ts, p, "AND") || TokenAt(ts, p, "OR")
  }

  /** The result stays when tokens are added: an error other than the end, or a
      tree that the added tokens do not continue. */
  predicate Settled(ts: seq<Token>, ext: seq<Token>, r: Parsed) {
    match r
    case Failed(error) => error != UnexpectedEnd
    case Tree(_, q) => q < |ts| || !AtOperator(ts + ext, q)
  }

  lemma SameToken(ts: seq<Token>, ext: seq<Token>, p: nat, t: Token)
    requires p < |ts|
    ensures TokenAt(ts + ext, p, t) <==> TokenAt(ts, p, t)
  {
  }

  // ---- Adding tokens ----

  lemma {:induction false} PrimaryExtends(ts: seq<Token>, ext: seq<Token>, p: nat)
    requires p <= |ts| && ParsePrimary(ts, p) != Failed(UnexpectedEnd)
    ensures ParsePrimary(ts + ext, p) == ParsePrimary(ts, p)
    decreases |ts| - p, 0
  {
    assert (ts + ext)[p] == ts[p];
    if ts[p] == "(" {
      var r := ParseOr(ts, p + 1);
      if r.Failed? || r.next < |ts| {
        OrExtends(ts, ext, p + 1);
      }
    }
  }

  lemma {:induction false} WithExtends(ts: seq<Token>, ext: seq<Token>, p: nat)
    requires p <= |ts| && Settled(ts, ext, ParseWith(ts, p))
    ensures ParseWith(ts + ext, p) == ParseWith(ts, p)
    decreases |ts| - p, 1
  {
    PrimaryExtends(ts, ext, p);
    var r := ParsePrimary(ts, p);
    if r.Tree? && r.next < |ts| {
      SameToken(ts, ext, r.next, "WITH");
      if r.next + 1 < |ts| {
        assert (ts + ext)[r.next + 1] == ts[r.next + 1];
      }
    }
  }

  lemma {:induction false} AndExtends(ts: seq<Token>, ext: seq<Token>, p: nat)
    requires p <= |ts| && Settled(ts, ext, ParseAnd(ts, p))
    ensures ParseAnd(ts + ext, p) == ParseAnd(ts, p)
    decreases |ts| - p, 3
  {
    var r := ParseWith(ts, p);
    assert r.Tree? && r.next == |ts| ==> AndLoop(ts, r.next, r.node) == r;
    WithExtends(ts, ext, p);
    if r.Tree? {
      AndLoopExtends(ts, ext, r.next, r.node);
    }
  }

  lemma {:induction false} AndLoopExtends(ts: seq<Token>, ext: seq<Token>, p: nat, node: Node)
    requires p <= |ts| && Settled(ts, ext, AndLoop(ts, p, node))
    ensures AndLoop(ts + ext, p, node) == AndLoop(ts, p, node)
    decreases |ts| - p, 2
  {
    if p < |ts| {
      SameToken(ts, ext, p, "AND");
      if TokenAt(ts, p, "AND") {
        var r := ParseWith(ts, p + 1);
        assert r.Tree? && r.next == |ts| ==> AndLoop(ts, r.next, And(node, r.node)) == Tree(And(node, r.node), r.next);
        WithExtends(ts, ext, p + 1);
        if r.Tree? {
          AndLoopExtends(ts, ext, r.next, And(node, r.node));
        }
      }
    }
  }

  lemma {:induction false} OrExtends(ts: seq<Token>, ext: seq<Token>, p: nat)
    requires p <= |ts| && Settled(ts, ext, ParseOr(ts, p))
    ensures ParseOr(ts + ext, p) == ParseOr(ts, p)
    decreases |ts| - p, 5
  {
    var r := ParseAnd(ts, p);
    assert r.Tree? && r.next == |ts| ==> OrLoop(ts, r.next, r.node) == r;
    AndExtends(ts, ext, p);
    if r.Tree? {
      OrLoopExtends(ts, ext, r.next, r.node);
    }
  }

  lemma {:induction false} OrLoopExtends(ts: seq<Token>, ext: seq<Token>, p: nat, node: Node)
    requires p <= |ts| && Settled(ts, ext, OrLoop(ts, p, node))
    ensures OrLoop(ts + ext, p, node) == OrLoop(ts, p, node)
    decreases |ts| - p, 4
  {
    if p < |ts| {
      SameToken(ts, ext, p, "OR");
      if TokenAt(ts, p, "OR") {
        var r := ParseAnd(ts, p + 1);
        assert r.Tree? && r.next == |ts| ==> OrLoop(ts, r.next, Or(node, r.node)) == Tree(Or(node, r.node), r.next);
        AndExtends(ts, ext, p + 1);
        if r.Tree? {
          OrLoopExtends(ts, ext, r.next, Or(node, r.node));
        }
      }
    }
  }

  /** Every error but the unexpected end is final: no tokens can mend it. */
  lemma OtherErrorsAreFinal(ts: seq<Token>, ext: seq<Token>)
    requires Parse(ts).Failed? && Parse(ts).error != UnexpectedEnd
    ensures Parse(ts + ext) == Parse(ts)
  {
    OrExtends(ts, ext, 0);
    var r := ParseOr(ts, 0);
    if r.Tree? {
      assert (ts + ext)[r.next] == ts[r.next];
    }
  }

  // ---- Completing what ended too early ----

  /** The parse reaches the end of the tokens. */
  predicate Whole(r: Parsed, ts: seq<Token>) {
    r.Tree? && r.next == |ts|
  }

  lemma {:induction false} PrimaryCompletes(ts: seq<Token>, p: nat) returns (ext: seq<Token>)
    requires p <= |ts| && ParsePrimary(ts, p) == Failed(UnexpectedEnd)
    ensures Whole(ParsePrimary(ts + ext, p), ts + ext)
    decreases |ts| - p, 0
  {
    if p == |ts| {
      ext := ["MIT"];
      assert (ts + ext)[p] == "MIT";
    } else {
      var inner: seq<Token> := [];
      if ParseOr(ts, p + 1).Failed? {
        inner := OrCompletes(ts, p + 1);
      } else {
        assert ts + [] == ts;
      }
      ext := inner + [")"];
      assert ts + ext == (ts + inner) + [")"];
      OrExtends(ts + inner, [")"], p + 1);
      assert (ts + ext)[p] == ts[p] && (ts + ext)[|ts + inner|] == ")";
    }
  }

  lemma {:induction false} WithCompletes(ts: seq<Token>, p: nat) returns (ext: seq<Token>)
    requires p <= |ts| && ParseWith(ts, p) == Failed(UnexpectedEnd)
    ensures Whole(ParseWith(ts + ext, p), ts + ext)
    decreases |ts| - p, 1
  {
    var r := ParsePrimary(ts, p);
    if r.Failed? {
      ext := PrimaryCompletes(ts, p);
    } else {
      ext := ["MIT"];
      PrimaryExtends(ts, ext, p);
      SameToken(ts, ext, r.next, "WITH");
      assert (ts + ext)[r.next + 1] == "MIT";
    }
  }

  lemma {:induction false} AndCompletes(ts: seq<Token>, p: nat) returns (ext: seq<Token>)
    requires p <= |ts| && ParseAnd(ts, p) == Failed(UnexpectedEnd)
    ensures Whole(ParseAnd(ts + ext, p), ts + ext)
    decreases |ts| - p, 3
  {
    var r := ParseWith(ts, p);
    if r.Failed? {
      ext := WithCompletes(ts, p);
    } else {
      ext := AndLoopCompletes(ts, r.next, r.node);
      WithExtends(ts, ext, p);
    }
  }

  lemma {:induction false} AndLoopCompletes(ts: seq<Token>, p: nat, node: Node) returns (ext: seq<Token>)
    requires p <= |ts| && AndLoop(ts, p, node) == Failed(UnexpectedEnd)
    ensures p < |ts| && Whole(AndLoop(ts + ext, p, node), ts + ext)
    decreases |ts| - p, 2
  {
    var r := ParseWith(ts, p + 1);
    if r.Failed? {
      ext := WithCompletes(ts, p + 1);
    } else {
      ext := AndLoopCompletes(ts, r.next, And(node, r.node));
      WithExtends(ts, ext, p + 1);
    }
    SameToken(ts, ext, p, "AND");
  }

  lemma {:induction false} OrCompletes(ts: seq<Token>, p: nat) returns (ext: seq<Token>)
    requires p <= |ts| && ParseOr(ts, p) == Failed(UnexpectedEnd)
    ensures Whole(ParseOr(ts + ext, p), ts + ext)
    decreases |ts| - p, 5
  {
    var r := ParseAnd(ts, p);
    if r.Failed? {
      ext := AndCompletes(ts, p);
    } else {
      ext := OrLoopCompletes(ts, r.next, r.node);
      AndExtends(ts, ext, p);
    }
  }

  lemma {:induction false} OrLoopCompletes(ts: seq<Token>, p: nat, node: Node) returns (ext: seq<Token>)
    requires p <= |ts| && OrLoop(ts, p, node) == Failed(UnexpectedEnd)
    ensures p < |ts| && Whole(OrLoop(ts + ext, p, node), ts + ext)
    decreases |ts| - p, 4
  {
    var r := ParseAnd(ts, p + 1);
    if r.Failed? {
      ext := AndCompletes(ts, p + 1);
    } else {
      ext := OrLoopCompletes(ts, r.next, Or(node, r.node));
      AndExtends(ts, ext, p + 1);
    }
    SameToken(ts, ext, p, "OR");
  }

  /** The parser reports an unexpected end exactly for the token sequences that
      are not expressions but begin one. */
  lemma EndMeansIncomplete(ts: seq<Token>)
    ensures Parse(ts) == Failed(UnexpectedEnd) <==> !Parse(ts).Tree? && exists ext: seq<Token> :: Parse(ts + ext).Tree?
  {
    if Parse(ts) == Failed(UnexpectedEnd) {
      var ext := OrCompletes(ts, 0);
      assert Parse(ts + ext).Tree?;
    } else if Parse(ts).Failed? {
      forall ext: seq<Token> ensures Parse(ts + ext).Failed? {
        OtherErrorsAreFinal(ts, ext);
      }
    }
  }
}
