/** From licence strings to verdicts: the tokeniser of
    scripts/check-cargo-licenses.py with Cargo's historical `/` spelling, and
    the whole check of one expression. */
module LicenseText {
  import opened Common
  import opened LicenseParser
  import opened LicensePolicy

  /** Python's `str.isspace`, which `\s` and `str.split` both use. */
  predicate IsSpace(c: char) {
    var n := c as int;
    9 <= n <= 13 || 28 <= n <= 32 || n == 0x85 || n == 0xa0 || n == 0x1680 || 0x2000 <= n <= 0x200a
    || n == 0x2028 || n == 0x2029 || n == 0x202f || n == 0x205f || n == 0x3000
  }

  function SkipSpace(s: string, i: nat): (j: nat)
    requires i <= |s|
    ensures i <= j <= |s| && (j < |s| ==> !IsSpace(s[j]))
    ensures forall m | i <= m < j :: IsSpace(s[m])
    decreases |s| - i
  {
    if i < |s| && IsSpace(s[i]) then SkipSpace(s, i + 1) else i
  }

  /** Where a match of `(?<=\S)\s*\/\s*(?=\S)` starting at `i` ends. */
  function SlashMatch(s: string, i: nat): (r: Option<nat>)
    requires i <= |s|
    ensures r.Some? ==> i < r.value < |s|
  {
    if i == 0 || IsSpace(s[i - 1]) then None
    else
      var j := SkipSpace(s, i);
      if j >= |s| || s[j] != '/' then None
      else
        var k := SkipSpace(s, j + 1);
        if k >= |s| then None else Some(k)
  }

  /** Every match replaced by ` OR `, left to right. */
  function SubSlash(s: string, i: nat): string
    requires i <= |s|
    decreases |s| - i
  {
    if i == |s| then ""
    else
      var m := SlashMatch(s, i);
      if m.Some? then " OR " + SubSlash(s, m.value) else [s[i]] + SubSlash(s, i + 1)
  }

  function WordEnd(s: string, inWord: char -> bool): (n: nat)
    ensures n <= |s|
  {
    if s == "" || !inWord(s[0]) then 0 else 1 + WordEnd(s[1..], inWord)
  }

  predicate NotSpace(c: char) {
    !IsSpace(c)
  }

  predicate InToken(c: char) {
    !IsSpace(c) && c != '(' && c != ')'
  }

  /** `str.split` with no argument. */
  function Split(s: string): seq<string> {
    if s == "" then []
    else if IsSpace(s[0]) then Split(s[1..])
    else
      var n := WordEnd(s, NotSpace);
      assert n == 1 + WordEnd(s[1..], NotSpace);
      [s[..n]] + Split(s[n..])
  }

  function JoinWords(ws: seq<string>): string {
    if ws == [] then "" else if |ws| == 1 then ws[0] else ws[0] + " " + JoinWords(ws[1..])
  }

  function Normalize(expression: string): string {
    JoinWords(Split(SubSlash(expression, 0)))
  }

  /** `re.findall(r"\(|\)|[^\s()]+", s)`. */
  function Scan(s: string): seq<Token> {
    if s == "" then []
    else if s[0] == '(' || s[0] == ')' then [[s[0]]] + Scan(s[1..])
    else if IsSpace(s[0]) then Scan(s[1..])
    else
      var n := WordEnd(s, InToken);
      assert n == 1 + WordEnd(s[1..], InToken);
      [s[..n]] + Scan(s[n..])
  }

  function Tokenize(expression: string): seq<Token> {
    Scan(Normalize(expression))
  }

  datatype Verdict = Malformed | Judged(allowed: bool, choice: string)

  /** `evaluate(Parser(expression).parse())`. */
  function Check(expression: string): Verdict {
    var tokens := Tokenize(expression);
    if tokens == [] then Malformed
    else
      match Parse(tokens)
      case Failed(_) => Malformed
      case Tree(node, _) => Judged(Evaluate(node).0, Evaluate(node).1)
  }

  // ---- Plain words survive tokenising ----

  predicate PlainChar(c: char) {
    InToken(c) && c != '/'
  }

  predicate PlainWord(w: string) {
    w != "" && forall c | c in w :: PlainChar(c)
  }

  predicate PlainWords(ws: seq<string>) {
    forall i | 0 <= i < |ws| :: PlainWord(ws[i])
  }

  /** A token as it is spelled when tokens are joined by spaces. */
  predicate PlainToken(t: string) {
    PlainWord(t) || t == "(" || t == ")"
  }

  predicate PlainTokens(ts: seq<string>) {
    forall i | 0 <= i < |ts| :: PlainToken(ts[i])
  }

  lemma {:induction false} WordEndOfWord(w: string, rest: string, inWord: char -> bool)
    requires (forall c | c in w :: PlainChar(c)) && (forall c :: PlainChar(c) ==> inWord(c))
    requires rest == "" || !inWord(rest[0])
    ensures WordEnd(w + rest, inWord) == |w|
  {
    if w == "" {
      assert w + rest == rest;
    } else {
      assert (w + rest)[1..] == w[1..] + rest;
      WordEndOfWord(w[1..], rest, inWord);
    }
  }

  lemma JoinHead(ws: seq<string>)
    requires ws != []
    ensures JoinWords(ws) == ws[0] + (if |ws| == 1 then "" else " " + JoinWords(ws[1..]))
  {
  }

  lemma SplitOfWord(w: string, rest: string)
    requires PlainToken(w) && (rest == "" || IsSpace(rest[0]))
    ensures Split(w + rest) == [w] + Split(rest)
  {
    var s := w + rest;
    if PlainWord(w) {
      WordEndOfWord(w, rest, NotSpace);
    } else {
      assert s[1..] == rest;
    }
    assert WordEnd(s, NotSpace) == |w| && s[..|w|] == w && s[|w|..] == rest;
  }

  lemma {:induction false} SplitOfJoin(ts: seq<string>)
    requires PlainTokens(ts)
    ensures Split(JoinWords(ts)) == ts
  {
    if ts != [] {
      var rest := if |ts| == 1 then "" else " " + JoinWords(ts[1..]);
      JoinHead(ts);
      SplitOfWord(ts[0], rest);
      SplitOfJoin(ts[1..]);
      if |ts| > 1 {
        assert rest[1..] == JoinWords(ts[1..]);
      }
      assert Split(rest) == ts[1..];
    }
  }

  lemma ScanOfWord(w: string, rest: string)
    requires PlainToken(w) && (rest == "" || IsSpace(rest[0]))
    ensures Scan(w + rest) == [w] + Scan(rest)
  {
    var s := w + rest;
    if PlainWord(w) {
      WordEndOfWord(w, rest, InToken);
    }
    assert s[..|w|] == w && s[|w|..] == rest && s[0] == w[0];
  }

  lemma {:induction false} ScanOfJoin(ts: seq<string>)
    requires PlainTokens(ts)
    ensures Scan(JoinWords(ts)) == ts
  {
    if ts != [] {
      var rest := if |ts| == 1 then "" else " " + JoinWords(ts[1..]);
      JoinHead(ts);
      ScanOfWord(ts[0], rest);
      ScanOfJoin(ts[1..]);
      if |ts| > 1 {
        assert rest[1..] == JoinWords(ts[1..]);
      }
      assert Scan(rest) == ts[1..];
    }
  }

  lemma {:induction false} NoSlashNoChange(s: string, i: nat)
    requires i <= |s| && forall k | 0 <= k < |s| :: s[k] != '/'
    ensures SubSlash(s, i) == s[i..]
    decreases |s| - i
  {
    if i < |s| {
      NoSlashNoChange(s, i + 1);
    }
  }

  lemma {:induction false} JoinHasNoSlash(ws: seq<string>, k: nat)
    requires PlainTokens(ws) && k < |JoinWords(ws)|
    ensures JoinWords(ws)[k] != '/'
  {
    if ws != [] {
      JoinHead(ws);
      assert PlainToken(ws[0]);
      if k < |ws[0]| {
        assert ws[0][k] in ws[0];
      } else if k > |ws[0]| {
        JoinHasNoSlash(ws[1..], k - |ws[0]| - 1);
      }
    }
  }

  /** Parentheses and words without whitespace, parentheses or slashes, joined
      by spaces, are tokenised into themselves. */
  lemma TokenizeOfJoin(ws: seq<string>)
    requires PlainTokens(ws)
    ensures Tokenize(JoinWords(ws)) == ws
  {
    var s := JoinWords(ws);
    forall k | 0 <= k < |s| ensures s[k] != '/' {
      JoinHasNoSlash(ws, k);
    }
    NoSlashNoChange(s, 0);
    SplitOfJoin(ws);
    ScanOfJoin(ws);
  }

  // ---- What tokenising means on every string ----

  predicate IsWord(w: string) {
    w != "" && forall i | 0 <= i < |w| :: InToken(w[i])
  }

  predicate TokenShaped(t: string) {
    t == "(" || t == ")" || IsWord(t)
  }

  /** `t` is a whole token when `rest` follows it. */
  predicate Ends(t: string, rest: string) {
    TokenShaped(t) && (IsWord(t) && rest != "" ==> !InToken(rest[0]))
  }

  lemma {:induction false} WordEndIsMaximal(s: string)
    ensures var n := WordEnd(s, InToken); (forall i | 0 <= i < n :: InToken(s[i])) && (n < |s| ==> !InToken(s[n]))
  {
    if s != "" && InToken(s[0]) {
      WordEndIsMaximal(s[1..]);
    }
  }

  lemma {:induction false} WordEndOfAny(w: string, rest: string)
    requires (forall i | 0 <= i < |w| :: InToken(w[i])) && (rest == "" || !InToken(rest[0]))
    ensures WordEnd(w + rest, InToken) == |w|
  {
    if w == "" {
      assert w + rest == rest;
    } else {
      assert (w + rest)[1..] == w[1..] + rest;
      WordEndOfAny(w[1..], rest);
    }
  }

  /** Every text starts with a whitespace character or with a whole token. */
  lemma Front(s: string) returns (t: string, rest: string)
    requires s != ""
    ensures s == t + rest && |rest| < |s|
    ensures if IsSpace(s[0]) then t == [s[0]] else Ends(t, rest)
  {
    var n := if InToken(s[0]) then WordEnd(s, InToken) else 1;
    WordEndIsMaximal(s);
    t, rest := s[..n], s[n..];
  }

  /** A function that reads a text from its front as the scanner does. */
  ghost predicate Reads(f: string -> seq<Token>) {
    && f("") == []
    && (forall t, rest | Ends(t, rest) :: TakesToken(f, t, rest))
    && (forall c, rest | IsSpace(c) :: SkipsSpace(f, c, rest))
  }

  predicate TakesToken(f: string -> seq<Token>, t: string, rest: string) {
    f(t + rest) == [t] + f(rest)
  }

  predicate SkipsSpace(f: string -> seq<Token>, c: char, rest: string) {
    f([c] + rest) == f(rest)
  }

  lemma ScanTakesToken(t: string, rest: string)
    requires Ends(t, rest)
    ensures TakesToken(Scan, t, rest)
  {
    var s := t + rest;
    assert s[..|t|] == t && s[|t|..] == rest && s[0] == t[0];
    if IsWord(t) {
      WordEndOfAny(t, rest);
    }
  }

  lemma ScanSkipsSpace(c: char, rest: string)
    requires IsSpace(c)
    ensures SkipsSpace(Scan, c, rest)
  {
    assert ([c] + rest)[1..] == rest;
  }

  lemma ScanReads()
    ensures Reads(Scan)
  {
    forall t, rest | Ends(t, rest) ensures TakesToken(Scan, t, rest) {
      ScanTakesToken(t, rest);
    }
    forall c, rest | IsSpace(c) ensures SkipsSpace(Scan, c, rest) {
      ScanSkipsSpace(c, rest);
    }
  }

  lemma StillEnds(t: string, x: string, rest: string)
    requires Ends(t, x) && rest != "" && !InToken(rest[0])
    ensures Ends(t, x + rest)
  {
  }

  lemma {:induction false} ReadsBeforeBreak(f: string -> seq<Token>, x: string, rest: string)
    requires Reads(f) && rest != "" && !InToken(rest[0])
    ensures f(x + rest) == f(x) + f(rest)
    decreases |x|
  {
    if x == "" {
      assert x + rest == rest;
    } else {
      var t, y := Front(x);
      ReadsBeforeBreak(f, y, rest);
      assert x + rest == t + (y + rest);
      if IsSpace(x[0]) {
        assert SkipsSpace(f, x[0], y) && SkipsSpace(f, x[0], y + rest);
      } else {
        StillEnds(t, y, rest);
        assert TakesToken(f, t, y) && TakesToken(f, t, y + rest);
      }
    }
  }

  lemma ScanBeforeBreak(x: string, rest: string)
    requires rest != "" && !InToken(rest[0])
    ensures Scan(x + rest) == Scan(x) + Scan(rest)
  {
    ScanReads();
    ReadsBeforeBreak(Scan, x, rest);
  }

  /** Scanning splits at any whitespace character. */
  lemma ScanAtSpace(x: string, c: char, y: string)
    requires IsSpace(c)
    ensures Scan(x + [c] + y) == Scan(x) + Scan(y)
  {
    assert x + [c] + y == x + ([c] + y);
    ScanBeforeBreak(x, [c] + y);
    ScanSkipsSpace(c, y);
  }

  /** And at any parenthesis, which is a token of its own. */
  lemma ScanAtParenthesis(x: string, c: char, y: string)
    requires c == '(' || c == ')'
    ensures Scan(x + [c] + y) == Scan(x) + [[c]] + Scan(y)
  {
    assert x + [c] + y == x + ([c] + y);
    ScanBeforeBreak(x, [c] + y);
    ScanTakesToken([c], y);
  }

  lemma {:induction false} WordEndsAtSpace(s: string)
    ensures var n := WordEnd(s, NotSpace); n < |s| ==> IsSpace(s[n])
  {
    if s != "" && NotSpace(s[0]) {
      WordEndsAtSpace(s[1..]);
    }
  }

  lemma ReadsAtSpace(f: string -> seq<Token>, x: string, c: char, y: string)
    requires Reads(f) && IsSpace(c)
    ensures f(x + [c] + y) == f(x) + f(y)
  {
    assert x + [c] + y == x + ([c] + y);
    ReadsBeforeBreak(f, x, [c] + y);
    assert SkipsSpace(f, c, y);
  }

  lemma SplitFront(s: string) returns (word: string, rest: string)
    requires s != "" && !IsSpace(s[0])
    ensures s == word + rest && |rest| < |s| && (rest == "" || IsSpace(rest[0])) && Split(s) == [word] + Split(rest)
  {
    var n := WordEnd(s, NotSpace);
    assert n == 1 + WordEnd(s[1..], NotSpace);
    WordEndsAtSpace(s);
    word, rest := s[..n], s[n..];
  }

  lemma ReadsJoin(f: string -> seq<Token>, word: string, rest: seq<string>)
    requires Reads(f)
    ensures f(JoinWords([word] + rest)) == f(word) + f(JoinWords(rest))
  {
    if rest == [] {
      assert [word] + rest == [word];
    } else {
      JoinHead([word] + rest);
      assert ([word] + rest)[1..] == rest;
      assert word + (" " + JoinWords(rest)) == word + [' '] + JoinWords(rest);
      ReadsAtSpace(f, word, ' ', JoinWords(rest));
    }
  }

  lemma {:induction false} SpacingIsUnread(f: string -> seq<Token>, s: string)
    requires Reads(f)
    ensures f(JoinWords(Split(s))) == f(s)
    decreases |s|
  {
    if s != "" {
      if IsSpace(s[0]) {
        SpacingIsUnread(f, s[1..]);
        assert SkipsSpace(f, s[0], s[1..]) && [s[0]] + s[1..] == s;
      } else {
        var word, rest := SplitFront(s);
        SpacingIsUnread(f, rest);
        ReadsJoin(f, word, Split(rest));
        if rest != "" {
          ReadsBeforeBreak(f, word, rest);
        } else {
          assert word == s;
        }
      }
    }
  }

  /** Collapsing whitespace changes no token. */
  lemma SpacingIsInvisible(s: string)
    ensures Scan(JoinWords(Split(s))) == Scan(s)
  {
    ScanReads();
    SpacingIsUnread(Scan, s);
  }

  // ---- What the tokens are ----

  lemma WordScans(w: string)
    requires IsWord(w)
    ensures Scan(w) == [w]
  {
    ScanTakesToken(w, "");
    assert w + "" == w && Scan("") == [];
  }

  /** A tokeniser keeps words, drops whitespace and keeps each parenthesis as a
      token of its own. */
  ghost predicate Tokenises(f: string -> seq<Token>) {
    && f("") == []
    && (forall w | IsWord(w) :: f(w) == [w])
    && (forall x, c, y | !InToken(c) :: SplitsAt(f, x, c, y))
  }

  predicate SplitsAt(f: string -> seq<Token>, x: string, c: char, y: string) {
    f(x + [c] + y) == f(x) + (if IsSpace(c) then [] else [[c]]) + f(y)
  }

  /** The scanner is a tokeniser, and the only one: its tokens are the maximal
      words and the parentheses of the string, in order. */
  lemma ScanIsTheTokeniser()
    ensures Tokenises(Scan)
    ensures forall f: string -> seq<Token>, s: string | Tokenises(f) :: f(s) == Scan(s)
  {
    forall w | IsWord(w) ensures Scan(w) == [w] {
      WordScans(w);
    }
    forall x, c, y | !InToken(c) ensures SplitsAt(Scan, x, c, y) {
      if IsSpace(c) {
        ScanAtSpace(x, c, y);
      } else {
        ScanAtParenthesis(x, c, y);
      }
    }
    forall f: string -> seq<Token>, s: string | Tokenises(f) ensures f(s) == Scan(s) {
      OneTokeniser(f, Scan, s);
    }
  }

  lemma FirstBreak(s: string) returns (n: nat)
    ensures n <= |s| && (s[..n] == "" || IsWord(s[..n]))
    ensures n < |s| ==> !InToken(s[n]) && s == s[..n] + [s[n]] + s[n + 1..]
    ensures n == |s| ==> s[..n] == s
  {
    n := WordEnd(s, InToken);
    WordEndIsMaximal(s);
  }

  lemma {:induction false} OneTokeniser(f: string -> seq<Token>, g: string -> seq<Token>, s: string)
    requires Tokenises(f) && Tokenises(g)
    ensures f(s) == g(s)
    decreases |s|
  {
    var n := FirstBreak(s);
    assert f(s[..n]) == g(s[..n]);
    if n < |s| {
      OneTokeniser(f, g, s[n + 1..]);
      assert SplitsAt(f, s[..n], s[n], s[n + 1..]) && SplitsAt(g, s[..n], s[n], s[n + 1..]);
    }
  }

  function Concat(ts: seq<string>): string {
    if ts == [] then "" else ts[0] + Concat(ts[1..])
  }

  function WithoutSpace(s: string): string {
    if s == "" then "" else (if IsSpace(s[0]) then "" else [s[0]]) + WithoutSpace(s[1..])
  }

  lemma {:induction false} WordHasNoSpace(w: string, rest: string)
    requires forall i | 0 <= i < |w| :: !IsSpace(w[i])
    ensures WithoutSpace(w + rest) == w + WithoutSpace(rest)
  {
    if w == "" {
      assert w + rest == rest;
    } else {
      assert (w + rest)[1..] == w[1..] + rest;
      WordHasNoSpace(w[1..], rest);
    }
  }

  lemma {:induction false} ReadingSpells(f: string -> seq<Token>, s: string)
    requires Reads(f)
    ensures Concat(f(s)) == WithoutSpace(s)
    ensures forall i | 0 <= i < |f(s)| :: TokenShaped(f(s)[i])
    decreases |s|
  {
    if s != "" {
      var t, rest := Front(s);
      ReadingSpells(f, rest);
      if IsSpace(s[0]) {
        assert SkipsSpace(f, s[0], rest) && s[1..] == rest;
      } else {
        assert TakesToken(f, t, rest);
        SpellsHead(t, f(rest));
        WordHasNoSpace(t, rest);
      }
    }
  }

  lemma SpellsHead(t: string, ts: seq<Token>)
    ensures Concat([t] + ts) == t + Concat(ts)
  {
    assert ([t] + ts)[1..] == ts;
  }

  /** Nothing but whitespace is lost, and every token is a parenthesis or a word. */
  lemma TokensSpellTheText(s: string)
    ensures Concat(Scan(s)) == WithoutSpace(s)
    ensures forall i | 0 <= i < |Scan(s)| :: TokenShaped(Scan(s)[i])
  {
    ScanReads();
    ReadingSpells(Scan, s);
  }

  // ---- The historical slash ----

  /** The last character before `k` that is not whitespace. */
  function LastBefore(s: string, k: nat): (r: Option<nat>)
    requires k <= |s|
    ensures r.Some? ==> r.value < k && !IsSpace(s[r.value]) && forall m | r.value < m < k :: IsSpace(s[m])
    ensures r.None? ==> forall m | 0 <= m < k :: IsSpace(s[m])
  {
    if k == 0 then None else if IsSpace(s[k - 1]) then LastBefore(s, k - 1) else Some(k - 1)
  }

  /** The slash at `k` is an operator: something stands before it and after it,
      and what stands before is not another operator slash some space away. */
  predicate IsOperator(s: string, k: nat)
    requires k < |s|
    decreases k
  {
    && s[k] == '/' && SkipSpace(s, k + 1) < |s|
    && var p := LastBefore(s, k);
       p.Some? && (p.value == k - 1 || !IsOperator(s, p.value))
  }

  /** The expression from `i` on with ` OR ` for each operator slash and every
      other character kept. */
  function WithOrs(s: string, i: nat): string
    requires i <= |s|
    decreases |s| - i
  {
    if i == |s| then "" else (if IsOperator(s, i) then " OR " else [s[i]]) + WithOrs(s, i + 1)
  }

  /** What is known about the next slash when the substitution stands at `i`. */
  predicate Awaiting(s: string, i: nat)
    requires i <= |s|
  {
    i == 0
    || if IsSpace(s[i - 1]) then SkipSpace(s, i) < |s| ==> !IsOperator(s, SkipSpace(s, i))
       else !IsOperator(s, i - 1) || i == |s| || !IsSpace(s[i])
  }

  lemma MatchIsOperator(s: string, i: nat)
    requires i < |s| && Awaiting(s, i) && SlashMatch(s, i).Some?
    ensures IsOperator(s, SkipSpace(s, i)) && Awaiting(s, SlashMatch(s, i).value)
  {
    var j, k := SkipSpace(s, i), SlashMatch(s, i).value;
    assert LastBefore(s, j) == Some(i - 1);
    if k > j + 1 {
      assert LastBefore(s, k) == Some(j);
    }
  }

  lemma NoMatchNoOperator(s: string, i: nat)
    requires i < |s| && Awaiting(s, i) && SlashMatch(s, i).None?
    ensures !IsOperator(s, i) && Awaiting(s, i + 1)
  {
    if IsSpace(s[i]) && i == 0 {
      assert LastBefore(s, SkipSpace(s, 1)) == None;
    }
  }

  lemma SpaceIsKept(s: string, i: nat)
    requires i < |s| && IsSpace(s[i])
    ensures WithOrs(s, i) == [s[i]] + WithOrs(s, i + 1)
  {
  }

  lemma SliceGrows(s: string, i: nat, j: nat, y: string)
    requires i < j <= |s|
    ensures s[i..j] + y == [s[i]] + (s[i + 1..j] + y)
  {
  }

  lemma {:induction false} WithOrsOfGap(s: string, i: nat, j: nat)
    requires i <= j <= |s| && forall m | i <= m < j :: IsSpace(s[m])
    ensures WithOrs(s, i) == s[i..j] + WithOrs(s, j)
    decreases j - i
  {
    if i < j {
      SpaceIsKept(s, i);
      WithOrsOfGap(s, i + 1, j);
      SliceGrows(s, i, j, WithOrs(s, j));
    } else {
      assert s[i..j] == "";
    }
  }

  predicate AllSpace(s: string) {
    forall i | 0 <= i < |s| :: IsSpace(s[i])
  }

  lemma {:induction false} LeadingSpace(gap: string, y: string)
    requires AllSpace(gap)
    ensures Scan(gap + y) == Scan(y)
  {
    if gap == "" {
      assert gap + y == y;
    } else {
      assert (gap + y)[1..] == gap[1..] + y;
      LeadingSpace(gap[1..], y);
    }
  }

  lemma SpacedOut(x: string, gap: string, c: char, y: string)
    requires AllSpace(gap) && IsSpace(c)
    ensures Scan(x + (gap + [c] + y)) == Scan(x) + Scan(y)
  {
    var z := gap + [c];
    assert x + (gap + [c] + y) == x + [z[0]] + (z[1..] + y);
    ScanAtSpace(x, z[0], z[1..] + y);
    LeadingSpace(z[1..], y);
  }

  lemma OrScans()
    ensures Scan("OR") == ["OR"]
  {
    WordEndOfWord("OR", "", InToken);
    assert "OR" + "" == "OR" && "OR"[..2] == "OR" && "OR"[2..] == "";
  }

  /** An ` OR ` is one token, whatever surrounds it. */
  lemma OrSeparates(x: string, before: string, after: string, y: string)
    requires AllSpace(before) && AllSpace(after)
    ensures Scan(x + (before + (" OR " + (after + y)))) == Scan(x) + ["OR"] + Scan(y)
  {
    var rest := after + y;
    assert before + (" OR " + rest) == before + [' '] + ("OR" + [' '] + rest);
    SpacedOut(x, before, ' ', "OR" + [' '] + rest);
    ScanAtSpace("OR", ' ', rest);
    OrScans();
    LeadingSpace(after, y);
  }

  lemma SameAroundOr(x: string, before: string, after: string, y: string, z: string)
    requires AllSpace(before) && AllSpace(after) && Scan(y) == Scan(z)
    ensures Scan(x + (" OR " + y)) == Scan(x + (before + (" OR " + (after + z))))
  {
    OrSeparates(x, before, after, z);
    BareOrSeparates(x, y);
  }

  lemma BareOrSeparates(x: string, y: string)
    ensures Scan(x + (" OR " + y)) == Scan(x) + ["OR"] + Scan(y)
  {
    OrSeparates(x, "", "", y);
    assert "" + y == y;
    assert "" + (" OR " + y) == " OR " + y;
  }

  lemma OperatorInGap(s: string, i: nat, j: nat, k: nat)
    requires i <= j < k <= |s| && IsOperator(s, j)
    requires (forall m | i <= m < j :: IsSpace(s[m])) && (forall m | j < m < k :: IsSpace(s[m]))
    ensures WithOrs(s, i) == s[i..j] + (" OR " + (s[j + 1..k] + WithOrs(s, k)))
  {
    WithOrsOfGap(s, i, j);
    OperatorIsOr(s, j);
    WithOrsOfGap(s, j + 1, k);
  }

  lemma OperatorIsOr(s: string, j: nat)
    requires j < |s| && IsOperator(s, j)
    ensures WithOrs(s, j) == " OR " + WithOrs(s, j + 1)
  {
  }

  lemma SubstitutedOr(s: string, i: nat, k: nat, x: string)
    requires i < |s| && Awaiting(s, i) && SlashMatch(s, i) == Some(k)
    requires Scan(SubSlash(s, k)) == Scan(WithOrs(s, k))
    ensures Scan(x + (" OR " + SubSlash(s, k))) == Scan(x + WithOrs(s, i))
  {
    var j := SkipSpace(s, i);
    MatchIsOperator(s, i);
    OperatorInGap(s, i, j, k);
    SameAroundOr(x, s[i..j], s[j + 1..k], SubSlash(s, k), WithOrs(s, k));
  }

  lemma KeptChar(s: string, i: nat, x: string)
    requires i < |s| && SlashMatch(s, i).None? && !IsOperator(s, i)
    ensures x + SubSlash(s, i) == x + [s[i]] + SubSlash(s, i + 1)
    ensures x + WithOrs(s, i) == x + [s[i]] + WithOrs(s, i + 1)
  {
  }

  lemma {:induction false} SubstitutionScans(s: string, i: nat, x: string)
    requires i <= |s| && Awaiting(s, i)
    ensures Scan(x + SubSlash(s, i)) == Scan(x + WithOrs(s, i))
    decreases |s| - i
  {
    if i < |s| {
      if SlashMatch(s, i).Some? {
        var k := SlashMatch(s, i).value;
        MatchIsOperator(s, i);
        SubstitutionScans(s, k, "");
        assert "" + SubSlash(s, k) == SubSlash(s, k) && "" + WithOrs(s, k) == WithOrs(s, k);
        SubstitutedOr(s, i, k, x);
      } else {
        NoMatchNoOperator(s, i);
        SubstitutionScans(s, i + 1, x + [s[i]]);
        KeptChar(s, i, x);
      }
    }
  }

  /** Cargo's historical slash is OR: every expression is tokenised as if ` OR `
      stood for each of its operator slashes, and nothing else changes. */
  lemma SlashIsOr(expression: string)
    ensures Tokenize(expression) == Scan(WithOrs(expression, 0))
  {
    SpacingIsInvisible(SubSlash(expression, 0));
    SubstitutionScans(expression, 0, "");
    assert "" + SubSlash(expression, 0) == SubSlash(expression, 0);
    assert "" + WithOrs(expression, 0) == WithOrs(expression, 0);
  }

  // ---- From trees to text and back ----

  /** A tree of identifiers without whitespace, parentheses or slashes. */
  predicate PlainNode(n: Node) {
    match n
    case License(t) => PlainWord(t)
    case With(t, l) => PlainWord(t) && PlainNode(l)
    case And(l, r) => PlainNode(l) && PlainNode(r)
    case Or(l, r) => PlainNode(l) && PlainNode(r)
  }

  lemma {:induction false} PrintIsPlain(n: Node)
    requires PlainNode(n)
    ensures PlainTokens(Print(n))
    decreases n, 0
  {
    ShortIdsArePlain();
    match n
    case License(_) =>
    case With(_, l) => EncloseIsPlain(l);
    case And(l, r) => EncloseIsPlain(l); EncloseIsPlain(r);
    case Or(l, r) => EncloseIsPlain(l); EncloseIsPlain(r);
  }

  lemma {:induction false} EncloseIsPlain(n: Node)
    requires PlainNode(n)
    ensures PlainTokens(Enclose(n))
    decreases n, 1
  {
    PrintIsPlain(n);
  }

  /** The text of every such tree is tokenised and parsed back to the tree. */
  lemma TextRoundTrip(n: Node)
    requires NodeOk(n) && PlainNode(n)
    ensures Tokenize(JoinWords(Print(n))) == Print(n)
    ensures Parse(Tokenize(JoinWords(Print(n)))) == Tree(n, |Print(n)|)
    ensures Check(JoinWords(Print(n))) == Judged(Evaluate(n).0, Evaluate(n).1)
  {
    PrintIsPlain(n);
    TokenizeOfJoin(Print(n));
    ParseInvertsPrint(n);
  }

  // ---- The policy ----

  predicate OnTheList(id: string) {
    || id == "0BSD" || id == "Apache-2.0" || id == "BSD-2-Clause" || id == "BSD-3-Clause" || id == "CC0-1.0"
    || id == "CDLA-Permissive-2.0" || id == "ISC" || id == "MIT" || id == "MIT-0" || id == "PostgreSQL"
    || id == "Unicode-3.0" || id == "Unlicense" || id == "Zlib"
  }

  /** One identifier is allowed iff it is on the list; it is the choice. */
  lemma OneLicense(id: string)
    requires PlainWord(id) && Ident(id)
    ensures Check(id) == Judged(OnTheList(id), id)
  {
    TextRoundTrip(License(id));
  }

  /** An exception is allowed only for Apache-2.0, and only the LLVM one. */
  lemma OneException(id: string, exception: string)
    requires PlainWord(id) && Ident(id) && PlainWord(exception) && Ident(exception)
    ensures Check(id + " WITH " + exception)
         == Judged(id == "Apache-2.0" && exception == "LLVM-exception", id + " WITH " + exception)
  {
    WithText(id, exception);
    TextRoundTrip(With(exception, License(id)));
    AllowedException(id, exception);
  }

  lemma WithText(id: string, exception: string)
    ensures JoinWords(Print(With(exception, License(id)))) == id + " WITH " + exception
  {
    JoinOfThree(id, "WITH", exception);
    WithSpacing(id, exception);
    assert Print(With(exception, License(id))) == [id, "WITH", exception];
  }

  lemma AllowedException(id: string, exception: string)
    ensures id + " WITH " + exception in ALLOWED_WITH_EXCEPTIONS <==> id == "Apache-2.0" && exception == "LLVM-exception"
  {
    assert "Apache-2.0" + " WITH " + "LLVM-exception" == "Apache-2.0 WITH LLVM-exception";
    if id + " WITH " + exception in ALLOWED_WITH_EXCEPTIONS {
      OneSplit(id, exception);
    }
  }

  // ---- The reported choice ----

  /** The characters SPDX identifiers are made of. */
  predicate SpdxChar(c: char) {
    'a' <= c <= 'z' || 'A' <= c <= 'Z' || '0' <= c <= '9' || c == '-' || c == '.'
  }

  lemma SpdxWordIsPlain(w: string)
    requires w != "" && forall c | c in w :: SpdxChar(c)
    ensures PlainWord(w)
  {
    forall c | c in w ensures PlainChar(c) {
      assert SpdxChar(c);
    }
  }

  lemma ShortIdsArePlain()
    ensures PlainWord("0BSD") && PlainWord("CC0-1.0") && PlainWord("ISC") && PlainWord("MIT") && PlainWord("MIT-0")
    ensures PlainWord("Zlib") && PlainWord("AND") && PlainWord("WITH") && PlainWord("OR")
  {
    SpdxWordIsPlain("0BSD");
    SpdxWordIsPlain("CC0-1.0");
    SpdxWordIsPlain("ISC");
    SpdxWordIsPlain("MIT");
    SpdxWordIsPlain("MIT-0");
    SpdxWordIsPlain("Zlib");
    SpdxWordIsPlain("AND");
    SpdxWordIsPlain("WITH");
    SpdxWordIsPlain("OR");
  }

  lemma LongIdsArePlain()
    ensures PlainWord("Apache-2.0") && PlainWord("BSD-2-Clause") && PlainWord("BSD-3-Clause")
    ensures PlainWord("CDLA-Permissive-2.0") && PlainWord("PostgreSQL") && PlainWord("Unicode-3.0")
    ensures PlainWord("Unlicense") && PlainWord("LLVM-exception")
  {
    SpdxWordIsPlain("Apache-2.0");
    SpdxWordIsPlain("BSD-2-Clause");
    SpdxWordIsPlain("BSD-3-Clause");
    SpdxWordIsPlain("CDLA-Permissive-2.0");
    SpdxWordIsPlain("PostgreSQL");
    SpdxWordIsPlain("Unicode-3.0");
    SpdxWordIsPlain("Unlicense");
    SpdxWordIsPlain("LLVM-exception");
  }

  lemma AllowedIsPlain(id: string)
    requires id in ALLOWED_LICENSES
    ensures PlainWord(id)
  {
    ShortIdsArePlain();
    LongIdsArePlain();
  }

  lemma {:induction false} JoinOfConcat(a: seq<string>, b: seq<string>)
    requires a != [] && b != []
    ensures JoinWords(a + b) == JoinWords(a) + " " + JoinWords(b)
  {
    assert (a + b)[1..] == a[1..] + b;
    if |a| == 1 {
      assert a[1..] + b == b;
    } else {
      JoinOfConcat(a[1..], b);
      JoinAssociates(a[0], JoinWords(a[1..]), JoinWords(b), " ");
    }
  }

  lemma JoinOfThree(x: string, y: string, z: string)
    ensures JoinWords([x, y, z]) == x + " " + (y + " " + z)
  {
    assert [x, y, z][1..] == [y, z] && [y, z][1..] == [z];
    assert JoinWords([y, z]) == y + " " + z;
  }

  lemma WithSpacing(x: string, z: string)
    ensures x + " " + ("WITH" + " " + z) == x + " WITH " + z
  {
    assert " WITH " == " " + "WITH" + " ";
  }

  lemma TermTextIsJoin(a: Term)
    ensures TermText(a) == JoinWords(TermTokens(a))
  {
    match a
    case Single(id) =>
    case WithException(id, exception) =>
      JoinOfThree(id, "WITH", exception);
      WithSpacing(id, exception);
    case BadOperand =>
      JoinOfThree("invalid", "WITH", "operand");
      assert "invalid" + " " + ("WITH" + " " + "operand") == "invalid WITH operand";
  }

  lemma AndSpacing(x: string, z: string)
    ensures x + " " + "AND" + " " + z == x + " AND " + z
  {
    assert " AND " == " " + "AND" + " ";
  }

  lemma JoinWithAnd(front: seq<string>, last: seq<string>)
    requires front != [] && last != []
    ensures JoinWords(front + ["AND"] + last) == JoinWords(front) + " AND " + JoinWords(last)
  {
    JoinOfConcat(front, ["AND"]);
    JoinOfConcat(front + ["AND"], last);
    AndSpacing(JoinWords(front), JoinWords(last));
  }

  lemma {:induction false} ClauseTextIsJoin(clause: Clause)
    ensures ClauseTokens(clause) != [] && ClauseText(clause) == JoinWords(ClauseTokens(clause))
  {
    var n := |clause| - 1;
    TermTextIsJoin(clause[n]);
    if n > 0 {
      ClauseTextIsJoin(clause[..n]);
      JoinWithAnd(ClauseTokens(clause[..n]), TermTokens(clause[n]));
    }
  }

  lemma AllowedTermIsPlain(a: Term)
    requires TermAllowed(a)
    ensures PlainWords(TermTokens(a))
  {
    match a
    case Single(id) => AllowedIsPlain(id);
    case WithException(id, exception) =>
      OneSplit(id, exception);
      ShortIdsArePlain();
      LongIdsArePlain();
  }

  lemma {:induction false} AllowedClauseIsPlain(clause: Clause)
    requires ClauseAllowed(clause)
    ensures PlainWords(ClauseTokens(clause))
  {
    var n := |clause| - 1;
    AllowedTermIsPlain(clause[n]);
    if n > 0 {
      AllowedClauseIsPlain(clause[..n]);
      ShortIdsArePlain();
    }
  }

  lemma DerivedParses(x: OrExpr)
    requires OrOk(x)
    ensures Parse(OrYield(x)) == Tree(OrTree(x), |OrYield(x)|)
  {
    ParsesExactlyTheGrammar(OrYield(x), OrTree(x));
  }

  /** The text of an allowed clause is an expression that reports itself. */
  lemma ClauseReportsItself(clause: Clause)
    requires ClauseAllowed(clause)
    ensures Check(ClauseText(clause)) == Judged(true, ClauseText(clause))
  {
    ClauseTextIsJoin(clause);
    AllowedClauseIsPlain(clause);
    var ts := ClauseTokens(clause);
    TokenizeOfJoin(ts);
    ClauseReparses(clause);
    DerivedParses(OrOne(ClauseDerivation(clause)));
  }

  /** For every licence string: if it is allowed, the reported choice is itself
      a licence expression, is allowed, and reports itself. */
  lemma ChoiceIsStable(expression: string, choice: string)
    requires Check(expression) == Judged(true, choice)
    ensures Check(choice) == Judged(true, choice)
  {
    var node := Parse(Tokenize(expression)).node;
    EvaluateRefinesDnf(node);
    FirstAllowedIsFirst(Dnf(node));
    ClauseReportsItself(FirstAllowed(Dnf(node)).value);
  }
}
