/** Opaque activity tokens as text: the base64 encoding of section 4 of RFC 4648
    (rust/core-bridge/benches/json_bridge.rs) and the canonical-token check of
    rust/core-bridge/src/activity_protocol.rs. */
module Base64 {
  import opened Common

  type Byte = b: int | 0 <= b < 256

  const UPPER := "ABCDEFGHIJKLMNOPQRSTUVWXYZ"
  const LOWER := "abcdefghijklmnopqrstuvwxyz"
  const ALPHABET := UPPER + LOWER + "0123456789+/"

  const MAX_PAYLOAD_BYTES := 128 * 1024 * 1024

  // ---- Digits ----

  function Symbol(v: int): char
    requires 0 <= v < 64
  {
    if v < 26 then 'A' + v as char
    else if v < 52 then 'a' + (v - 26) as char
    else if v < 62 then '0' + (v - 52) as char
    else if v == 62 then '+'
    else '/'
  }

  function Value(c: char): (r: Option<int>)
    ensures r.Some? ==> 0 <= r.value < 64
  {
    if 'A' <= c <= 'Z' then Some(c as int - 'A' as int)
    else if 'a' <= c <= 'z' then Some(c as int - 'a' as int + 26)
    else if '0' <= c <= '9' then Some(c as int - '0' as int + 52)
    else if c == '+' then Some(62)
    else if c == '/' then Some(63)
    else None
  }

  lemma SymbolHasValue(v: int)
    requires 0 <= v < 64
    ensures Value(Symbol(v)) == Some(v) && Symbol(v) != '='
  {
  }

  lemma ValueHasSymbol(c: char)
    requires Value(c).Some?
    ensures Symbol(Value(c).value) == c
  {
  }

  lemma UpperAt(v: int)
    requires 0 <= v < 26
    ensures |UPPER| == 26 && UPPER[v] == 'A' + v as char
  {
  }

  lemma LowerAt(v: int)
    requires 0 <= v < 26
    ensures |LOWER| == 26 && LOWER[v] == 'a' + v as char
  {
  }

  /** The published alphabet lists the symbols in order. */
  lemma AlphabetIsSymbols(v: int)
    requires 0 <= v < 64
    ensures |ALPHABET| == 64 && ALPHABET[v] == Symbol(v)
  {
    UpperAt(if v < 26 then v else 0);
    LowerAt(if 26 <= v < 52 then v - 26 else 0);
  }

  // ---- Encoding ----

  function ByteAt(chunk: seq<Byte>, i: nat): Byte {
    if i < |chunk| then chunk[i] else 0
  }

  /** The four characters of one chunk of at most three bytes: each stands for
      the next six bits, padding for those that no byte supplies. */
  function Quad(chunk: seq<Byte>): (q: string)
    requires 1 <= |chunk| <= 3
    ensures |q| == 4
  {
    var b0, b1, b2 := ByteAt(chunk, 0), ByteAt(chunk, 1), ByteAt(chunk, 2);
    [Symbol(b0 / 4), Symbol(b0 % 4 * 16 + b1 / 16),
     if |chunk| > 1 then Symbol(b1 % 16 * 4 + b2 / 64) else '=',
     if |chunk| > 2 then Symbol(b2 % 64) else '=']
  }

  function Encode(input: seq<Byte>): string {
    if input == [] then ""
    else if |input| <= 3 then Quad(input)
    else Quad(input[..3]) + Encode(input[3..])
  }

  // ---- Decoding ----

  predicate Digit(c: char) {
    Value(c).Some?
  }

  function DigitValue(c: char): (v: int)
    ensures 0 <= v < 64
  {
    if Digit(c) then Value(c).value else 0
  }

  /** One group of four: padding only at the end of the input, and no bits left
      over behind the last byte. */
  function DecodeQuad(q: string, last: bool): (r: Option<seq<Byte>>)
    requires |q| == 4
    ensures r.Some? ==> 1 <= |r.value| <= 3 && (!last ==> |r.value| == 3)
  {
    var v0, v1, v2, v3 := DigitValue(q[0]), DigitValue(q[1]), DigitValue(q[2]), DigitValue(q[3]);
    var b0: Byte := v0 * 4 + v1 / 16;
    var b1: Byte := v1 % 16 * 16 + v2 / 4;
    var b2: Byte := v2 % 4 * 64 + v3;
    if !Digit(q[0]) || !Digit(q[1]) then None
    else if Digit(q[2]) && Digit(q[3]) then Some([b0, b1, b2])
    else if last && Digit(q[2]) && q[3] == '=' then if v2 % 4 == 0 then Some([b0, b1]) else None
    else if last && q[2] == '=' && q[3] == '=' then if v1 % 16 == 0 then Some([b0]) else None
    else None
  }

  /** The strict decoder: canonical padding, no trailing bits. */
  function Decode(s: string): Option<seq<Byte>> {
    if s == "" then Some([])
    else if |s| < 4 then None
    else
      var head := DecodeQuad(s[..4], |s| == 4);
      if head.None? then None
      else
        var rest := Decode(s[4..]);
        if rest.None? then None else Some(head.value + rest.value)
  }

  /** `decode_token`. */
  function DecodeToken(value: string): Option<seq<Byte>> {
    var bytes := Decode(value);
    if bytes.None? then None
    else if bytes.value == [] || |bytes.value| > MAX_PAYLOAD_BYTES || Encode(bytes.value) != value then None
    else bytes
  }

  // ---- One group ----

  lemma Quotient(a: int, b: int, q: int, r: int)
    requires b > 0 && a == q * b + r && 0 <= r < b
    ensures a / b == q && a % b == r
  {
    var k := a / b - q;
    assert a == a / b * b + a % b;
    assert k * b == r - a % b;
    assert k >= 1 ==> k * b >= b;
    assert k <= -1 ==> k * b <= -b;
  }

  lemma Regroup(b0: Byte, b1: Byte, b2: Byte)
    ensures b0 / 4 * 4 + (b0 % 4 * 16 + b1 / 16) / 16 == b0
    ensures (b0 % 4 * 16 + b1 / 16) % 16 * 16 + (b1 % 16 * 4 + b2 / 64) / 4 == b1
    ensures (b1 % 16 * 4 + b2 / 64) % 4 * 64 + b2 % 64 == b2
    ensures (b0 % 4 * 16 + b1 / 16) % 16 == b1 / 16 && (b1 % 16 * 4 + b2 / 64) % 4 == b2 / 64
  {
    Quotient(b0 % 4 * 16 + b1 / 16, 16, b0 % 4, b1 / 16);
    Quotient(b1 % 16 * 4 + b2 / 64, 4, b1 % 16, b2 / 64);
  }

  lemma QuadDecodes(chunk: seq<Byte>, last: bool)
    requires 1 <= |chunk| <= 3 && (!last ==> |chunk| == 3)
    ensures DecodeQuad(Quad(chunk), last) == Some(chunk)
  {
    var q := Quad(chunk);
    var b0, b1, b2 := ByteAt(chunk, 0), ByteAt(chunk, 1), ByteAt(chunk, 2);
    Regroup(b0, b1, b2);
    SymbolHasValue(b0 / 4);
    SymbolHasValue(b0 % 4 * 16 + b1 / 16);
    SymbolHasValue(b1 % 16 * 4 + b2 / 64);
    SymbolHasValue(b2 % 64);
    assert DigitValue(q[0]) == b0 / 4 && DigitValue(q[1]) == b0 % 4 * 16 + b1 / 16;
    assert DigitValue(q[2]) == b1 % 16 * 4 + b2 / 64 && DigitValue(q[3]) == b2 % 64;
    if |chunk| == 1 {
      assert chunk == [b0];
    } else if |chunk| == 2 {
      assert chunk == [b0, b1];
    } else {
      assert chunk == [b0, b1, b2];
    }
  }

  lemma Resplit(v0: int, v1: int, v2: int, v3: int)
    requires 0 <= v0 < 64 && 0 <= v1 < 64 && 0 <= v2 < 64 && 0 <= v3 < 64
    ensures var b0, b1, b2 := v0 * 4 + v1 / 16, v1 % 16 * 16 + v2 / 4, v2 % 4 * 64 + v3;
            b0 / 4 == v0 && b0 % 4 * 16 + b1 / 16 == v1 && b1 % 16 * 4 + b2 / 64 == v2 && b2 % 64 == v3
  {
    Quotient(v0 * 4 + v1 / 16, 4, v0, v1 / 16);
    Quotient(v1 % 16 * 16 + v2 / 4, 16, v1 % 16, v2 / 4);
    Quotient(v2 % 4 * 64 + v3, 64, v2 % 4, v3);
  }

  lemma QuadOf(v0: int, v1: int, v2: int, v3: int)
    requires 0 <= v0 < 64 && 0 <= v1 < 64 && 0 <= v2 < 64 && 0 <= v3 < 64
    ensures var b0: Byte, b1: Byte, b2: Byte := v0 * 4 + v1 / 16, v1 % 16 * 16 + v2 / 4, v2 % 4 * 64 + v3;
            && Quad([b0, b1, b2]) == [Symbol(v0), Symbol(v1), Symbol(v2), Symbol(v3)]
            && (v2 % 4 == 0 ==> Quad([b0, b1]) == [Symbol(v0), Symbol(v1), Symbol(v2), '='])
            && (v1 % 16 == 0 ==> Quad([b0]) == [Symbol(v0), Symbol(v1), '=', '='])
  {
    Resplit(v0, v1, v2, v3);
  }

  /** What a decoded group consists of, by its padding. */
  lemma DecodedQuad(q: string, last: bool, v0: int, v1: int, v2: int, v3: int)
    requires |q| == 4 && DecodeQuad(q, last).Some?
    requires v0 == DigitValue(q[0]) && v1 == DigitValue(q[1]) && v2 == DigitValue(q[2]) && v3 == DigitValue(q[3])
    ensures Digit(q[0]) && Digit(q[1]) && (Digit(q[2]) || q[2] == '=') && (Digit(q[3]) || q[3] == '=')
    ensures var b0: Byte, b1: Byte, b2: Byte := v0 * 4 + v1 / 16, v1 % 16 * 16 + v2 / 4, v2 % 4 * 64 + v3;
            DecodeQuad(q, last).value
            == if q[2] == '=' then [b0] else if q[3] == '=' then [b0, b1] else [b0, b1, b2]
    ensures (q[2] == '=' ==> q[3] == '=' && v1 % 16 == 0) && (q[2] != '=' && q[3] == '=' ==> v2 % 4 == 0)
  {
    assert !Digit('=');
  }

  lemma DecodedQuadEncodes(q: string, last: bool)
    requires |q| == 4 && DecodeQuad(q, last).Some?
    ensures Quad(DecodeQuad(q, last).value) == q
  {
    var v0, v1, v2, v3 := DigitValue(q[0]), DigitValue(q[1]), DigitValue(q[2]), DigitValue(q[3]);
    DecodedQuad(q, last, v0, v1, v2, v3);
    QuadOf(v0, v1, v2, v3);
    SymbolsSpell(q);
  }

  lemma SymbolsSpell(q: string)
    requires |q| == 4 && Digit(q[0]) && Digit(q[1])
    ensures q == [Symbol(DigitValue(q[0])), Symbol(DigitValue(q[1])), if Digit(q[2]) then Symbol(DigitValue(q[2])) else q[2],
                  if Digit(q[3]) then Symbol(DigitValue(q[3])) else q[3]]
  {
    ValueHasSymbol(q[0]);
    ValueHasSymbol(q[1]);
    if Digit(q[2]) {
      ValueHasSymbol(q[2]);
    }
    if Digit(q[3]) {
      ValueHasSymbol(q[3]);
    }
  }

  // ---- Whole strings ----

  /** Decoding inverts encoding. */
  lemma {:induction false} DecodeInvertsEncode(input: seq<Byte>)
    ensures Decode(Encode(input)) == Some(input)
    decreases |input|
  {
    if input != [] {
      if |input| <= 3 {
        QuadDecodes(input, true);
        assert Quad(input)[..4] == Quad(input) && Quad(input)[4..] == "";
        assert input + [] == input;
      } else {
        QuadDecodes(input[..3], false);
        DecodeInvertsEncode(input[3..]);
        EncodeLength(input[3..]);
        var s := Quad(input[..3]) + Encode(input[3..]);
        assert s[..4] == Quad(input[..3]) && s[4..] == Encode(input[3..]);
        assert input[..3] + input[3..] == input;
      }
    }
  }

  /** Whatever decodes is the encoding of what it decodes to. */
  lemma {:induction false} EncodeInvertsDecode(s: string)
    requires Decode(s).Some?
    ensures Encode(Decode(s).value) == s
    decreases |s|
  {
    if s != "" {
      var last := |s| == 4;
      var head := DecodeQuad(s[..4], last).value;
      DecodedQuadEncodes(s[..4], last);
      EncodeInvertsDecode(s[4..]);
      var rest := Decode(s[4..]).value;
      assert s == s[..4] + s[4..];
      if last {
        assert s[4..] == "" && head + rest == head;
      } else {
        NonEmptyDecodes(s[4..]);
        assert (head + rest)[..3] == head && (head + rest)[3..] == rest;
      }
    }
  }

  lemma NonEmptyDecodes(s: string)
    requires Decode(s).Some? && s != ""
    ensures Decode(s).value != []
  {
  }

  lemma {:induction false} EncodeLength(input: seq<Byte>)
    ensures |Encode(input)| == 4 * ((|input| + 2) / 3)
    decreases |input|
  {
    if |input| > 3 {
      EncodeLength(input[3..]);
      ThirdsStep(|input|);
    }
  }

  lemma ThirdsStep(n: nat)
    requires n >= 3
    ensures (n + 2) / 3 == (n - 3 + 2) / 3 + 1
  {
  }

  /** A token is accepted iff it is the encoding of a non-empty byte string
      within the payload bound; that byte string is unique and is the result. */
  lemma TokenIsCanonical(value: string, bytes: seq<Byte>)
    ensures DecodeToken(value) == Some(bytes) <==> Encode(bytes) == value && 0 < |bytes| <= MAX_PAYLOAD_BYTES
  {
    DecodeInvertsEncode(bytes);
    if Decode(value).Some? {
      EncodeInvertsDecode(value);
    }
  }

  lemma AcceptedTokens(value: string)
    ensures DecodeToken(value).Some? <==> exists bytes: seq<Byte> :: Encode(bytes) == value && 0 < |bytes| <= MAX_PAYLOAD_BYTES
    ensures DecodeToken(value).Some? ==>
              |value| == 4 * ((|DecodeToken(value).value| + 2) / 3)
              && forall bytes: seq<Byte> :: Encode(bytes) == value ==> bytes == DecodeToken(value).value
  {
    forall bytes: seq<Byte> ensures DecodeToken(value) == Some(bytes) <==> Encode(bytes) == value && 0 < |bytes| <= MAX_PAYLOAD_BYTES {
      TokenIsCanonical(value, bytes);
    }
    if DecodeToken(value).Some? {
      EncodeLength(DecodeToken(value).value);
      forall bytes: seq<Byte> | Encode(bytes) == value ensures bytes == DecodeToken(value).value {
        DecodeInvertsEncode(bytes);
      }
    }
  }

  // ---- The code ----

  function Triple(b0: Byte, b1: Byte, b2: Byte): int {
    b0 * 65536 + b1 * 256 + b2
  }

  /** Shifting right by a power of two and masking six bits. */
  function Sextet(triple: int, weight: int): (v: int)
    requires weight > 0
    ensures 0 <= v < 64
  {
    triple / weight % 64
  }

  /** The shifts and masks of the encoder pick these bits of the bytes. */
  lemma SextetsOfTriple(b0: Byte, b1: Byte, b2: Byte)
    ensures var t := Triple(b0, b1, b2);
            && Sextet(t, 262144) == b0 / 4 && Sextet(t, 4096) == b0 % 4 * 16 + b1 / 16
            && Sextet(t, 64) == b1 % 16 * 4 + b2 / 64 && Sextet(t, 1) == b2 % 64
  {
    var t := Triple(b0, b1, b2);
    Quotient(t, 262144, b0 / 4, b0 % 4 * 65536 + b1 * 256 + b2);
    Quotient(t, 4096, b0 * 16 + b1 / 16, b1 % 16 * 256 + b2);
    Quotient(t, 64, b0 * 1024 + b1 * 4 + b2 / 64, b2 % 64);
    Quotient(b0 / 4, 64, 0, b0 / 4);
    Quotient(b0 * 16 + b1 / 16, 64, b0 / 4, b0 % 4 * 16 + b1 / 16);
    Quotient(b0 * 1024 + b1 * 4 + b2 / 64, 64, b0 * 16 + b1 / 16, b1 % 16 * 4 + b2 / 64);
  }

  /** One character of the encoder's output. */
  method EncodeSextet(v: int) returns (c: char)
    requires 0 <= v < 64
    ensures c == Symbol(v)
  {
    AlphabetIsSymbols(v);
    c := ALPHABET[v];
  }

  method Split(b0: Byte, b1: Byte, b2: Byte) returns (v0: int, v1: int, v2: int, v3: int)
    ensures v0 == b0 / 4 && v1 == b0 % 4 * 16 + b1 / 16 && v2 == b1 % 16 * 4 + b2 / 64 && v3 == b2 % 64
  {
    var t := Triple(b0, b1, b2);
    SextetsOfTriple(b0, b1, b2);
    v0, v1, v2, v3 := Sextet(t, 262144), Sextet(t, 4096), Sextet(t, 64), Sextet(t, 1);
  }

  method EncodeChunk(chunk: seq<Byte>) returns (quad: string)
    requires 1 <= |chunk| <= 3
    ensures quad == Quad(chunk)
  {
    var v0, v1, v2, v3 := Split(chunk[0], if |chunk| > 1 then chunk[1] else 0, if |chunk| > 2 then chunk[2] else 0);
    var c0 := EncodeSextet(v0);
    var c1 := EncodeSextet(v1);
    var c2 := EncodeSextet(v2);
    var c3 := EncodeSextet(v3);
    quad := [c0, c1, if |chunk| > 1 then c2 else '=', if |chunk| > 2 then c3 else '='];
  }

  /** The encoder's loop over chunks of three bytes. */
  method EncodeChunks(input: seq<Byte>) returns (output: string)
    ensures output == Encode(input) && |output| == 4 * ((|input| + 2) / 3)
  {
    output := "";
    var i := 0;
    while i < |input|
      invariant 0 <= i <= |input| && output + Encode(input[i..]) == Encode(input)
    {
      var end := if i + 3 <= |input| then i + 3 else |input|;
      var quad := EncodeChunk(input[i..end]);
      ChunkStep(input[i..], input[i..end]);
      assert input[i..][end - i..] == input[end..];
      output := output + quad;
      i := end;
    }
    assert input[i..] == [];
    EncodeLength(input);
  }

  lemma ChunkStep(rest: seq<Byte>, chunk: seq<Byte>)
    requires rest != [] && chunk == rest[..if |rest| <= 3 then |rest| else 3]
    ensures Encode(rest) == Quad(chunk) + Encode(rest[|chunk|..])
  {
    if |rest| <= 3 {
      assert chunk == rest && rest[|chunk|..] == [];
    }
  }
}
