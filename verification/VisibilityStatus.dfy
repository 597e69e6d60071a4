/** Names of visibility statuses (rust/core-bridge/src/client_protocol.rs):
    every nonzero 32-bit status has one name, and only such names, plus the
    legacy "unspecified", are accepted. */
module VisibilityStatus {
  import opened Common

  type Int32 = n: int | -0x8000_0000 <= n < 0x8000_0000

  const MAX_KNOWN_VISIBILITY_STATUS := 8

  const UNKNOWN_STATUS_PREFIX := "unknown_"

  // ---- Decimal numbers ----

  function DigitChar(d: int): char
    requires 0 <= d < 10
  {
    '0' + d as char
  }

  predicate IsDigit(c: char) {
    '0' <= c <= '9'
  }

  function NatText(n: nat): (s: string)
    ensures s != ""
  {
    if n < 10 then [DigitChar(n)] else NatText(n / 10) + [DigitChar(n % 10)]
  }

  /** `i32::to_string`. */
  function Text(n: int): string {
    if n < 0 then "-" + NatText(-n) else NatText(n)
  }

  function Digits(s: string): (r: Option<nat>) {
    if s == "" then Some(0)
    else
      var k := |s| - 1;
      var front := Digits(s[..k]);
      if front.None? || !IsDigit(s[k]) then None else Some(front.value * 10 + (s[k] as int - '0' as int))
  }

  /** `str::parse::<i32>`: an optional sign, then at least one digit, in range. */
  function Parse(s: string): (r: Option<Int32>) {
    if s == "" then None
    else
      var signed := s[0] == '-' || s[0] == '+';
      var digits := if signed then s[1..] else s;
      var magnitude := if digits == "" then None else Digits(digits);
      if magnitude.None? then None
      else
        var m: int := magnitude.value;
        var n: int := if s[0] == '-' then -m else m;
        if -0x8000_0000 <= n < 0x8000_0000 then Some(n) else None
  }

  lemma {:induction false} DigitsOfNat(n: nat)
    ensures Digits(NatText(n)) == Some(n) && IsDigit(NatText(n)[0])
  {
    if n < 10 {
      assert Digits([DigitChar(n)][..0]) == Some(0);
    } else {
      DigitsOfNat(n / 10);
      var s := NatText(n);
      assert s[..|s| - 1] == NatText(n / 10);
    }
  }

  /** Parsing inverts printing on every 32-bit number. */
  lemma ParseInvertsText(n: Int32)
    ensures Parse(Text(n)) == Some(n)
  {
    var m: int := n;
    if m < 0 {
      DigitsOfNat(-m);
      assert Text(m)[1..] == NatText(-m);
    } else {
      DigitsOfNat(m);
    }
  }

  // ---- Names ----

  /** `visibility_status`. */
  function Name(status: Int32): Option<string> {
    match status
    case 0 => None
    case 1 => Some("running")
    case 2 => Some("completed")
    case 3 => Some("failed")
    case 4 => Some("canceled")
    case 5 => Some("terminated")
    case 6 => Some("continued_as_new")
    case 7 => Some("timed_out")
    case 8 => Some("paused")
    case _ => Some(UNKNOWN_STATUS_PREFIX + Text(status))
  }

  const FIXED_NAMES := {
    "running", "completed", "failed", "canceled", "terminated", "continued_as_new", "timed_out", "paused", "unspecified"
  }

  /** `is_visibility_status_name`. */
  predicate IsName(s: string) {
    if s in FIXED_NAMES then true
    else if !(UNKNOWN_STATUS_PREFIX <= s) then false
    else
      var digits := s[|UNKNOWN_STATUS_PREFIX|..];
      var value := Parse(digits);
      value.Some? && !(0 <= value.value <= MAX_KNOWN_VISIBILITY_STATUS) && Text(value.value) == digits
  }

  lemma NotPrefix(p: string, s: string, i: nat)
    requires i < |p| && i < |s| && p[i] != s[i]
    ensures !(p <= s)
  {
  }

  lemma FixedNamesAreNotPrefixed(s: string)
    requires s in FIXED_NAMES
    ensures !(UNKNOWN_STATUS_PREFIX <= s)
  {
    var p := UNKNOWN_STATUS_PREFIX;
    NotPrefix(p, s, if s[0] != p[0] then 0 else 2);
  }

  lemma UnknownNames(status: Int32, s: string)
    requires !(0 <= status <= MAX_KNOWN_VISIBILITY_STATUS)
    ensures Name(status) == Some(s) <==>
              UNKNOWN_STATUS_PREFIX <= s && Text(status) == s[|UNKNOWN_STATUS_PREFIX|..]
  {
    var p := UNKNOWN_STATUS_PREFIX;
    assert Name(status) == Some(p + Text(status));
    if p <= s {
      assert s == p + s[|p|..];
    }
    assert (p + Text(status))[|p|..] == Text(status);
  }

  /** Distinct statuses have distinct names. */
  lemma NameIsInjective(a: Int32, b: Int32)
    requires a != 0 && b != 0 && Name(a) == Name(b)
    ensures a == b
  {
    var known := (n: Int32) => 0 <= n <= MAX_KNOWN_VISIBILITY_STATUS;
    if !known(a) && !known(b) {
      UnknownNames(a, Name(a).value);
      UnknownNames(b, Name(b).value);
      ParseInvertsText(a);
      ParseInvertsText(b);
    } else if !known(a) {
      UnknownNames(a, Name(a).value);
      FixedNamesAreNotPrefixed(Name(b).value);
    } else if !known(b) {
      UnknownNames(b, Name(b).value);
      FixedNamesAreNotPrefixed(Name(a).value);
    } else {
      KnownNamesDiffer(a, b);
    }
  }

  lemma KnownNamesDiffer(a: Int32, b: Int32)
    requires 1 <= a <= MAX_KNOWN_VISIBILITY_STATUS && 1 <= b <= MAX_KNOWN_VISIBILITY_STATUS && Name(a) == Name(b)
    ensures a == b
  {
  }

  /** Which status each fixed name stands for. */
  lemma FixedNames(n: Int32)
    ensures Name(n).None? <==> n == 0
    ensures (Name(n) == Some("running") <==> n == 1) && (Name(n) == Some("completed") <==> n == 2)
    ensures (Name(n) == Some("failed") <==> n == 3) && (Name(n) == Some("canceled") <==> n == 4)
    ensures (Name(n) == Some("terminated") <==> n == 5) && (Name(n) == Some("continued_as_new") <==> n == 6)
    ensures (Name(n) == Some("timed_out") <==> n == 7) && (Name(n) == Some("paused") <==> n == 8)
    ensures !(0 <= n <= 8) ==> Name(n) == Some("unknown_" + Text(n))
  {
    if !(0 <= n <= MAX_KNOWN_VISIBILITY_STATUS) {
      forall s <- FIXED_NAMES ensures Name(n) != Some(s) {
        FixedNamesAreNotPrefixed(s);
      }
    }
  }

  predicate Names(status: Int32, s: string) {
    status != 0 && Name(status) == Some(s)
  }

  /** A name is accepted iff it is "unspecified" or the name of a nonzero
      status, which is then the only one. */
  lemma AcceptedNames(s: string)
    ensures IsName(s) <==> s == "unspecified" || exists n: Int32 :: Names(n, s)
    ensures forall m: Int32, n: Int32 :: Names(m, s) && Names(n, s) ==> m == n
    ensures forall n: Int32 :: !Names(n, "unspecified")
  {
    if IsName(s) && s != "unspecified" {
      var n := NameHasStatus(s);
      assert Names(n, s);
    }
    forall n: Int32 | Names(n, s) ensures IsName(s) {
      StatusNameIsAccepted(n, s);
    }
    forall m: Int32, n: Int32 | Names(m, s) && Names(n, s) ensures m == n {
      NameIsInjective(m, n);
    }
    forall n: Int32 ensures !Names(n, "unspecified") {
      UnspecifiedNamesNothing(n);
    }
  }

  lemma UnspecifiedNamesNothing(n: Int32)
    ensures !Names(n, "unspecified")
  {
    FixedNamesAreNotPrefixed("unspecified");
    if !(0 <= n <= MAX_KNOWN_VISIBILITY_STATUS) {
      UnknownNames(n, "unspecified");
    }
  }

  lemma NameHasStatus(s: string) returns (n: Int32)
    requires IsName(s) && s != "unspecified"
    ensures Names(n, s)
  {
    if s in FIXED_NAMES {
      n := if s == "running" then 1 else if s == "completed" then 2 else if s == "failed" then 3
           else if s == "canceled" then 4 else if s == "terminated" then 5 else if s == "continued_as_new" then 6
           else if s == "timed_out" then 7 else 8;
    } else {
      n := Parse(s[|UNKNOWN_STATUS_PREFIX|..]).value;
      UnknownNames(n, s);
    }
  }

  lemma StatusNameIsAccepted(n: Int32, s: string)
    requires Names(n, s)
    ensures IsName(s)
  {
    if !(0 <= n <= MAX_KNOWN_VISIBILITY_STATUS) {
      UnknownNames(n, s);
      ParseInvertsText(n);
    }
  }
}
