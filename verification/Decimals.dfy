/** Numbers in decimal digits, as they are printed and read back. */
module Decimals {
  import opened Bytes

  const ZERO: byte := '0' as int
  const MINUS: byte := '-' as int
  const PLUS: byte := '+' as int

  predicate DigitByte(b: byte) { '0' as int <= b <= '9' as int }

  function DigitValue(b: byte): (r: nat)
    requires DigitByte(b)
    ensures r < 10
  {
    b - '0' as int
  }

  predicate AllDigits(s: seq<byte>) { forall b | b in s :: DigitByte(b) }

  function Decimal(s: seq<byte>): nat
    requires AllDigits(s)
  {
    if s == [] then 0 else
      assert s[|s| - 1] in s;
      Decimal(s[..|s| - 1]) * 10 + DigitValue(s[|s| - 1])
  }

  function Printed(n: nat): (r: seq<byte>)
    ensures r != [] && AllDigits(r)
  {
    if n < 10 then [ZERO + n] else Printed(n / 10) + [ZERO + n % 10]
  }

  lemma {:induction false} PrintedBack(n: nat)
    ensures Decimal(Printed(n)) == n
  {
    if n < 10 {
      assert Printed(n)[..0] == [];
    } else {
      PrintedBack(n / 10);
      assert Printed(n)[..|Printed(n)| - 1] == Printed(n / 10);
    }
  }

  /** As `%d` prints it. */
  function PrintedInt(n: int): seq<byte> { if n < 0 then [MINUS] + Printed(-n) else Printed(n) }

  predicate Space(b: byte) { b == 0x20 || 9 <= b <= 13 }

  function SkipSpaces(s: seq<byte>): (r: seq<byte>)
    ensures |r| <= |s|
  {
    if s != [] && Space(s[0]) then SkipSpaces(s[1..]) else s
  }

  function LeadingDigits(s: seq<byte>): (n: nat)
    ensures n <= |s| && AllDigits(s[..n])
  {
    if s != [] && DigitByte(s[0]) then
      var n := LeadingDigits(s[1..]);
      assert s[..n + 1] == [s[0]] + s[1..][..n];
      n + 1
    else 0
  }

  /** A text ends for C where its first NUL is. */
  function BeforeNul(s: seq<byte>): seq<byte> { if s == [] || s[0] == 0 then [] else [s[0]] + BeforeNul(s[1..]) }

  /** `parse_int_strict`: spaces, a sign, digits, spaces, and nothing else; and in the range of an int. */
  function ParseInt(value: seq<byte>): (r: Option<int>)
    ensures r.Some? ==> -0x8000_0000 <= r.value <= 0x7FFF_FFFF
  {
    var s := SkipSpaces(BeforeNul(value));
    if s == [] then None else
      var negative, signed := s[0] == MINUS, s[0] == MINUS || s[0] == PLUS;
      var t := if signed then s[1..] else s;
      var n := LeadingDigits(t);
      var number := Decimal(t[..n]);
      var result: int := if negative then -(number as int) else number;
      if n == 0 || !(-0x8000_0000 <= result <= 0x7FFF_FFFF) || SkipSpaces(t[n..]) != [] then None else Some(result)
  }

  /** `parse_u32_strict`: without a sign. */
  function ParseWord(value: seq<byte>): Option<u32> {
    var s := SkipSpaces(BeforeNul(value));
    var n := LeadingDigits(s);
    var number := Decimal(s[..n]);
    if n == 0 || number > 0xFFFF_FFFF || SkipSpaces(s[n..]) != [] then None else Some(number)
  }

  lemma {:induction false} DigitsAreAll(s: seq<byte>)
    requires AllDigits(s)
    ensures LeadingDigits(s) == |s| && BeforeNul(s) == s && SkipSpaces(s) == s
  {
    if s != [] {
      assert s[0] in s;
      assert forall b | b in s[1..] :: b in s;
      DigitsAreAll(s[1..]);
    }
  }

  lemma IntBack(n: int)
    requires -0x8000_0000 <= n <= 0x7FFF_FFFF
    ensures ParseInt(PrintedInt(n)) == Some(n)
  {
    hide Printed, Decimal, LeadingDigits, BeforeNul;
    var digits := Printed(if n < 0 then -n else n);
    DigitsAreAll(digits);
    PrintedBack(if n < 0 then -n else n);
    assert digits[..|digits|] == digits && digits[|digits|..] == [];
    assert digits[0] in digits;
    if n < 0 {
      SignedText(digits);
      assert ([MINUS] + digits)[1..] == digits;
    }
  }

  lemma SignedText(digits: seq<byte>)
    requires BeforeNul(digits) == digits
    ensures BeforeNul([MINUS] + digits) == [MINUS] + digits && SkipSpaces([MINUS] + digits) == [MINUS] + digits
  {
    assert ([MINUS] + digits)[1..] == digits;
  }

  lemma WordBack(n: u32)
    ensures ParseWord(Printed(n)) == Some(n)
  {
    var digits := Printed(n);
    DigitsAreAll(digits);
    PrintedBack(n);
    assert digits[..|digits|] == digits && digits[|digits|..] == [];
  }

  method PastSpaces(s: seq<byte>, from: nat) returns (p: nat)
    requires from <= |s|
    ensures from <= p <= |s| && s[p..] == SkipSpaces(s[from..])
  {
    p := from;
    while p < |s| && Space(s[p])
      invariant from <= p <= |s| && SkipSpaces(s[p..]) == SkipSpaces(s[from..])
    {
      assert s[p..][1..] == s[p + 1..];
      p := p + 1;
    }
  }

  /** The value of the digits from `start` on, as long as it does not leave the range of a word. */
  method ReadDigits(s: seq<byte>, start: nat) returns (ok: bool, p: nat, parsed: nat)
    requires start <= |s|
    ensures ok <==> Decimal(s[start..][..LeadingDigits(s[start..])]) <= 0xFFFF_FFFF
    ensures ok ==> p == start + LeadingDigits(s[start..]) && parsed == Decimal(s[start..][..LeadingDigits(s[start..])])
  {
    hide Decimal;
    p, parsed := start, 0;
    ghost var t, n := s[start..], LeadingDigits(s[start..]);
    NoDigits();
    assert t[..0] == [];
    while p < |s| && DigitByte(s[p])
      invariant start <= p <= |s| && n == (p - start) + LeadingDigits(s[p..]) && AllDigits(t[..p - start])
      invariant parsed == Decimal(t[..p - start]) <= 0xFFFF_FFFF
    {
      OneMoreDigit(t, p - start);
      assert s[p..][1..] == s[p + 1..];
      parsed := parsed * 10 + DigitValue(s[p]);
      if parsed > 0xFFFF_FFFF {
        DecimalGrows(t, p + 1 - start, n);
        return false, p, parsed;
      }
      p := p + 1;
    }
    ok := true;
  }

  /** The loops of `parse_u32_strict`. */
  method ParseU32Strict(value: seq<byte>) returns (r: Option<u32>)
    ensures r == ParseWord(value)
  {
    hide Decimal, LeadingDigits, SkipSpaces, BeforeNul, AllDigits;
    var s := BeforeNul(value);
    var start := PastSpaces(s, 0);
    assert s[0..] == s;
    FirstDigit(s[start..]);
    if start == |s| || !DigitByte(s[start]) { return None; }
    var ok, p, parsed := ReadDigits(s, start);
    if !ok { return None; }
    assert s[start..][p - start..] == s[p..];
    var end := PastSpaces(s, p);
    return if end < |s| then None else Some(parsed);
  }

  lemma FirstDigit(s: seq<byte>)
    ensures LeadingDigits(s) == 0 <==> s == [] || !DigitByte(s[0])
  {
  }

  lemma NoDigits()
    ensures Decimal([]) == 0
  {
  }

  lemma OneMoreDigit(t: seq<byte>, n: nat)
    requires n < |t| && AllDigits(t[..n]) && DigitByte(t[n])
    ensures AllDigits(t[..n + 1]) && Decimal(t[..n + 1]) == Decimal(t[..n]) * 10 + DigitValue(t[n])
  {
    assert t[..n + 1][..n] == t[..n];
    assert t[..n + 1] == t[..n] + [t[n]];
  }

  lemma {:induction false} DecimalGrows(t: seq<byte>, m: nat, n: nat)
    requires m <= n <= |t| && AllDigits(t[..n])
    ensures AllDigits(t[..m]) && Decimal(t[..m]) <= Decimal(t[..n])
    decreases n
  {
    assert forall b | b in t[..m] :: b in t[..n];
    if m < n {
      assert t[..n][..n - 1] == t[..n - 1];
      assert forall b | b in t[..n - 1] :: b in t[..n];
      DecimalGrows(t, m, n - 1);
    }
  }
}
