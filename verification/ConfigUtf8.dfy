/** The check of texts, measured against the encoding of Unicode scalar values (section 3 of RFC 3629). */
module ConfigUtf8 {
  import opened Bytes
  import opened ConfigTypes

  predicate Scalar(p: nat) { p <= 0x10_FFFF && !(0xD800 <= p <= 0xDFFF) }

  function EncodePoint(p: nat): (r: seq<byte>)
    requires Scalar(p)
    ensures 1 <= |r| <= 4
  {
    if p < 0x80 then [p]
    else if p < 0x800 then [0xC0 + p / 0x40, 0x80 + p % 0x40]
    else if p < 0x1_0000 then [0xE0 + p / 0x1000, 0x80 + p / 0x40 % 0x40, 0x80 + p % 0x40]
    else [0xF0 + p / 0x4_0000, 0x80 + p / 0x1000 % 0x40, 0x80 + p / 0x40 % 0x40, 0x80 + p % 0x40]
  }

  function EncodePoints(ps: seq<nat>): seq<byte>
    requires forall p | p in ps :: Scalar(p)
  {
    if ps == [] then [] else EncodePoint(ps[0]) + EncodePoints(ps[1..])
  }

  /** How many bytes follow a first byte; it is none for one that cannot be first. */
  function Following(b: byte): nat {
    if b / 0x20 == 6 then 1 else if b / 0x10 == 14 then 2 else if b / 8 == 30 then 3 else 0
  }

  /** The first code point of a text that is not plain ASCII. */
  predicate FirstOk(s: text) {
    && s != [] && s[0] > 0x7F && Following(s[0]) != 0 && (Following(s[0]) == 1 ==> s[0] > 0xC1)
    && Following(s[0]) < |s| && (forall j :: 0 < j <= Following(s[0]) ==> Tail(s[j]))
    && CodePointOk(s[..Following(s[0]) + 1])
  }

  lemma {:induction false} FromThere(s: text, i: nat)
    requires i <= |s|
    ensures Utf8From(s, i) == Utf8From(s[i..], 0)
    decreases |s| - i
  {
    hide CodePointOk;
    var t := s[i..];
    if i < |s| {
      if s[i] <= 0x7F {
        FromThere(s, i + 1);
        FromThere(t, 1);
        assert t[1..] == s[i + 1..];
      } else {
        var n := Following(s[i]);
        if i + n < |s| {
          assert t[0..n + 1] == s[i..i + n + 1];
          FromThere(s, i + n + 1);
          if n > 0 || i > 0 { FromThere(t, n + 1); }
          assert t[n + 1..] == s[i + n + 1..];
          assert forall j :: 0 < j <= n ==> t[j] == s[i + j];
          TailsThere(s, i, n);
        }
      }
    }
  }

  lemma TailsThere(s: text, i: nat, n: nat)
    requires i + n < |s|
    ensures (forall j :: i < j <= i + n ==> Tail(s[j])) <==> (forall j :: 0 < j <= n ==> Tail(s[i..][j]))
  {
    if forall j :: 0 < j <= n ==> Tail(s[i..][j]) {
      forall j | i < j <= i + n ensures Tail(s[j]) { assert s[j] == s[i..][j - i]; }
    }
  }

  lemma Step(s: text)
    requires s != []
    ensures Utf8From(s, 0) <==>
      if s[0] <= 0x7F then Utf8From(s[1..], 0) else FirstOk(s) && Utf8From(s[Following(s[0]) + 1..], 0)
  {
    hide CodePointOk;
    if s[0] <= 0x7F {
      FromThere(s, 1);
    } else if FirstOk(s) {
      FromThere(s, Following(s[0]) + 1);
    }
  }

  lemma Quotients(p: nat)
    ensures p / 0x1000 == p / 0x40 / 0x40 && p / 0x4_0000 == p / 0x40 / 0x40 / 0x40
    ensures p == p / 0x40 * 0x40 + p % 0x40 && p / 0x40 == p / 0x1000 * 0x40 + p / 0x40 % 0x40
    ensures p / 0x1000 == p / 0x4_0000 * 0x40 + p / 0x1000 % 0x40
  {
  }

  lemma PointTaken(p: nat, rest: seq<byte>)
    requires Scalar(p) && p >= 0x80
    ensures var s := EncodePoint(p) + rest;
            FirstOk(s) && s[Following(s[0]) + 1..] == rest
  {
    Quotients(p);
    var e := EncodePoint(p);
    var s := e + rest;
    assert s[0] == e[0] && Following(s[0]) + 1 == |e| && s[..|e|] == e;
    forall j | 0 < j < |e| ensures Tail(s[j]) { assert s[j] == e[j]; }
  }

  /** The bytes of a code point put together. */
  function PointOf(s: text): nat
    requires 2 <= |s| <= 4
  {
    var n := |s| - 1;
    var lead: nat := if n == 1 then s[0] % 0x20 else if n == 2 then s[0] % 0x10 else s[0] % 8;
    var two := lead * 0x40 + s[1] % 0x40;
    if n == 1 then two else if n == 2 then two * 0x40 + s[2] % 0x40
    else (two * 0x40 + s[2] % 0x40) * 0x40 + s[3] % 0x40
  }

  lemma TwoBytes(a: nat, b: nat)
    requires b < 0x40
    ensures (a * 0x40 + b) / 0x40 == a && (a * 0x40 + b) % 0x40 == b
  {
  }

  lemma TwoFound(a: byte, b: byte)
    requires a / 0x20 == 6 && a > 0xC1 && Tail(b)
    ensures Scalar(PointOf([a, b])) && EncodePoint(PointOf([a, b])) == [a, b]
  {
    TwoBytes(a % 0x20, b % 0x40);
  }

  lemma ThreeFound(a: byte, b: byte, c: byte)
    requires a / 0x10 == 14 && Tail(b) && Tail(c) && CodePointOk([a, b, c])
    ensures Scalar(PointOf([a, b, c])) && EncodePoint(PointOf([a, b, c])) == [a, b, c]
  {
    var two := (a % 0x10) as int * 0x40 + b % 0x40;
    TwoBytes(a % 0x10, b % 0x40);
    TwoBytes(two, c % 0x40);
    Quotients(PointOf([a, b, c]));
  }

  lemma FourFound(a: byte, b: byte, c: byte, d: byte)
    requires a / 8 == 30 && Tail(b) && Tail(c) && Tail(d) && CodePointOk([a, b, c, d])
    ensures Scalar(PointOf([a, b, c, d])) && EncodePoint(PointOf([a, b, c, d])) == [a, b, c, d]
  {
    var two := (a % 8) as int * 0x40 + b % 0x40;
    TwoBytes(a % 8, b % 0x40);
    TwoBytes(two, c % 0x40);
    TwoBytes(two * 0x40 + c % 0x40, d % 0x40);
    Quotients(PointOf([a, b, c, d]));
  }

  lemma FirstFits(s: text)
    requires FirstOk(s)
    ensures 2 <= Following(s[0]) + 1 <= 4 && Following(s[0]) + 1 <= |s|
  {
  }

  lemma PointFound(s: text)
    requires FirstOk(s)
    ensures Following(s[0]) < |s|
    ensures var e := s[..Following(s[0]) + 1]; 2 <= |e| <= 4 && Scalar(PointOf(e)) && EncodePoint(PointOf(e)) == e
  {
    hide EncodePoint, PointOf, Scalar, CodePointOk, Tail;
    var n := Following(s[0]);
    var e := s[..n + 1];
    assert Tail(s[1]) && (n > 1 ==> Tail(s[2])) && (n > 2 ==> Tail(s[3]));
    if n == 1 {
      assert e == [s[0], s[1]];
      TwoFound(s[0], s[1]);
    } else if n == 2 {
      assert e == [s[0], s[1], s[2]];
      ThreeFound(s[0], s[1], s[2]);
    } else {
      assert e == [s[0], s[1], s[2], s[3]];
      FourFound(s[0], s[1], s[2], s[3]);
    }
  }

  lemma {:induction false} EncodedIsValid(ps: seq<nat>)
    requires forall p | p in ps :: Scalar(p)
    ensures Utf8From(EncodePoints(ps), 0)
  {
    hide FirstOk, Utf8From, EncodePoint;
    if ps == [] {
      NothingValid();
    } else {
      var rest := EncodePoints(ps[1..]);
      EncodedIsValid(ps[1..]);
      Step(EncodePoint(ps[0]) + rest);
      if ps[0] < 0x80 { PlainTaken(ps[0], rest); } else { PointTaken(ps[0], rest); }
    }
  }

  lemma NothingValid()
    ensures Utf8From([], 0)
  {
  }

  lemma PlainTaken(p: nat, rest: seq<byte>)
    requires p < 0x80
    ensures Scalar(p) && EncodePoint(p) == [p] && (EncodePoint(p) + rest)[1..] == rest
  {
  }

  lemma {:induction false} ValidIsEncoded(s: text) returns (ps: seq<nat>)
    requires Utf8From(s, 0)
    ensures (forall p | p in ps :: Scalar(p)) && EncodePoints(ps) == s
    decreases |s|
  {
    hide FirstOk, Utf8From, EncodePoint, Scalar;
    if s == [] { return []; }
    Step(s);
    var n, p := 0, s[0] as nat;
    if s[0] <= 0x7F {
      PlainTaken(s[0], s[1..]);
    } else {
      FirstFits(s);
      PointFound(s);
      n, p := Following(s[0]), PointOf(s[..Following(s[0]) + 1]);
    }
    var more := ValidIsEncoded(s[n + 1..]);
    ps := [p] + more;
    assert ps[1..] == more;
    assert s == s[..n + 1] + s[n + 1..];
    assert EncodePoint(p) == s[..n + 1];
  }

  /** A text passes the check if and only if it is the encoding of some Unicode scalar values. */
  lemma Utf8Means(s: text)
    ensures Utf8From(s, 0) <==> exists ps: seq<nat> :: (forall p | p in ps :: Scalar(p)) && EncodePoints(ps) == s
  {
    hide Utf8From, EncodePoints, Scalar;
    if Utf8From(s, 0) { var ps := ValidIsEncoded(s); }
    if exists ps: seq<nat> :: (forall p | p in ps :: Scalar(p)) && EncodePoints(ps) == s {
      var ps: seq<nat> :| (forall p | p in ps :: Scalar(p)) && EncodePoints(ps) == s;
      EncodedIsValid(ps);
    }
  }
}
