/** Base64 with padding (sections 3.5 and 4 of RFC 4648): the encoding as a function. */
module Base64 {
  import opened Bytes

  type sextet = v: int | 0 <= v < 64

  function Symbol(v: sextet): char {
    if v < 26 then 'A' + v as char
    else if v < 52 then 'a' + (v - 26) as char
    else if v < 62 then '0' + (v - 52) as char
    else if v == 62 then '+' else '/'
  }

  const PAD := '='

  /** What a character stands for: a value below 64, -2 for padding, -1 for anything else. */
  function SymbolValue(c: char): (v: int)
    ensures -2 <= v < 64
  {
    if 'A' <= c <= 'Z' then c as int - 'A' as int
    else if 'a' <= c <= 'z' then c as int - 'a' as int + 26
    else if '0' <= c <= '9' then c as int - '0' as int + 52
    else if c == '+' then 62
    else if c == '/' then 63
    else if c == PAD then -2 else -1
  }

  lemma SymbolValues(v: sextet)
    ensures SymbolValue(Symbol(v)) == v && Symbol(v) != PAD
  {
  }

  lemma ValueSymbols(c: char)
    requires SymbolValue(c) >= 0
    ensures Symbol(SymbolValue(c)) == c
  {
  }

  function Three(a: byte, b: byte, c: byte): (r: seq<char>)
    ensures |r| == 4
  {
    [Symbol(a / 4), Symbol(a % 4 * 16 + b / 16), Symbol(b % 16 * 4 + c / 64), Symbol(c % 64)]
  }

  function Two(a: byte, b: byte): (r: seq<char>)
    ensures |r| == 4
  {
    [Symbol(a / 4), Symbol(a % 4 * 16 + b / 16), Symbol(b % 16 * 4), PAD]
  }

  function One(a: byte): (r: seq<char>)
    ensures |r| == 4
  {
    [Symbol(a / 4), Symbol(a % 4 * 16), PAD, PAD]
  }

  /** The four characters for the next one, two or three bytes. */
  function Group(s: seq<byte>): (r: seq<char>)
    requires s != []
    ensures |r| == 4
  {
    if |s| == 1 then One(s[0]) else if |s| == 2 then Two(s[0], s[1]) else Three(s[0], s[1], s[2])
  }

  function After(s: seq<byte>): (r: seq<byte>)
    ensures s != [] ==> |r| < |s|
  {
    if |s| <= 3 then [] else s[3..]
  }

  /** The canonical encoding. */
  function Encode(s: seq<byte>): (r: seq<char>)
    ensures |r| % 4 == 0
    ensures s != [] ==> |r| >= 4
    decreases |s|
  {
    if s == [] then [] else Group(s) + Encode(After(s))
  }

  predicate Whole(s: seq<byte>) { |s| % 3 == 0 }

  /** A group says which bytes it stands for. */
  lemma GroupUnique(s: seq<byte>, t: seq<byte>)
    requires s != [] && t != [] && Group(s) == Group(t)
    ensures if |s| >= 3 then |t| >= 3 && s[..3] == t[..3] else s == t
  {
    hide SymbolValue, Symbol, Values, Group, High, Middle, Low;
    var g, h := Values(s), Values(t);
    GroupSpelled(s);
    GroupSpelled(t);
    forall i | 0 <= i < 4 ensures g[i] == h[i] {
      assert Group(s)[i] == Group(t)[i];
      if g[i].Some? { SymbolValues(g[i].value); }
      if h[i].Some? { SymbolValues(h[i].value); }
    }
    assert g == h;
    Digits(s);
    Digits(t);
  }

  function High(v: sextet, w: sextet): byte { (v as int) * 4 + w / 16 }

  function Middle(v: sextet, w: sextet): byte { (v % 16) as int * 16 + w / 4 }

  function Low(v: sextet, w: sextet): byte { (v % 4) as int * 64 + w }

  /** The sextets of a group, and nothing where it is padded. */
  function Values(s: seq<byte>): (r: seq<Option<sextet>>)
    requires s != []
    ensures |r| == 4
  {
    var b := if |s| > 1 then s[1] else 0;
    var c := if |s| > 2 then s[2] else 0;
    [Some(s[0] / 4), Some(s[0] % 4 * 16 + b / 16),
     if |s| > 1 then Some(b % 16 * 4 + c / 64) else None, if |s| > 2 then Some(c % 64) else None]
  }

  lemma GroupSpelled(s: seq<byte>)
    requires s != []
    ensures Group(s) == Spelled(Values(s))
  {
  }

  function Spelled(values: seq<Option<sextet>>): seq<char> {
    seq(|values|, i requires 0 <= i < |values| => if values[i].Some? then Symbol(values[i].value) else PAD)
  }

  /** The sextets of a group give the bytes back. */
  lemma Digits(s: seq<byte>)
    requires s != []
    ensures var v := Values(s);
            && v[0].Some? && v[1].Some? && (v[2].Some? <==> |s| > 1) && (v[3].Some? <==> |s| > 2)
            && s[0] == High(v[0].value, v[1].value)
            && (|s| > 1 ==> s[1] == Middle(v[1].value, v[2].value))
            && (|s| > 2 ==> s[2] == Low(v[2].value, v[3].value))
  {
  }

  /** Different bytes have different encodings. */
  lemma {:induction false} EncodeUnique(s: seq<byte>, t: seq<byte>)
    requires Encode(s) == Encode(t)
    ensures s == t
    decreases |s|
  {
    hide Group;
    if s != [] && t != [] {
      assert Group(s) == Encode(s)[..4] == Encode(t)[..4] == Group(t);
      assert Encode(After(s)) == Encode(s)[4..] == Encode(t)[4..] == Encode(After(t));
      GroupUnique(s, t);
      EncodeUnique(After(s), After(t));
      assert |s| >= 3 ==> s == s[..3] + After(s) && t == t[..3] + After(t);
    }
  }

  /** Whole groups of three bytes are encoded side by side. */
  lemma {:induction false} EncodeAppend(s: seq<byte>, t: seq<byte>)
    requires Whole(s)
    ensures Encode(s + t) == Encode(s) + Encode(t)
    decreases |s|
  {
    hide Group, After;
    if s == [] {
      assert s + t == t;
    } else {
      AfterAppend(s, t);
      EncodeAppend(After(s), t);
      GroupStart(s, t);
      assert Group(s) + (Encode(After(s)) + Encode(t)) == Encode(s) + Encode(t);
    }
  }

  lemma AfterAppend(s: seq<byte>, t: seq<byte>)
    requires |s| >= 3
    ensures After(s + t) == After(s) + t && |After(s)| == |s| - 3
  {
  }

  lemma GroupStart(s: seq<byte>, t: seq<byte>)
    requires |s| >= 3
    ensures Group(s + t) == Group(s)
  {
  }

  /** An encoding that starts with whole groups is an encoding of bytes that start with them. */
  lemma {:induction false} EncodeStarts(s: seq<byte>, t: seq<byte>)
    requires Whole(s) && Encode(s) <= Encode(t)
    ensures s <= t && Encode(t)[|Encode(s)|..] == Encode(t[|s|..])
    decreases |s|
  {
    hide Group, After;
    if s == [] {
      assert t[|s|..] == t;
    } else {
      assert Group(s) == Encode(s)[..4] == Encode(t)[..4] == Group(t);
      var e, d := Encode(After(s)), Encode(After(t));
      assert e == Encode(s)[4..] <= Encode(t)[4..] == d;
      GroupUnique(s, t);
      AfterAppend(s, []);
      EncodeStarts(After(s), After(t));
      RejoinThree(s, t);
      assert Encode(t)[4 + |e|..] == d[|e|..];
    }
  }

  lemma RejoinThree(s: seq<byte>, t: seq<byte>)
    requires |s| >= 3 && |t| >= 3 && s[..3] == t[..3] && After(s) <= After(t)
    ensures s <= t && t[|s|..] == After(t)[|After(s)|..]
  {
    assert s == s[..3] + After(s) && t == t[..3] + After(t);
  }

  /** Nothing follows padding. */
  lemma {:induction false} PaddedEnds(s: seq<byte>, t: seq<byte>)
    requires !Whole(s) && Encode(s) <= Encode(t)
    ensures s == t
  {
    hide Group;
    assert Group(s) == Encode(s)[..4] == Encode(t)[..4] == Group(t);
    assert Encode(After(s)) == Encode(s)[4..] <= Encode(t)[4..] == Encode(After(t));
    GroupUnique(s, t);
    if |s| > 3 {
      PaddedEnds(After(s), After(t));
      assert s == s[..3] + After(s) && t == t[..3] + After(t);
    }
  }

  /** What has been decoded from the start of an encoding is the start of what it encodes. */
  lemma EncodePrefix(s: seq<byte>, t: seq<byte>)
    requires Encode(s) <= Encode(t)
    ensures s <= t
  {
    if Whole(s) { EncodeStarts(s, t); } else { PaddedEnds(s, t); }
  }

  lemma {:induction false} EncodedLength(s: seq<byte>)
    ensures |Encode(s)| == (|s| + 2) / 3 * 4
    decreases |s|
  {
    hide Group;
    if s != [] { EncodedLength(After(s)); }
  }

  /** Values of a quartet in progress, with padding counted as 0. */
  predicate Started(q: seq<sextet>, padding: nat) {
    && |q| <= 4 && padding <= 2
    && (padding > 0 ==> |q| >= 2 + padding && forall i :: |q| - padding <= i < |q| ==> q[i] == 0)
  }

  /** The characters of a quartet in progress. */
  function Chars(q: seq<sextet>, padding: nat): (r: seq<char>)
    ensures |r| == |q|
  {
    seq(|q|, i requires 0 <= i < |q| => if i < |q| - padding then Symbol(q[i]) else PAD)
  }

  /** The bytes of a full quartet. */
  function ThreeBytes(q: seq<sextet>): (r: seq<byte>)
    requires |q| == 4
    ensures |r| == 3
  {
    [High(q[0], q[1]), Middle(q[1], q[2]), Low(q[2], q[3])]
  }

  /** No bits are set that the padding cuts off. */
  predicate CleanPadding(q: seq<sextet>, padding: nat)
    requires |q| == 4
  {
    (padding == 2 ==> q[1] % 16 == 0) && (padding == 1 ==> q[2] % 4 == 0)
  }

  lemma QuartetIsGroup(q: seq<sextet>, padding: nat)
    requires Started(q, padding) && |q| == 4 && CleanPadding(q, padding)
    ensures Encode(ThreeBytes(q)[..3 - padding]) == Chars(q, padding)
  {
    hide Symbol, SymbolValue;
    var s := ThreeBytes(q)[..3 - padding];
    var v := Values(s);
    assert v[0].value == q[0] && v[1].value == q[1];
    assert padding < 2 ==> v[2].value == q[2];
    assert padding < 1 ==> v[3].value == q[3];
    GroupSpelled(s);
    assert Spelled(v) == Chars(q, padding);
    assert Encode(s) == Group(s) + Encode([]);
  }

  /** No group has padding that cuts off set bits. */
  lemma GroupIsClean(q: seq<sextet>, padding: nat, t: seq<byte>)
    requires Started(q, padding) && |q| == 4 && t != [] && Group(t) == Chars(q, padding)
    ensures CleanPadding(q, padding)
  {
    hide Symbol, SymbolValue;
    var v := Values(t);
    GroupSpelled(t);
    forall i | 0 <= i < 4 ensures v[i] == if i < 4 - padding then Some(q[i]) else None {
      assert Spelled(v)[i] == Chars(q, padding)[i];
      SymbolValues(q[i]);
      if v[i].Some? { SymbolValues(v[i].value); }
    }
    assert v[1] == Some(q[1]) && (v[2].None? <==> padding == 2);
    assert padding == 2 ==> q[1] == t[0] % 4 * 16;
    assert padding == 1 ==> v[2].Some? && v[3].None? && |t| == 2;
    assert padding == 1 ==> v[2] == Some(q[2]) && q[2] == t[1] % 16 * 4;
  }

  /** Where a group has padding: behind one character more than it has bytes. */
  lemma GroupPadding(t: seq<byte>, i: nat)
    requires t != [] && i < 4
    ensures Group(t)[i] == PAD <==> i > |t|
    ensures Group(t)[i] != PAD ==> SymbolValue(Group(t)[i]) >= 0
  {
    hide Symbol, SymbolValue;
    GroupSpelled(t);
    var v := Values(t)[i];
    if v.Some? { SymbolValues(v.value); }
  }

  predicate Extends(text: seq<char>, s: seq<byte>) { text <= Encode(s) }

  /** No canonical encoding starts like this. */
  ghost predicate NoEncoding(text: seq<char>) {
    forall s :: !Extends(text, s)
  }

  /** What an encoding has right behind whole groups is the group of what is left. */
  lemma NextGroup(done: seq<byte>, more: seq<char>, s: seq<byte>)
    requires Whole(done) && 0 < |more| <= 4 && Extends(Encode(done) + more, s)
    ensures done < s && more <= Group(s[|done|..])
  {
    hide Group, Encode;
    FrontOf(Encode(done), more, Encode(s));
    EncodeStarts(done, s);
    var t := s[|done|..];
    FirstGroup(t, more);
  }

  lemma FrontOf<T>(front: seq<T>, more: seq<T>, all: seq<T>)
    requires front + more <= all
    ensures front <= all && more <= all[|front|..]
  {
  }

  lemma FirstGroup(t: seq<byte>, more: seq<char>)
    requires more <= Encode(t) && 0 < |more| <= 4
    ensures t != [] && more <= Group(t)
  {
    hide Group;
  }

  /** The rules by which one more character is taken into a quartet. */
  predicate Fits(q: seq<sextet>, padding: nat, c: char) {
    if SymbolValue(c) == -2 then |q| >= 2 && padding != 2
    else SymbolValue(c) >= 0 && padding == 0
  }

  function Placed(q: seq<sextet>, c: char): seq<sextet> {
    q + [if SymbolValue(c) >= 0 then SymbolValue(c) else 0]
  }

  function PaddingWith(padding: nat, c: char): nat { if SymbolValue(c) == -2 then padding + 1 else padding }

  lemma PlacedChars(q: seq<sextet>, padding: nat, c: char)
    requires Started(q, padding) && |q| < 4 && Fits(q, padding, c)
    ensures Started(Placed(q, c), PaddingWith(padding, c))
    ensures Chars(Placed(q, c), PaddingWith(padding, c)) == Chars(q, padding) + [c]
  {
    hide Symbol, SymbolValue;
    if SymbolValue(c) >= 0 { ValueSymbols(c); } else { PadOnly(c); }
  }

  lemma PadOnly(c: char)
    ensures SymbolValue(c) == -2 <==> c == PAD
  {
  }

  /** The characters of a group all fit. */
  lemma GroupFits(t: seq<byte>, q: seq<sextet>, padding: nat, c: char)
    requires t != [] && Started(q, padding) && |q| < 4 && Chars(q, padding) + [c] <= Group(t)
    ensures Fits(q, padding, c)
  {
    hide Symbol, SymbolValue, Group;
    assert Group(t)[|q|] == c;
    PadOnly(c);
    GroupPadding(t, |q|);
    if padding > 0 {
      assert Group(t)[|q| - 1] == (Chars(q, padding) + [c])[|q| - 1];
      GroupPadding(t, |q| - 1);
    }
  }

  /** A character that does not fit ends every canonical encoding. */
  lemma MisfitEndsIt(done: seq<byte>, q: seq<sextet>, padding: nat, c: char)
    requires Whole(done) && Started(q, padding) && |q| < 4 && !Fits(q, padding, c)
    ensures NoEncoding(Encode(done) + Chars(q, padding) + [c])
  {
    hide Symbol, SymbolValue, Encode, Group, Fits;
    var more := Chars(q, padding) + [c];
    assert Encode(done) + Chars(q, padding) + [c] == Encode(done) + more;
    forall s ensures !Extends(Encode(done) + more, s) {
      if Extends(Encode(done) + more, s) {
        NextGroup(done, more, s);
        GroupFits(s[|done|..], q, padding, c);
        assert false;
      }
    }
  }

  lemma DirtyEndsIt(done: seq<byte>, q: seq<sextet>, padding: nat)
    requires Whole(done) && Started(q, padding) && |q| == 4 && !CleanPadding(q, padding)
    ensures NoEncoding(Encode(done) + Chars(q, padding))
  {
    hide Symbol, SymbolValue, Encode, Group;
    forall s ensures !Extends(Encode(done) + Chars(q, padding), s) {
      if Extends(Encode(done) + Chars(q, padding), s) {
        NextGroup(done, Chars(q, padding), s);
        GroupIsClean(q, padding, s[|done|..]);
        assert false;
      }
    }
  }

  lemma PaddedEndsIt(done: seq<byte>, c: char)
    requires !Whole(done)
    ensures NoEncoding(Encode(done) + [c])
  {
    forall s ensures !Extends(Encode(done) + [c], s) {
      if Extends(Encode(done) + [c], s) {
        assert Encode(done) <= Encode(s);
        PaddedEnds(done, s);
        assert false;
      }
    }
  }

  /** A quartet in progress is not a complete encoding. */
  lemma PartialIsNoEncoding(done: seq<byte>, q: seq<sextet>, padding: nat, s: seq<byte>)
    requires 0 < |q| < 4
    ensures Encode(done) + Chars(q, padding) != Encode(s)
  {
    hide Encode, Chars;
    NotWhole(|Encode(done)|, |q|, |Encode(s)|);
  }

  lemma NotWhole(a: nat, k: nat, b: nat)
    requires a % 4 == 0 == b % 4 && 0 < k < 4
    ensures a + k != b
  {
  }

  /** A complete quartet adds its bytes to what has been decoded. */
  lemma QuartetDecoded(done: seq<byte>, q: seq<sextet>, padding: nat)
    requires Whole(done) && Started(q, padding) && |q| == 4 && CleanPadding(q, padding)
    ensures var more := ThreeBytes(q)[..3 - padding];
            && Encode(done + more) == Encode(done) + Chars(q, padding)
            && (Whole(done + more) <==> padding == 0)
  {
    hide Encode, Chars, Whole, ThreeBytes, CleanPadding;
    var more := ThreeBytes(q)[..3 - padding];
    QuartetIsGroup(q, padding);
    EncodeAppend(done, more);
    WholeAppend(done, more);
    FewBytes(more, padding);
  }

  lemma FewBytes(more: seq<byte>, padding: nat)
    requires padding <= 2 && |more| == 3 - padding
    ensures Whole(more) <==> padding == 0
  {
  }

  lemma WholeAppend(s: seq<byte>, t: seq<byte>)
    requires Whole(s)
    ensures Whole(s + t) <==> Whole(t)
  {
  }

  /** The test vectors of section 10 of RFC 4648. */
  lemma TestVectors()
    ensures Encode([]) == "" && Encode([0x66]) == "Zg==" && Encode([0x66, 0x6F]) == "Zm8="
    ensures Encode([0x66, 0x6F, 0x6F, 0x62, 0x61, 0x72]) == "Zm9vYmFy"
  {
    var s: seq<byte> := [0x66, 0x6F, 0x6F, 0x62, 0x61, 0x72];
    assert After(s) == [0x62, 0x61, 0x72] && After(After(s)) == [];
    assert Group(s) == "Zm9v" && Group(After(s)) == "YmFy";
    assert After([0x66]) == [] && After([0x66, 0x6F]) == [];
  }
}
