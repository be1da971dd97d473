/**
 * BER-TLV parsing and building. The parser follows the firmware: a cursor over the
 * response, and recursion into constructed values. `Wire` is the reference it is
 * measured against: a syntax tree that keeps the length octets as they were sent.
 */
module Tlv {
  import opened Bytes

  const RESPONSE_MAX := 16 * 1024
  const MAX_DEPTH := 8

  /** What the parser hands out: raw value, and the children of a constructed value. */
  datatype Node = Node(tag: seq<byte>, constructed: bool, value: seq<byte>, children: seq<Node>)

  datatype Span = Span(offset: nat, tagLength: nat, valueOffset: nat, valueLength: nat) {
    function End(): nat { valueOffset + valueLength }
    function EncodedLength(): int { valueOffset + valueLength - offset }
  }

  datatype Wire =
    | Leaf(tag: seq<byte>, lengthField: seq<byte>, content: seq<byte>)
    | Nest(tag: seq<byte>, lengthField: seq<byte>, children: seq<Wire>)

  predicate IsConstructed(first: byte) { first / 0x20 % 2 == 1 }

  /** The length of the tag at the start of `s`; 0 when there is no complete tag. */
  function TagLength(s: seq<byte>): (n: nat)
    ensures n <= |s|
  {
    if s == [] then 0 else if s[0] % 0x20 != 0x1F then 1 else LongTag(s, 1)
  }

  function LongTag(s: seq<byte>, i: nat): (n: nat)
    requires i <= |s|
    ensures n <= |s| && (n > 0 ==> n > i)
    decreases |s| - i
  {
    if i == |s| then 0 else if s[i] < 0x80 then i + 1 else LongTag(s, i + 1)
  }

  predicate CompleteTag(tag: seq<byte>) { tag != [] && TagLength(tag) == |tag| }

  /** How many octets the length field takes; 0 for a form that is not supported. */
  function LengthFieldSize(first: byte): nat {
    if first < 0x80 then 1 else if 0x81 <= first <= 0x83 then first - 0x7F else 0
  }

  function LengthValue(field: seq<byte>): nat
    requires field != []
  {
    if field[0] < 0x80 then field[0] else BigEndian(field[1..])
  }

  predicate IsLengthField(field: seq<byte>, n: nat) {
    field != [] && LengthFieldSize(field[0]) == |field| && LengthValue(field) == n
  }

  /** The boundaries of the TLV at the start of `s`, as an offset-0 span. */
  function Boundaries(s: seq<byte>): (r: Option<Span>)
    ensures r.Some? ==> 0 == r.value.offset < r.value.tagLength < r.value.valueOffset <= r.value.End() <= |s|
  {
    var t := TagLength(s);
    if t == 0 || t == |s| then None else
      var k := LengthFieldSize(s[t]);
      if k == 0 || k > |s| - t then None else
        var n := LengthValue(s[t..t + k]);
        if n > |s| - t - k then None else Some(Span(0, t, t + k, n))
  }

  function Encode(w: Wire): seq<byte>
    decreases w, 1
  {
    w.tag + w.lengthField + Value(w)
  }

  function Value(w: Wire): seq<byte>
    decreases w, 0
  {
    match w case Leaf(_, _, v) => v case Nest(_, _, ws) => EncodeAll(ws)
  }

  function EncodeAll(ws: seq<Wire>): seq<byte> {
    if ws == [] then [] else Encode(ws[0]) + EncodeAll(ws[1..])
  }

  /** A correctly framed tree: complete tags, true lengths, no more than `levels` deep. */
  predicate WellFormed(w: Wire, levels: nat) {
    && levels > 0
    && CompleteTag(w.tag)
    && IsLengthField(w.lengthField, |Value(w)|)
    && (w.Nest? <==> IsConstructed(w.tag[0]))
    && (w.Nest? ==> forall c | c in w.children :: WellFormed(c, levels - 1))
  }

  function Tree(w: Wire): Node {
    match w
    case Leaf(t, _, v) => Node(t, false, v, [])
    case Nest(t, _, ws) => Node(t, true, EncodeAll(ws), seq(|ws|, i requires 0 <= i < |ws| => Tree(ws[i])))
  }

  /** The tree at the start of `s`, read with `levels` levels of nesting to spare. */
  function Parse(s: seq<byte>, levels: nat): (r: Option<Wire>)
    decreases levels, |s|, 1
  {
    if levels == 0 || Boundaries(s).None? then None else
      var b := Boundaries(s).value;
      ParseBody(s[..b.tagLength], s[b.tagLength..b.valueOffset], s[b.valueOffset..b.End()], levels)
  }

  function ParseBody(tag: seq<byte>, field: seq<byte>, value: seq<byte>, levels: nat): (r: Option<Wire>)
    requires tag != [] && levels > 0
    decreases levels, 0
  {
    if !IsConstructed(tag[0]) then Some(Leaf(tag, field, value)) else
      match ParseAll(value, levels - 1)
      case None => None
      case Some(ws) => Some(Nest(tag, field, ws))
  }

  function ParseAll(s: seq<byte>, levels: nat): (r: Option<seq<Wire>>)
    decreases levels, |s|, 2
  {
    if s == [] then Some([]) else
      match Parse(s, levels)
      case None => None
      case Some(w) =>
        var b := Boundaries(s).value;
        match ParseAll(s[b.End()..], levels)
        case None => None
        case Some(ws) => Some([w] + ws)
  }

  // ----- what was parsed is what was there -----

  lemma TagLengthOfPrefix(s: seq<byte>, i: nat)
    requires 1 <= i <= |s| && s[0] % 0x20 == 0x1F
    requires LongTag(s, i) > 0
    ensures LongTag(s[..LongTag(s, i)], i) == LongTag(s, i)
    decreases |s| - i
  {
    if s[i] >= 0x80 { TagLengthOfPrefix(s, i + 1); }
  }

  lemma BoundariesAreExact(s: seq<byte>)
    requires Boundaries(s).Some?
    ensures var b := Boundaries(s).value;
            && CompleteTag(s[..b.tagLength])
            && IsLengthField(s[b.tagLength..b.valueOffset], b.valueLength)
  {
    if s[0] % 0x20 == 0x1F { TagLengthOfPrefix(s, 1); }
  }

  lemma {:induction false} ParsedBytes(s: seq<byte>, levels: nat)
    requires Parse(s, levels).Some?
    ensures var w, b := Parse(s, levels).value, Boundaries(s).value;
            && WellFormed(w, levels)
            && Encode(w) == s[..b.End()] && |Value(w)| == b.valueLength
    decreases levels, |s|, 0
  {
    var w, b := Parse(s, levels).value, Boundaries(s).value;
    BoundariesAreExact(s);
    var value := s[b.valueOffset..b.End()];
    if w.Nest? {
      ParsedAllBytes(value, levels - 1);
    }
    assert Value(w) == value;
    assert s[..b.End()] == s[..b.tagLength] + s[b.tagLength..b.valueOffset] + value;
  }

  /** The children of a constructed value cover it from end to end. */
  lemma {:induction false} ParsedAllBytes(s: seq<byte>, levels: nat)
    requires ParseAll(s, levels).Some?
    ensures EncodeAll(ParseAll(s, levels).value) == s
    ensures forall w | w in ParseAll(s, levels).value :: WellFormed(w, levels)
    decreases levels, |s|, 1
  {
    if s != [] {
      var b := Boundaries(s).value;
      ParsedBytes(s, levels);
      ParsedAllBytes(s[b.End()..], levels);
      assert s == s[..b.End()] + s[b.End()..];
    }
  }

  // ----- everything correctly framed is parsed -----

  lemma LongTagExtends(tag: seq<byte>, rest: seq<byte>, i: nat)
    requires i <= |tag| && LongTag(tag, i) == |tag| > 0
    ensures LongTag(tag + rest, i) == |tag|
    decreases |tag| - i
  {
    if i < |tag| && tag[i] >= 0x80 { LongTagExtends(tag, rest, i + 1); }
  }

  lemma FramedBoundaries(tag: seq<byte>, field: seq<byte>, value: seq<byte>, rest: seq<byte>)
    requires CompleteTag(tag) && IsLengthField(field, |value|)
    ensures Boundaries(tag + field + value + rest) == Some(Span(0, |tag|, |tag| + |field|, |value|))
  {
    var s := tag + field + value + rest;
    if tag[0] % 0x20 == 0x1F {
      LongTagExtends(tag, field + value + rest, 1);
      assert s == tag + (field + value + rest);
    }
    assert s[|tag|..|tag| + |field|] == field;
  }

  lemma {:induction false} FramedIsParsed(w: Wire, rest: seq<byte>, levels: nat)
    requires WellFormed(w, levels)
    ensures Parse(Encode(w) + rest, levels) == Some(w)
    ensures Boundaries(Encode(w) + rest) == Some(Span(0, |w.tag|, |w.tag| + |w.lengthField|, |Value(w)|))
    decreases w, 0
  {
    var s, v := Encode(w) + rest, Value(w);
    FramedBoundaries(w.tag, w.lengthField, v, rest);
    assert s == w.tag + w.lengthField + v + rest;
    var b := Boundaries(s).value;
    assert s[..b.tagLength] == w.tag && s[b.tagLength..b.valueOffset] == w.lengthField;
    assert s[b.valueOffset..b.End()] == v;
    if w.Nest? {
      FramedListIsParsed(w.children, levels - 1);
    }
  }

  lemma {:induction false} FramedListIsParsed(ws: seq<Wire>, levels: nat)
    requires forall w | w in ws :: WellFormed(w, levels)
    ensures ParseAll(EncodeAll(ws), levels) == Some(ws)
    decreases ws
  {
    if ws != [] {
      var w, s := ws[0], EncodeAll(ws);
      FramedIsParsed(w, EncodeAll(ws[1..]), levels);
      FramedListIsParsed(ws[1..], levels);
      assert |Encode(w)| == Boundaries(s).value.End();
      assert s[|Encode(w)|..] == EncodeAll(ws[1..]);
      assert s != [];
      assert ws == [w] + ws[1..];
    }
  }

  /**
   * The parser accepts exactly the correctly framed trees: it reads a tree from `s`
   * if and only if `s` starts with the bytes of that tree.
   */
  lemma ParseIsExact(s: seq<byte>, w: Wire, levels: nat)
    ensures Parse(s, levels) == Some(w) <==> WellFormed(w, levels) && Encode(w) <= s
  {
    if Parse(s, levels) == Some(w) { ParsedBytes(s, levels); }
    if WellFormed(w, levels) && Encode(w) <= s {
      FramedIsParsed(w, s[|Encode(w)|..], levels);
      assert s == Encode(w) + s[|Encode(w)|..];
    }
  }

  // ----- what a node says of the bytes -----

  /** The nodes, one behind the other: of each its tag, a length field of its value, and that value. */
  ghost predicate Tiles(s: seq<byte>, ns: seq<Node>)
    decreases |ns|
  {
    if ns == [] then s == [] else
      exists field, rest :: StartsWith(s, ns[0], field, rest) && Tiles(rest, ns[1..])
  }

  predicate StartsWith(s: seq<byte>, n: Node, field: seq<byte>, rest: seq<byte>) {
    IsLengthField(field, |n.value|) && s == n.tag + field + n.value + rest
  }

  /** At any depth: the children of a constructed node tile its value, and a primitive one has none. */
  ghost predicate Sound(n: Node, levels: nat) {
    && levels > 0 && CompleteTag(n.tag) && n.constructed == IsConstructed(n.tag[0])
    && (if n.constructed then Tiles(n.value, n.children) else n.children == [])
    && (forall c | c in n.children :: Sound(c, levels - 1))
  }

  ghost predicate AllSound(ns: seq<Node>, levels: nat) { forall n | n in ns :: Sound(n, levels) }

  function Trees(ws: seq<Wire>): (r: seq<Node>)
    ensures |r| == |ws|
  {
    seq(|ws|, i requires 0 <= i < |ws| => Tree(ws[i]))
  }

  lemma {:induction false} TreeIsSound(w: Wire, levels: nat)
    requires WellFormed(w, levels)
    ensures Sound(Tree(w), levels) && Tree(w).tag == w.tag && Tree(w).value == Value(w)
    decreases w, 0
  {
    if w.Nest? { TreesTile(w.children, levels - 1); }
  }

  lemma {:induction false} TreesTile(ws: seq<Wire>, levels: nat)
    requires forall w | w in ws :: WellFormed(w, levels)
    ensures Tiles(EncodeAll(ws), Trees(ws)) && AllSound(Trees(ws), levels)
    decreases ws
  {
    hide WellFormed, CompleteTag, IsLengthField, Sound;
    if ws != [] {
      var w, rest := ws[0], EncodeAll(ws[1..]);
      TreeIsSound(w, levels);
      TreesTile(ws[1..], levels);
      assert Trees(ws) == [Tree(w)] + Trees(ws[1..]);
      TileOne(w, levels, rest);
      TilesOn(EncodeAll(ws), Tree(w), w.lengthField, rest, Trees(ws[1..]));
    }
  }

  lemma TilesOn(s: seq<byte>, n: Node, field: seq<byte>, rest: seq<byte>, more: seq<Node>)
    requires StartsWith(s, n, field, rest) && Tiles(rest, more)
    ensures Tiles(s, [n] + more)
  {
    hide StartsWith;
    var ns := [n] + more;
    assert ns[0] == n && ns[1..] == more;
    assert StartsWith(s, ns[0], field, rest) && Tiles(rest, ns[1..]);
  }

  lemma TileOne(w: Wire, levels: nat, rest: seq<byte>)
    requires WellFormed(w, levels)
    ensures StartsWith(Encode(w) + rest, Tree(w), w.lengthField, rest)
  {
  }

  /** Sound nodes that tile some bytes come from a correctly framed tree, which spells those bytes. */
  lemma {:induction false} SoundIsFramed(s: seq<byte>, n: Node, field: seq<byte>, rest: seq<byte>, levels: nat)
    returns (w: Wire)
    requires Sound(n, levels) && StartsWith(s, n, field, rest)
    ensures WellFormed(w, levels) && Tree(w) == n && s == Encode(w) + rest
    decreases n, 0
  {
    hide CompleteTag, IsLengthField;
    if n.constructed {
      var ws := SoundAreFramed(n.value, n.children, levels - 1);
      w := Nest(n.tag, field, ws);
      assert n.children == Trees(ws);
    } else {
      w := Leaf(n.tag, field, n.value);
    }
  }

  lemma {:induction false} SoundAreFramed(s: seq<byte>, ns: seq<Node>, levels: nat) returns (ws: seq<Wire>)
    requires AllSound(ns, levels) && Tiles(s, ns)
    ensures EncodeAll(ws) == s && Trees(ws) == ns && forall w | w in ws :: WellFormed(w, levels)
    decreases ns
  {
    hide Sound, StartsWith, WellFormed;
    if ns == [] {
      ws := [];
    } else {
      var field, rest :| StartsWith(s, ns[0], field, rest) && Tiles(rest, ns[1..]);
      var w := SoundIsFramed(s, ns[0], field, rest, levels);
      var more := SoundAreFramed(rest, ns[1..], levels);
      ws := [w] + more;
      assert ws[1..] == more && ns == [ns[0]] + ns[1..];
      assert Trees(ws) == [Tree(w)] + Trees(more);
    }
  }

  /** No bytes are tiled in two ways. */
  lemma TiledOnce(s: seq<byte>, ns: seq<Node>, levels: nat)
    requires AllSound(ns, levels) && Tiles(s, ns)
    ensures ParseAll(s, levels).Some? && ns == Trees(ParseAll(s, levels).value)
  {
    hide Sound, Tiles;
    var ws := SoundAreFramed(s, ns, levels);
    FramedListIsParsed(ws, levels);
  }

  /** What the parser makes of a list is what the list is tiled with. */
  lemma ParsedTiles(s: seq<byte>, levels: nat)
    requires ParseAll(s, levels).Some?
    ensures Tiles(s, Trees(ParseAll(s, levels).value)) && AllSound(Trees(ParseAll(s, levels).value), levels)
  {
    hide Sound, Tiles;
    ParsedAllBytes(s, levels);
    TreesTile(ParseAll(s, levels).value, levels);
  }

  /** A tag is one byte, or goes on up to the first byte below 0x80. */
  lemma CompleteTagMeans(tag: seq<byte>)
    ensures CompleteTag(tag) <==>
      && tag != []
      && (if tag[0] % 0x20 != 0x1F then |tag| == 1
          else |tag| > 1 && tag[|tag| - 1] < 0x80 && forall i | 1 <= i < |tag| - 1 :: tag[i] >= 0x80)
  {
    if tag != [] && tag[0] % 0x20 == 0x1F { LongTagMeans(tag, 1); }
  }

  lemma LongTagMeans(tag: seq<byte>, i: nat)
    requires 1 <= i <= |tag|
    ensures LongTag(tag, i) == |tag| <==>
      |tag| > i && tag[|tag| - 1] < 0x80 && forall k | i <= k < |tag| - 1 :: tag[k] >= 0x80
    decreases |tag| - i
  {
    if i < |tag| && tag[i] >= 0x80 { LongTagMeans(tag, i + 1); }
  }

  /** A length is one byte below 0x80, or a count of one to three bytes and those. */
  lemma LengthFieldMeans(field: seq<byte>, n: nat)
    ensures IsLengthField(field, n) <==>
      || (|field| == 1 && field[0] == n < 0x80)
      || (2 <= |field| <= 4 && field[0] == 0x7F + |field| && n == BigEndian(field[1..]))
  {
  }

  // ----- building -----

  function LengthOctets(n: nat): seq<byte> {
    if n < 0x80 then [n]
    else if n <= 0xFF then [0x81, n]
    else [0x82, n / 0x100 % 0x100, n % 0x100]
  }

  /** The length octets are right exactly up to 65535; above that the high bits are lost. */
  lemma LengthOctetsAreRight(n: nat)
    ensures IsLengthField(LengthOctets(n), n) <==> n <= 0xFFFF
  {
    var f := LengthOctets(n);
    var d := f[1..];
    assert n > 0xFF ==> d[..1][..0] == [] && d[..1] == [n / 0x100 % 0x100];
    assert n <= 0xFF ==> |f| == 2 ==> d[..0] == [];
    assert BigEndian([]) == 0;
    if n > 0xFF {
      assert BigEndian(d[..1]) == n / 0x100 % 0x100;
      assert BigEndian(d) == (n / 0x100 % 0x100) * 0x100 + n % 0x100;
    }
  }

  /** A tree built with `AppendTlv` alone. */
  predicate Built(w: Wire) {
    && w.lengthField == LengthOctets(|Value(w)|)
    && (w.Nest? ==> forall c | c in w.children :: Built(c))
  }

  /** Tags that say what they hold, and no more than `levels` of nesting. */
  predicate TaggedTree(w: Wire, levels: nat) {
    && levels > 0 && CompleteTag(w.tag)
    && (w.Nest? <==> IsConstructed(w.tag[0]))
    && (w.Nest? ==> forall c | c in w.children :: TaggedTree(c, levels - 1))
  }

  lemma {:induction false} ChildFits(ws: seq<Wire>, i: nat)
    requires i < |ws|
    ensures |Encode(ws[i])| <= |EncodeAll(ws)|
  {
    if i > 0 { ChildFits(ws[1..], i - 1); }
  }

  lemma {:induction false} BuiltIsWellFormed(w: Wire, levels: nat)
    requires Built(w) && TaggedTree(w, levels) && |Value(w)| <= 0xFFFF
    ensures WellFormed(w, levels)
    decreases w
  {
    LengthOctetsAreRight(|Value(w)|);
    if w.Nest? {
      forall c | c in w.children ensures WellFormed(c, levels - 1) {
        var i :| 0 <= i < |w.children| && w.children[i] == c;
        ChildFits(w.children, i);
        BuiltIsWellFormed(c, levels - 1);
      }
    }
  }

  /** Parsing a tree built with `AppendTlv` gives the tree back, at every size the parser takes. */
  lemma BuildThenParse(w: Wire, levels: nat, rest: seq<byte>)
    requires Built(w) && TaggedTree(w, levels) && |Encode(w)| <= RESPONSE_MAX
    ensures Parse(Encode(w) + rest, levels) == Some(w)
  {
    BuiltIsWellFormed(w, levels);
    FramedIsParsed(w, rest, levels);
  }

  /** A node as `append_tlv` spells it, with the children of a constructed one built first. */
  function Spelled(n: Node): seq<byte> { n.tag + LengthOctets(|n.value|) + n.value }

  function SpelledAll(ns: seq<Node>): seq<byte> { if ns == [] then [] else Spelled(ns[0]) + SpelledAll(ns[1..]) }

  predicate BuiltNode(n: Node, levels: nat) {
    && levels > 0 && CompleteTag(n.tag) && n.constructed == IsConstructed(n.tag[0])
    && (if n.constructed then n.value == SpelledAll(n.children) else n.children == [])
    && (forall c | c in n.children :: BuiltNode(c, levels - 1))
  }

  lemma {:induction false} BuiltIsSound(n: Node, levels: nat)
    requires BuiltNode(n, levels) && |n.value| <= 0xFFFF
    ensures Sound(n, levels)
    decreases n, 0
  {
    if n.constructed { BuiltTiles(n.children, levels - 1); }
  }

  lemma {:induction false} BuiltTiles(ns: seq<Node>, levels: nat)
    requires (forall n | n in ns :: BuiltNode(n, levels)) && |SpelledAll(ns)| <= 0xFFFF
    ensures Tiles(SpelledAll(ns), ns) && AllSound(ns, levels)
    decreases ns
  {
    hide BuiltNode, Sound;
    if ns != [] {
      var n, rest := ns[0], SpelledAll(ns[1..]);
      BuiltIsSound(n, levels);
      BuiltTiles(ns[1..], levels);
      LengthOctetsAreRight(|n.value|);
      TilesOn(SpelledAll(ns), n, LengthOctets(|n.value|), rest, ns[1..]);
      assert ns == [n] + ns[1..];
    }
  }

  /** Bytes that are built of nodes are tiled by those nodes and by no others: parsing gives them back. */
  lemma BuiltIsParsed(ns: seq<Node>, found: seq<Node>)
    requires (forall n | n in ns :: BuiltNode(n, MAX_DEPTH + 1)) && |SpelledAll(ns)| <= RESPONSE_MAX
    ensures Tiles(SpelledAll(ns), ns) && AllSound(ns, MAX_DEPTH + 1)
    ensures Tiles(SpelledAll(ns), found) && AllSound(found, MAX_DEPTH + 1) ==> found == ns
  {
    hide BuiltNode, Sound, Tiles;
    BuiltTiles(ns, MAX_DEPTH + 1);
    TiledOnce(SpelledAll(ns), ns, MAX_DEPTH + 1);
    if Tiles(SpelledAll(ns), found) && AllSound(found, MAX_DEPTH + 1) {
      TiledOnce(SpelledAll(ns), found, MAX_DEPTH + 1);
    }
  }

  method AppendTlv(output: seq<byte>, tag: seq<byte>, value: seq<byte>) returns (out: seq<byte>)
    ensures tag == [] ==> out == output
    ensures tag != [] && !IsConstructed(tag[0]) ==>
      out == output + Encode(Leaf(tag, LengthOctets(|value|), value))
    ensures tag != [] ==> out == output + tag + LengthOctets(|value|) + value
  {
    out := output;
    if tag == [] { return; }
    out := out + tag;
    out := AppendLen(out, |value|);
    out := out + value;
  }

  method AppendLen(output: seq<byte>, length: nat) returns (out: seq<byte>)
    ensures out == output + LengthOctets(length)
  {
    out := output;
    if length < 0x80 {
      out := out + [length];
    } else if length <= 0xFF {
      out := out + [0x81];
      out := out + [length];
    } else {
      out := out + [0x82];
      out := out + [length / 0x100 % 0x100];
      out := out + [length % 0x100];
    }
  }

  // ----- the parser as it runs -----

  /** `Boundaries` of the rest of the input, at its place in the input. */
  function SpanAt(data: seq<byte>, pos: nat, end: nat): Option<Span>
    requires pos <= end <= |data|
  {
    match Boundaries(data[pos..end])
    case None => None
    case Some(b) => Some(Span(pos, b.tagLength, pos + b.valueOffset, b.valueLength))
  }

  method ScanTag(data: seq<byte>, end: nat, start: nat) returns (ok: bool, pos: nat)
    requires start < end <= |data|
    ensures ok <==> TagLength(data[start..end]) > 0
    ensures ok ==> pos == start + TagLength(data[start..end])
  {
    pos := start;
    var first := data[pos];
    pos := pos + 1;
    if first % 0x20 == 0x1F {
      var tagComplete := false;
      ghost var s := data[start..end];
      while pos < end
        invariant start < pos <= end
        invariant !tagComplete && LongTag(s, 1) == LongTag(s, pos - start)
      {
        var b := data[pos];
        pos := pos + 1;
        if b < 0x80 {
          tagComplete := true;
          break;
        }
      }
      if !tagComplete { return false, pos; }
    }
    return true, pos;
  }

  method ScanLength(data: seq<byte>, end: nat, start: nat) returns (ok: bool, pos: nat, length: nat)
    requires start < end <= |data|
    ensures var k := LengthFieldSize(data[start]);
            && (ok <==> 0 < k <= end - start && LengthValue(data[start..start + k]) <= end - start - k)
            && (ok ==> pos == start + k && length == LengthValue(data[start..start + k]))
  {
    var len0 := data[start];
    pos, length := start + 1, 0;
    if len0 < 0x80 {
      length := len0;
    } else {
      var count := len0 - 0x80;
      if count == 0 || count > 3 || count > end - pos { return false, pos, 0; }
      var index := 0;
      while index < count
        invariant 0 <= index <= count && pos == start + 1 + index
        invariant length == BigEndian(data[start + 1..pos])
      {
        assert data[start + 1..pos + 1][..index] == data[start + 1..pos];
        length, pos := length * 0x100 + data[pos], pos + 1;
        index := index + 1;
      }
      assert data[start..pos][1..] == data[start + 1..pos];
    }
    if length > end - pos { return false, pos, 0; }
    return true, pos, length;
  }

  /** The head of a TLV: its boundaries, read the same way by both parsers. */
  method ParseHead(data: seq<byte>, end: nat, pos: nat) returns (ok: bool, span: Span)
    requires pos < end <= |data|
    ensures ok <==> SpanAt(data, pos, end).Some?
    ensures ok ==> Some(span) == SpanAt(data, pos, end)
  {
    span := Span(0, 0, 0, 0);
    ghost var s := data[pos..end];
    var tagged, p := ScanTag(data, end, pos);
    if !tagged || p >= end { return false, span; }
    assert s[p - pos] == data[p];
    if p + LengthFieldSize(data[p]) <= end {
      SliceOfSlice(data, pos, end, p - pos, p - pos + LengthFieldSize(data[p]));
    }
    var sized, q, length := ScanLength(data, end, p);
    if !sized { return false, span; }
    return true, Span(pos, p - pos, q, length);
  }

  /** The boundaries of one TLV; the value is not looked into. */
  method ParseTlvSpan(data: seq<byte>, end: nat, pos: nat) returns (ok: bool, span: Span, next: nat)
    ensures ok <==> |data| <= RESPONSE_MAX && pos < end <= |data| && SpanAt(data, pos, end).Some?
    ensures ok ==> Some(span) == SpanAt(data, pos, end) && next == span.End() <= end
  {
    span, next := Span(0, 0, 0, 0), pos;
    if |data| > RESPONSE_MAX || end > |data| || end > RESPONSE_MAX || pos >= end {
      return false, span, next;
    }
    ok, span := ParseHead(data, end, pos);
    next := if ok then span.End() else pos;
  }

  /** `Parse`, once the boundaries are known, in terms of the whole input. */
  lemma ParseFromHead(data: seq<byte>, pos: nat, end: nat, levels: nat, span: Span)
    requires pos < end <= |data| && levels > 0 && SpanAt(data, pos, end) == Some(span)
    ensures var tag, field := data[pos..pos + span.tagLength], data[pos + span.tagLength..span.valueOffset];
            var value := data[span.valueOffset..span.End()];
            Parse(data[pos..end], levels) == ParseBody(tag, field, value, levels)
  {
    SliceOfSlice(data, pos, end, 0, span.tagLength);
    SliceOfSlice(data, pos, end, span.tagLength, span.valueOffset - pos);
    SliceOfSlice(data, pos, end, span.valueOffset - pos, span.End() - pos);
  }

  lemma ParseAllStep(data: seq<byte>, pos: nat, end: nat, levels: nat)
    requires pos < end <= |data|
    ensures ParseAll(data[pos..end], levels) ==
      if Parse(data[pos..end], levels).None? then None
      else Prepend([Parse(data[pos..end], levels).value],
        ParseAll(data[SpanAt(data, pos, end).value.End()..end], levels))
  {
    if SpanAt(data, pos, end).Some? {
      SliceOfSlice(data, pos, end, SpanAt(data, pos, end).value.End() - pos, end - pos);
    }
  }

  /** One TLV with everything in it, by recursion into constructed values. */
  method ParseTlvOne(data: seq<byte>, end: nat, pos: nat, depth: nat)
    returns (ok: bool, out: Node, next: nat, ghost wire: Wire)
    ensures ok <==>
      pos < end <= |data| && end <= RESPONSE_MAX && depth <= MAX_DEPTH
      && Parse(data[pos..end], MAX_DEPTH + 1 - depth).Some?
    ensures ok ==>
      && Parse(data[pos..end], MAX_DEPTH + 1 - depth) == Some(wire)
      && out == Tree(wire) && SpanAt(data, pos, end).Some? && next == SpanAt(data, pos, end).value.End()
    decreases MAX_DEPTH + 1 - depth, 0
  {
    hide Boundaries, TagLength, LengthFieldSize, LengthValue, WellFormed;
    out, next, wire := Node([], false, [], []), pos, Leaf([], [], []);
    ok := false;
    if depth > MAX_DEPTH { return; }
    if end > |data| || end > RESPONSE_MAX || pos >= end { return; }
    var headed, span := ParseHead(data, end, pos);
    if !headed { return; }
    ParseFromHead(data, pos, end, MAX_DEPTH + 1 - depth, span);
    var p, q, stop := pos + span.tagLength, span.valueOffset, span.End();
    out := Node(data[pos..p], IsConstructed(data[pos]), data[q..stop], []);
    if out.constructed {
      var parsed, children, wires := ParseChildren(data, q, stop, depth + 1);
      if !parsed { return; }
      out := out.(children := children);
      wire := Nest(out.tag, data[p..q], wires);
      ParsedAllBytes(out.value, MAX_DEPTH - depth);
    } else {
      wire := Leaf(out.tag, data[p..q], out.value);
    }
    ok, next := true, stop;
  }

  /** TLVs side by side, from `start` up to `end` with nothing left over. */
  method ParseChildren(data: seq<byte>, start: nat, end: nat, depth: nat)
    returns (ok: bool, nodes: seq<Node>, ghost wires: seq<Wire>)
    requires start <= end <= |data| && end <= RESPONSE_MAX && depth <= MAX_DEPTH + 1
    ensures ok <==> ParseAll(data[start..end], MAX_DEPTH + 1 - depth).Some?
    ensures ok ==> ParseAll(data[start..end], MAX_DEPTH + 1 - depth) == Some(wires)
    ensures ok ==> nodes == seq(|wires|, i requires 0 <= i < |wires| => Tree(wires[i]))
    decreases MAX_DEPTH + 1 - depth, 1
  {
    var pos := start;
    ghost var levels := MAX_DEPTH + 1 - depth;
    ghost var parse := ParseAll(data[start..end], levels);
    nodes, wires := [], [];
    PrependNothing(parse);
    while pos < end
      invariant start <= pos <= end
      invariant |nodes| == |wires| && forall i :: 0 <= i < |nodes| ==> nodes[i] == Tree(wires[i])
      invariant parse == Prepend(wires, ParseAll(data[pos..end], levels))
      decreases end - pos
    {
      ParseAllStep(data, pos, end, levels);
      var parsed, child, next, wire := ParseTlvOne(data, end, pos, depth);
      if !parsed { return false, nodes, wires; }
      PrependTwice(wires, [wire], ParseAll(data[next..end], levels));
      nodes, wires, pos := nodes + [child], wires + [wire], next;
    }
    assert data[pos..end] == [];
    assert wires + [] == wires;
    return true, nodes, wires;
  }

  lemma PrependTwice(a: seq<Wire>, b: seq<Wire>, rest: Option<seq<Wire>>)
    ensures Prepend(a, Prepend(b, rest)) == Prepend(a + b, rest)
  {
    assert rest.Some? ==> a + (b + rest.value) == a + b + rest.value;
  }

  function Prepend(front: seq<Wire>, rest: Option<seq<Wire>>): Option<seq<Wire>> {
    match rest case None => None case Some(ws) => Some(front + ws)
  }

  lemma PrependNothing(rest: Option<seq<Wire>>)
    ensures Prepend([], rest) == rest
  {
    assert rest.Some? ==> [] + rest.value == rest.value;
  }

  /**
   * A whole response that is one TLV: it is accepted if and only if a sound node tiles it, and that one is returned.
   */
  method ParseTlv(data: seq<byte>) returns (ok: bool, out: Node)
    ensures ok <==> |data| <= RESPONSE_MAX && exists n :: Sound(n, MAX_DEPTH + 1) && Tiles(data, [n])
    ensures ok ==> Sound(out, MAX_DEPTH + 1) && Tiles(data, [out])
    ensures ok ==> forall n :: Sound(n, MAX_DEPTH + 1) && Tiles(data, [n]) ==> n == out
  {
    hide Sound, Tiles, WellFormed;
    out := Node([], false, [], []);
    ok := false;
    if |data| > RESPONSE_MAX { return; }
    var parsed, node, pos, wire := ParseTlvOne(data, |data|, 0, 0);
    assert data[0..|data|] == data;
    ghost var levels := MAX_DEPTH + 1;
    forall n | Sound(n, levels) && Tiles(data, [n]) ensures parsed && pos == |data| && n == node {
      OneTiled(data, n, levels);
    }
    if !parsed || pos != |data| { return; }
    ParsedOne(data, levels);
    return true, node;
  }

  lemma OneTiled(data: seq<byte>, n: Node, levels: nat)
    requires Sound(n, levels) && Tiles(data, [n])
    ensures data != [] && Parse(data, levels).Some? && n == Tree(Parse(data, levels).value)
    ensures Boundaries(data).Some? && Boundaries(data).value.End() == |data|
  {
    hide Sound;
    var field, rest :| StartsWith(data, n, field, rest) && Tiles(rest, [n][1..]);
    var w := SoundIsFramed(data, n, field, rest, levels);
    assert data == Encode(w) + [];
    FramedIsParsed(w, [], levels);
  }

  lemma ParsedOne(data: seq<byte>, levels: nat)
    requires Parse(data, levels).Some? && Boundaries(data).value.End() == |data|
    ensures Sound(Tree(Parse(data, levels).value), levels) && Tiles(data, [Tree(Parse(data, levels).value)])
  {
    hide Sound;
    var w := Parse(data, levels).value;
    ParsedBytes(data, levels);
    assert Encode(w) == data;
    TreeIsSound(w, levels);
    TileOne(w, levels, []);
    assert Encode(w) + [] == data;
    TilesOn(data, Tree(w), w.lengthField, [], []);
    assert [Tree(w)] + [] == [Tree(w)];
  }

  /** A response that is a list of TLVs, in the same way. */
  method ParseTlvList(data: seq<byte>) returns (ok: bool, out: seq<Node>)
    ensures ok <==> |data| <= RESPONSE_MAX && exists ns :: AllSound(ns, MAX_DEPTH + 1) && Tiles(data, ns)
    ensures ok ==> AllSound(out, MAX_DEPTH + 1) && Tiles(data, out)
    ensures ok ==> forall ns :: AllSound(ns, MAX_DEPTH + 1) && Tiles(data, ns) ==> ns == out
  {
    hide AllSound, Tiles, WellFormed;
    if |data| > RESPONSE_MAX { return false, []; }
    var parsed, nodes, wires := ParseChildren(data, 0, |data|, 0);
    assert data[0..|data|] == data;
    ghost var levels := MAX_DEPTH + 1;
    forall ns | AllSound(ns, levels) && Tiles(data, ns) ensures parsed && ns == nodes { TiledOnce(data, ns, levels); }
    if parsed { ParsedTiles(data, levels); }
    return parsed, nodes;
  }
}
