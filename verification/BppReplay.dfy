/** The metadata that was held back, cut into the fragments that the stream parser saw. */
module BppReplay {
  import opened Bytes
  import opened Der
  import opened BppPackage
  import T = Tlv

  function Wire(values: seq<seq<byte>>): seq<byte> { Flat(MetadataSegments(values)) }

  function BodyBytes(values: seq<seq<byte>>): nat { |Flat(Elements(X88, values))| }

  /** Where fragment `i` starts in the wire bytes. */
  function Offset(values: seq<seq<byte>>, i: nat): nat
    requires i <= |values|
  {
    |Header(A1, BodyBytes(values))| + |Flat(Elements(X88, values[..i]))|
  }

  lemma LengthBytesFramed(n: nat)
    requires n < 0x100_0000
    ensures T.IsLengthField(LengthBytes(n), n)
  {
    DigitCount(n);
    if n >= 0x80 {
      assert LengthBytes(n)[1..] == Digits(n);
    }
  }

  lemma WireOf(values: seq<seq<byte>>)
    ensures Wire(values) == Header(A1, BodyBytes(values)) + Flat(Elements(X88, values))
    ensures Offset(values, 0) == |Header(A1, BodyBytes(values))| && Offset(values, |values|) == |Wire(values)|
  {
    hide LengthBytes, Header, Elements;
    assert MetadataSegments(values)[1..] == Elements(X88, values);
    assert values[..|values|] == values;
  }

  lemma RootAt(values: seq<seq<byte>>)
    requires |Wire(values)| <= T.RESPONSE_MAX
    ensures T.Boundaries(Wire(values)) == Some(T.Span(0, 1, Offset(values, 0), BodyBytes(values)))
  {
    hide LengthBytes, Elements, Flat, T.Boundaries;
    WireOf(values);
    var body := Flat(Elements(X88, values));
    LengthBytesFramed(|body|);
    T.FramedBoundaries(A1, LengthBytes(|body|), body, []);
    assert A1 + LengthBytes(|body|) + body + [] == Wire(values);
  }

  /** What follows a fragment in the wire bytes. */
  function Rest(values: seq<seq<byte>>, i: nat): seq<byte>
    requires i < |values|
  {
    Flat(Elements(X88, values[i + 1..]))
  }

  lemma FragmentBytes(values: seq<seq<byte>>, i: nat)
    requires i < |values|
    ensures var w, from, e := Wire(values), Offset(values, i), Element(X88, values[i]);
            && Offset(values, i + 1) == from + |e| <= |w|
            && w[from..] == e + Rest(values, i) && w[from..from + |e|] == e
  {
    hide LengthBytes, Header;
    var w, e, parts := Wire(values), Element(X88, values[i]), Elements(X88, values);
    WireOf(values);
    FlatSplit(parts, i);
    assert parts[..i] == Elements(X88, values[..i]);
    assert parts[i..][1..] == Elements(X88, values[i + 1..]);
    assert Flat(parts[i..]) == e + Rest(values, i);
    assert w[Offset(values, i)..] == e + Rest(values, i);
    assert values[..i + 1] == values[..i] + [values[i]];
    ElementsSnoc(X88, values[..i], values[i]);
  }

  /** Cutting the wire bytes at the TLV boundaries gives the fragments back. */
  lemma FragmentAt(values: seq<seq<byte>>, i: nat)
    requires |Wire(values)| <= T.RESPONSE_MAX && i < |values|
    ensures var w, from, v := Wire(values), Offset(values, i), values[i];
            && Offset(values, i + 1) == from + |Element(X88, v)| <= |w|
            && w[from..from + |Element(X88, v)|] == Element(X88, v)
            && w[from + |Header(X88, |v|)|..from + |Element(X88, v)|] == v
            && T.SpanAt(w, from, |w|) == Some(T.Span(from, 1, from + |Header(X88, |v|)|, |v|))
  {
    hide LengthBytes, T.Boundaries, Wire, Offset, Rest;
    var w, from, v := Wire(values), Offset(values, i), values[i];
    FragmentBytes(values, i);
    LengthBytesFramed(|v|);
    T.FramedBoundaries(X88, LengthBytes(|v|), v, Rest(values, i));
    assert X88 + LengthBytes(|v|) + v + Rest(values, i) == w[from..|w|];
    SliceOfSlice(w, from, from + |Element(X88, v)|, |Header(X88, |v|)|, |Element(X88, v)|);
    assert Element(X88, v)[|Header(X88, |v|)|..] == v;
  }

  /** And where its plaintext is. */
  lemma FragmentPlaintext(values: seq<seq<byte>>, i: nat)
    requires |Wire(values)| <= T.RESPONSE_MAX && i < |values| && |values[i]| > MAC_BYTES
    ensures Offset(values, i) < Offset(values, i + 1) <= |Wire(values)|
    ensures T.SpanAt(Wire(values), Offset(values, i), |Wire(values)|).Some?
    ensures var s, w := T.SpanAt(Wire(values), Offset(values, i), |Wire(values)|).value, Wire(values);
            && s.End() == Offset(values, i + 1) && s.valueLength == |values[i]| && s.valueOffset + s.valueLength <= |w|
            && w[s.valueOffset..s.valueOffset + s.valueLength - MAC_BYTES] == Unmacked(values[i])
  {
    hide LengthBytes, Header, Wire, Offset, T.SpanAt;
    FragmentAt(values, i);
    var s := T.SpanAt(Wire(values), Offset(values, i), |Wire(values)|).value;
    SliceOfSlice(Wire(values), s.valueOffset, s.End(), 0, s.valueLength - MAC_BYTES);
  }

  /** The segments of the metadata up to fragment `i` are the wire bytes up to its offset. */
  lemma ReplayedSoFar(done: seq<seq<byte>>, values: seq<seq<byte>>, i: nat)
    requires i <= |values|
    ensures Offset(values, i) <= |Wire(values)|
    ensures Flat(done + MetadataSegments(values)[..i + 1]) == Flat(done) + Wire(values)[..Offset(values, i)]
  {
    hide LengthBytes, Header;
    var all, parts := MetadataSegments(values), Elements(X88, values);
    assert all[..i + 1] == [all[0]] + parts[..i];
    assert parts[..i] == Elements(X88, values[..i]);
    FlatAppend([all[0]], parts[..i]);
    FlatSplit(all, i + 1);
    FlatAppend(done, all[..i + 1]);
  }

  lemma NextSegment(values: seq<seq<byte>>, i: nat)
    requires i < |values|
    ensures MetadataSegments(values)[..i + 2] == MetadataSegments(values)[..i + 1] + [[] + Element(X88, values[i])]
  {
    hide LengthBytes, Header;
    assert [] + Element(X88, values[i]) == Element(X88, values[i]);
  }

  lemma RoomFor<T>(front: seq<T>, w: seq<T>, from: nat, e: seq<T>, input: seq<T>)
    requires from + |e| <= |w| && w[from..from + |e|] == e && front + w <= input
    ensures front + w[..from] + [] + e <= input
  {
    assert w[..from] + e == w[..from + |e|];
    assert front + w[..from] + [] + e == front + w[..from + |e|];
    PrefixOfPrefix(front, w[..from + |e|], w, input);
  }

  /** The next piece of the replay is the next segment, and the input has room for it. */
  lemma ReplayNext(done: seq<seq<byte>>, values: seq<seq<byte>>, i: nat, input: seq<byte>)
    requires i < |values| && Flat(done) + Wire(values) <= input && |Wire(values)| <= T.RESPONSE_MAX
    ensures var w, from, e := Wire(values), Offset(values, i), Element(X88, values[i]);
            && Offset(values, i + 1) == from + |e| <= |w| && w[from..from + |e|] == e
            && Flat(done + MetadataSegments(values)[..i + 1]) + [] + e <= input
            && MetadataSegments(values)[..i + 2] == MetadataSegments(values)[..i + 1] + [[] + e]
  {
    hide LengthBytes, Header, Element, Wire, Offset, Flat, MetadataSegments, T.SpanAt;
    FragmentAt(values, i);
    ReplayedSoFar(done, values, i);
    NextSegment(values, i);
    RoomFor(Flat(done), Wire(values), Offset(values, i), Element(X88, values[i]), input);
  }

  /** The replay starts with the header of A1. */
  lemma ReplayStart(done: seq<seq<byte>>, values: seq<seq<byte>>, input: seq<byte>)
    requires Flat(done) + Wire(values) <= input
    ensures Offset(values, 0) <= |Wire(values)|
    ensures var head := Wire(values)[0..Offset(values, 0)];
            && head == Header(A1, BodyBytes(values)) != [] && |head| == Offset(values, 0)
            && Flat(done) + [] + head <= input
            && done + MetadataSegments(values)[..1] == done + [[] + head]
  {
    hide LengthBytes;
    WireOf(values);
    var head := Wire(values)[0..Offset(values, 0)];
    assert [] + head == head == Header(A1, BodyBytes(values));
    assert Flat(done) + [] + head == Flat(done) + head;
    PrefixOfPrefix(Flat(done), head, Wire(values), input);
    assert MetadataSegments(values)[..1] == [head];
  }

  lemma ReplayEnd(values: seq<seq<byte>>, i: nat)
    requires i <= |values| && Offset(values, i) == |Wire(values)|
    ensures i == |values| && MetadataSegments(values)[..i + 1] == MetadataSegments(values)
  {
    hide LengthBytes, Header;
    if i < |values| { FragmentBytes(values, i); }
  }
}
