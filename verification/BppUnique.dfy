/**
 * A byte stream encodes at most one package. So what a successful run hands to the card
 * depends on the stream alone, and not on how it was cut into pieces.
 */
module BppUnique {
  import opened Bytes
  import opened Der
  import opened BppPackage

  datatype Part = Part(tag: seq<byte>, value: seq<byte>)

  function Laid(parts: seq<Part>): seq<byte> {
    if parts == [] then [] else Element(parts[0].tag, parts[0].value) + Laid(parts[1..])
  }

  predicate Tagged(parts: seq<Part>) {
    forall p | p in parts :: ValidTag(p.tag) && |p.value| < 0x1_0000_0000
  }

  lemma ElementUnique(t1: seq<byte>, v1: seq<byte>, r1: seq<byte>, t2: seq<byte>, v2: seq<byte>, r2: seq<byte>)
    requires ValidTag(t1) && ValidTag(t2) && |v1| < 0x1_0000_0000 && |v2| < 0x1_0000_0000
    requires Element(t1, v1) + r1 == Element(t2, v2) + r2
    ensures t1 == t2 && v1 == v2 && r1 == r2
  {
    hide LengthBytes;
    assert Element(t1, v1) + r1 == Header(t1, |v1|) + (v1 + r1);
    assert Element(t2, v2) + r2 == Header(t2, |v2|) + (v2 + r2);
    HeaderUnique(t1, |v1|, v1 + r1, t2, |v2|, v2 + r2);
    assert r1 == (Element(t1, v1) + r1)[|Element(t1, v1)|..];
    assert v1 == (Element(t1, v1) + r1)[|Header(t1, |v1|)|..|Element(t1, v1)|];
    assert v2 == (Element(t2, v2) + r2)[|Header(t2, |v2|)|..|Element(t2, v2)|];
    assert r2 == (Element(t2, v2) + r2)[|Element(t2, v2)|..];
  }

  lemma {:induction false} LaidUnique(a: seq<Part>, b: seq<Part>)
    requires Tagged(a) && Tagged(b) && Laid(a) == Laid(b)
    ensures a == b
  {
    hide Element;
    if a != [] && b != [] {
      ElementUnique(a[0].tag, a[0].value, Laid(a[1..]), b[0].tag, b[0].value, Laid(b[1..]));
      LaidUnique(a[1..], b[1..]);
      assert a == [a[0]] + a[1..] && b == [b[0]] + b[1..];
    }
  }

  function Same(tag: seq<byte>, values: seq<seq<byte>>): seq<Part> {
    seq(|values|, i requires 0 <= i < |values| => Part(tag, values[i]))
  }

  lemma {:induction false} LaidElements(tag: seq<byte>, values: seq<seq<byte>>)
    ensures Laid(Same(tag, values)) == Flat(Elements(tag, values))
  {
    hide Element;
    if values != [] {
      LaidElements(tag, values[1..]);
      assert Same(tag, values)[1..] == Same(tag, values[1..]);
      assert Elements(tag, values)[1..] == Elements(tag, values[1..]);
    }
  }

  lemma {:induction false} LaidValue(parts: seq<Part>, i: nat)
    requires i < |parts|
    ensures |parts[i].value| <= |Laid(parts)|
  {
    hide Header;
    if i > 0 { LaidValue(parts[1..], i - 1); }
  }

  /** The elements inside BF36. */
  function Body(p: Package): seq<Part> {
    [Part(BF23, p.configure), Part(A0, Element(X87, p.first)), Part(A1, Flat(Elements(X88, p.metadata)))]
    + (if p.second.Some? then [Part(A2, Element(X87, p.second.value))] else [])
    + [Part(A3, Flat(Elements(X86, p.profile)))]
  }

  lemma LaidAppend(a: seq<Part>, b: seq<Part>)
    ensures Laid(a + b) == Laid(a) + Laid(b)
  {
    hide Element;
    if a == [] {
      assert a + b == b;
    } else {
      LaidAppend(a[1..], b);
      assert (a + b)[1..] == a[1..] + b;
    }
  }

  lemma LaidOne(p: Part)
    ensures Laid([p]) == Element(p.tag, p.value)
  {
    hide Element;
    assert Laid([p]) == Element(p.tag, p.value) + Laid([]);
  }

  lemma SequenceIsElement(tag: seq<byte>, child: seq<byte>, values: seq<seq<byte>>)
    ensures Flat([Header(tag, |Flat(Elements(child, values))|)] + Elements(child, values))
         == Element(tag, Flat(Elements(child, values)))
  {
    hide Header, Elements;
    var h := Header(tag, |Flat(Elements(child, values))|);
    assert ([h] + Elements(child, values))[1..] == Elements(child, values);
  }

  /** The segments put together are one TLV, and its elements fill it from end to end. */
  lemma EncodeIsNested(p: Package)
    ensures Encode(p) == Element(BF36, Laid(Body(p)))
  {
    hide Header, Elements, Element;
    AfterFirst(p);
    var rest := AfterProfile(p, ProfileBytes(p));
    var opening := Opening(OuterLength(p), p.configure);
    assert ([opening] + rest)[1..] == rest;
    assert Body(p) == [Part(BF23, p.configure)] + Body(p)[1..];
    LaidAppend([Part(BF23, p.configure)], Body(p)[1..]);
    LaidOne(Part(BF23, p.configure));
    OpeningIsElement(p, Flat(rest));
  }

  lemma OpeningIsElement(p: Package, rest: seq<byte>)
    requires OuterLength(p) == |Element(BF23, p.configure) + rest|
    ensures Opening(OuterLength(p), p.configure) + rest == Element(BF36, Element(BF23, p.configure) + rest)
  {
    hide LengthBytes, OuterLength;
    var h, e := Header(BF36, OuterLength(p)), Element(BF23, p.configure);
    assert h + e + rest == h + (e + rest);
  }

  lemma AfterFirst(p: Package)
    ensures Flat(AfterProfile(p, ProfileBytes(p))) == Laid(Body(p)[1..])
  {
    hide Header, Elements, Element, LengthBytes;
    var a0, a1 := Part(A0, Element(X87, p.first)), Part(A1, Flat(Elements(X88, p.metadata)));
    var a2 := if p.second.Some? then [Part(A2, Element(X87, p.second.value))] else [];
    var a3 := Part(A3, Flat(Elements(X86, p.profile)));
    assert Body(p)[1..] == [a0] + [a1] + a2 + [a3];
    LaidAppend([a0], [a1]);
    LaidAppend([a0] + [a1], a2);
    LaidAppend([a0] + [a1] + a2, [a3]);
    LaidOne(a0);
    LaidOne(a1);
    LaidOne(a3);
    FlatAppend([Wrapped(A0, p.first)], MetadataSegments(p.metadata));
    FlatAppend(AfterMetadata(p), SecondSegments(p.second));
    FlatAppend(AfterSecond(p), ProfileSegments(p.profile, ProfileBytes(p)));
    SequenceIsElement(A1, X88, p.metadata);
    SequenceIsElement(A3, X86, p.profile);
    SecondIsElement(p.second);
    FlatOne(Wrapped(A0, p.first));
  }

  lemma SecondIsElement(second: Option<seq<byte>>)
    ensures Flat(SecondSegments(second))
         == Laid(if second.Some? then [Part(A2, Element(X87, second.value))] else [])
  {
    hide Element;
    if second.Some? {
      LaidOne(Part(A2, Element(X87, second.value)));
      FlatOne(Wrapped(A2, second.value));
    }
  }

  lemma FlatOne<T>(s: seq<T>)
    ensures Flat([s]) == s
  {
    assert Flat([s]) == s + Flat([]);
  }

  /** Two complete packages with the same encoding are the same package. */
  lemma EncodeInjective(p: Package, q: Package)
    requires Encode(p) == Encode(q) && |Encode(p)| < 0x1_0000_0000
    ensures p == q
  {
    hide Elements, Encode, LengthBytes, Flat;
    EncodeIsNested(p);
    EncodeIsNested(q);
    var b, c := Body(p), Body(q);
    assert Element(BF36, Laid(b)) + [] == Element(BF36, Laid(c)) + [];
    ElementUnique(BF36, Laid(b), [], BF36, Laid(c), []);
    BodyTagged(p);
    BodyTagged(q);
    LaidUnique(b, c);
    assert b[0] == c[0] && b[1] == c[1] && b[2] == c[2] && b[3] == c[3];
    assert b[|b| - 1] == c[|c| - 1];
    PartsUnique(p, q, b[1].value, c[1].value);
  }

  lemma BodyTagged(p: Package)
    requires |Laid(Body(p))| < 0x1_0000_0000
    ensures Tagged(Body(p))
  {
    hide Elements, Element, Flat, Laid;
    forall i | 0 <= i < |Body(p)| ensures |Body(p)[i].value| < 0x1_0000_0000 {
      LaidValue(Body(p), i);
    }
  }

  /** The values inside the sequences are unique too. */
  lemma PartsUnique(p: Package, q: Package, b1: seq<byte>, c1: seq<byte>)
    requires |Laid(Body(p))| < 0x1_0000_0000 && Body(p) == Body(q)
    requires b1 == Element(X87, p.first) && c1 == Element(X87, q.first) && b1 == c1
    ensures p == q
  {
    hide Flat, LengthBytes, Elements;
    BodyTagged(p);
    assert Body(p)[1].value == b1;
    var n := |Body(p)|;
    assert Body(p)[0].value == p.configure && Body(q)[0].value == q.configure;
    Inner(p.first, q.first);
    ListUnique(X88, p.metadata, q.metadata, Body(p)[2].value);
    ListUnique(X86, p.profile, q.profile, Body(p)[n - 1].value);
    assert Body(p)[3].tag == Body(q)[3].tag;
    if p.second.Some? {
      assert Body(p)[3].value == Element(X87, p.second.value);
      Inner(p.second.value, q.second.value);
    }
  }

  lemma Inner(v: seq<byte>, w: seq<byte>)
    requires Element(X87, v) == Element(X87, w) && |Element(X87, v)| < 0x1_0000_0000
    ensures v == w
  {
    hide LengthBytes;
    assert Element(X87, v) + [] == Element(X87, w) + [];
    ElementUnique(X87, v, [], X87, w, []);
  }

  lemma ListUnique(tag: seq<byte>, v: seq<seq<byte>>, w: seq<seq<byte>>, flat: seq<byte>)
    requires ValidTag(tag) && |flat| < 0x1_0000_0000
    requires flat == Flat(Elements(tag, v)) == Flat(Elements(tag, w))
    ensures v == w
  {
    hide Elements, Element, Flat, Laid;
    LaidElements(tag, v);
    LaidElements(tag, w);
    forall i | 0 <= i < |v| ensures |Same(tag, v)[i].value| <= |flat| { LaidValue(Same(tag, v), i); }
    forall i | 0 <= i < |w| ensures |Same(tag, w)[i].value| <= |flat| { LaidValue(Same(tag, w), i); }
    LaidUnique(Same(tag, v), Same(tag, w));
    assert |v| == |Same(tag, v)| && |w| == |Same(tag, w)|;
    forall i | 0 <= i < |v| ensures v[i] == w[i] { assert Same(tag, v)[i] == Same(tag, w)[i]; }
  }
}
