/**
 * The Bound Profile Package as a value, the byte stream that encodes it (section 2.5.4
 * of GSMA SGP.22), and the segments a card must be handed (section 2.5.5).
 */
module BppPackage {
  import opened Bytes
  import opened Der

  const MAX_DECODED_BYTES := 1024 * 1024
  const MAX_ELEMENTS := 4096
  const MAX_METADATA_WIRE_BYTES := 16 * 1024
  const MAX_OBJECT_BYTES := 8 * 1024
  const MAC_BYTES := 8

  const BF36: seq<byte> := [0xBF, 0x36]
  const BF23: seq<byte> := [0xBF, 0x23]
  const A0: seq<byte> := [0xA0]
  const A1: seq<byte> := [0xA1]
  const A2: seq<byte> := [0xA2]
  const A3: seq<byte> := [0xA3]
  const X86: seq<byte> := [0x86]
  const X87: seq<byte> := [0x87]
  const X88: seq<byte> := [0x88]

  /** BF36 { BF23, A0 { 87 }, A1 { 88+ }, [ A2 { 87 } ], A3 { 86+ } }, by the values of its leaves. */
  datatype Package = Package(
    configure: seq<byte>,
    first: seq<byte>,
    metadata: seq<seq<byte>>,
    second: Option<seq<byte>>,
    profile: seq<seq<byte>>)

  datatype ProfileMetadata = ProfileMetadata(profileName: string, providerName: string, hasPolicyRules: bool)

  function Element(tag: seq<byte>, value: seq<byte>): (r: seq<byte>)
    ensures r != []
  {
    Header(tag, |value|) + value
  }

  function Elements(tag: seq<byte>, values: seq<seq<byte>>): (r: seq<seq<byte>>)
    ensures |r| == |values|
  {
    seq(|values|, i requires 0 <= i < |values| => Element(tag, values[i]))
  }

  lemma ElementsSnoc(tag: seq<byte>, values: seq<seq<byte>>, v: seq<byte>)
    ensures Elements(tag, values + [v]) == Elements(tag, values) + [Element(tag, v)]
    ensures Flat(Elements(tag, values + [v])) == Flat(Elements(tag, values)) + Element(tag, v)
  {
    assert Elements(tag, values + [v]) == Elements(tag, values) + [Element(tag, v)];
    FlatSnoc(Elements(tag, values), Element(tag, v));
  }

  /** The first segment: the header of the whole package, and BF23. */
  function Opening(outer: nat, configure: seq<byte>): seq<byte> { Header(BF36, outer) + Element(BF23, configure) }

  /** A segment that is a sequence around a single 87. */
  function Wrapped(tag: seq<byte>, value: seq<byte>): seq<byte> { Element(tag, Element(X87, value)) }

  /** The two segments that come before the metadata. */
  function FirstSegments(outer: nat, configure: seq<byte>, first: seq<byte>): seq<seq<byte>> {
    [Opening(outer, configure), Wrapped(A0, first)]
  }

  function MetadataSegments(values: seq<seq<byte>>): (r: seq<seq<byte>>)
    ensures |r| == |values| + 1
  {
    [Header(A1, |Flat(Elements(X88, values))|)] + Elements(X88, values)
  }

  function SecondSegments(second: Option<seq<byte>>): seq<seq<byte>> {
    if second.Some? then [Wrapped(A2, second.value)] else []
  }

  function ProfileSegments(values: seq<seq<byte>>, profileBytes: nat): seq<seq<byte>> {
    [Header(A3, profileBytes)] + Elements(X86, values)
  }

  /** The segments after the first one, up to a stage of the package. */
  function AfterMetadata(p: Package): seq<seq<byte>> { [Wrapped(A0, p.first)] + MetadataSegments(p.metadata) }

  function AfterSecond(p: Package): seq<seq<byte>> { AfterMetadata(p) + SecondSegments(p.second) }

  function AfterProfile(p: Package, profileBytes: nat): seq<seq<byte>> {
    AfterSecond(p) + ProfileSegments(p.profile, profileBytes)
  }

  function ProfileBytes(p: Package): nat { |Flat(Elements(X86, p.profile))| }

  /** What the header of the package declares: everything after that header. */
  function OuterLength(p: Package): nat {
    |Element(BF23, p.configure)| + |Flat(AfterProfile(p, ProfileBytes(p)))|
  }

  function Segments(p: Package): seq<seq<byte>> {
    [Opening(OuterLength(p), p.configure)] + AfterProfile(p, ProfileBytes(p))
  }

  function Encode(p: Package): seq<byte> { Flat(Segments(p)) }

  /** The plaintext of the metadata: each fragment carries its MAC at its end. */
  function Plaintext(values: seq<seq<byte>>): seq<byte>
    requires forall v | v in values :: |v| > MAC_BYTES
  {
    if values == [] then []
    else Plaintext(values[..|values| - 1]) + Unmacked(values[|values| - 1])
  }

  function Unmacked(v: seq<byte>): seq<byte>
    requires |v| > MAC_BYTES
  {
    v[..|v| - MAC_BYTES]
  }

  lemma PlaintextSnoc(values: seq<seq<byte>>, v: seq<byte>)
    requires (forall u | u in values :: |u| > MAC_BYTES) && |v| > MAC_BYTES
    ensures Plaintext(values + [v]) == Plaintext(values) + Unmacked(v)
  {
    assert (values + [v])[..|values|] == values;
  }

  lemma {:induction false} PlaintextGrows(values: seq<seq<byte>>, i: nat)
    requires i <= |values| && forall v | v in values :: |v| > MAC_BYTES
    ensures |Plaintext(values[..i])| <= |Plaintext(values)|
  {
    if i == |values| {
      assert values[..i] == values;
    } else {
      var front := values[..|values| - 1];
      PlaintextGrows(front, i);
      assert front[..i] == values[..i];
    }
  }

  /** Every part is there, and nothing is empty. */
  predicate Complete(p: Package) {
    && p.configure != [] && p.first != []
    && p.metadata != [] && (forall v | v in p.metadata :: |v| > MAC_BYTES)
    && (p.second.Some? ==> p.second.value != [])
    && p.profile != [] && (forall v | v in p.profile :: v != [])
  }

  /** A stream of segments whose declared lengths come out even is the encoding of its package. */
  lemma LengthsComeOutEven(outer: nat, p: Package, profileBytes: nat)
    requires profileBytes == ProfileBytes(p)
    requires |Flat([Opening(outer, p.configure)] + AfterProfile(p, profileBytes))| == |Header(BF36, outer)| + outer
    ensures outer == OuterLength(p)
  {
    var all := [Opening(outer, p.configure)] + AfterProfile(p, profileBytes);
    assert all[0] == Opening(outer, p.configure) && all[1..] == AfterProfile(p, profileBytes);
  }

  // ----- the package as it is nested -----

  function SecondPart(second: Option<seq<byte>>): seq<byte> {
    if second.Some? then Element(A2, Element(X87, second.value)) else []
  }

  /** What the outermost element holds. */
  function Body(p: Package): seq<byte> {
    Element(BF23, p.configure) + Element(A0, Element(X87, p.first)) + Element(A1, Flat(Elements(X88, p.metadata)))
    + SecondPart(p.second) + Element(A3, Flat(Elements(X86, p.profile)))
  }

  lemma FlatTwo(a: seq<byte>, b: seq<seq<byte>>)
    ensures Flat([a] + b) == a + Flat(b)
  {
    assert ([a] + b)[0] == a && ([a] + b)[1..] == b;
  }

  lemma FlatSecond(second: Option<seq<byte>>)
    ensures Flat(SecondSegments(second)) == SecondPart(second)
  {
    if second.Some? {
      assert SecondSegments(second)[1..] == [];
      assert SecondPart(second) + [] == SecondPart(second);
    }
  }

  lemma FlatRest(p: Package)
    ensures Flat(AfterProfile(p, ProfileBytes(p))) ==
      Element(A0, Element(X87, p.first)) + Element(A1, Flat(Elements(X88, p.metadata))) + SecondPart(p.second)
      + Element(A3, Flat(Elements(X86, p.profile)))
  {
    hide Header, Elements, SecondPart;
    FlatAppend(AfterSecond(p), ProfileSegments(p.profile, ProfileBytes(p)));
    FlatAppend(AfterMetadata(p), SecondSegments(p.second));
    FlatTwo(Wrapped(A0, p.first), MetadataSegments(p.metadata));
    FlatTwo(Header(A1, |Flat(Elements(X88, p.metadata))|), Elements(X88, p.metadata));
    FlatSecond(p.second);
    FlatTwo(Header(A3, ProfileBytes(p)), Elements(X86, p.profile));
  }

  /** The segments put together are the package as one nested element, every length as long as what it stands before. */
  lemma EncodeIsNested(p: Package)
    ensures Encode(p) == Element(BF36, Body(p))
  {
    hide Header, Elements, SecondPart, AfterProfile;
    FlatTwo(Opening(OuterLength(p), p.configure), AfterProfile(p, ProfileBytes(p)));
    FlatRest(p);
    var a, b := Element(BF23, p.configure), Flat(AfterProfile(p, ProfileBytes(p)));
    assert Body(p) == a + b;
    assert Header(BF36, |a + b|) + a + b == Header(BF36, |a + b|) + (a + b);
  }

  predicate MacksFit(fragments: seq<seq<byte>>, macs: seq<seq<byte>>) {
    |fragments| == |macs| && forall i | 0 <= i < |macs| :: fragments[i] != [] && |macs[i]| == MAC_BYTES
  }

  function Macked(fragments: seq<seq<byte>>, macs: seq<seq<byte>>): (r: seq<seq<byte>>)
    requires MacksFit(fragments, macs)
    ensures |r| == |fragments| && forall v | v in r :: |v| > MAC_BYTES
  {
    seq(|fragments|, i requires 0 <= i < |fragments| => fragments[i] + macs[i])
  }

  /** Fragments with their MACs behind them: what the check is given is the fragments without, in order. */
  lemma {:induction false} PlaintextIs(fragments: seq<seq<byte>>, macs: seq<seq<byte>>)
    requires MacksFit(fragments, macs)
    ensures Plaintext(Macked(fragments, macs)) == Flat(fragments)
  {
    if fragments != [] {
      var n := |fragments| - 1;
      var values := Macked(fragments, macs);
      PlaintextIs(fragments[..n], macs[..n]);
      assert values[..n] == Macked(fragments[..n], macs[..n]);
      assert values[n] in values && values[n] == fragments[n] + macs[n];
      assert Unmacked(values[n]) == fragments[n];
      FlatSnoc(fragments[..n], fragments[n]);
      assert fragments == fragments[..n] + [fragments[n]];
    }
  }
}
