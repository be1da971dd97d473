/**
 * What is still to come, for a reader that is fed the encoding of a package it must take: the
 * invariant behind the promise that no such package is refused, and one lemma for every step.
 */
module BppDue {
  import opened Bytes
  import opened BppCard
  import opened Der
  import opened BppPackage
  import opened BppReading

  // ----- the packages that must be taken -----

  function HeaderCount(p: Package): nat {
    6 + |p.metadata| + (if p.second.Some? then 2 else 0) + |p.profile|
  }

  /** The sizes that the firmware allows. */
  predicate WithinLimits(p: Package) {
    && |Encode(p)| <= MAX_DECODED_BYTES
    && Fitted(Segments(p))
    && |Flat(MetadataSegments(p.metadata))| <= MAX_METADATA_WIRE_BYTES
    && (forall v | v in p.metadata :: |v| > MAC_BYTES) && |Plaintext(p.metadata)| <= MAX_OBJECT_BYTES
    && HeaderCount(p) <= MAX_ELEMENTS
  }

  // ----- the rest of the encoding, from every place on -----

  function Drop<T>(s: seq<T>, n: nat): seq<T> { if n <= |s| then s[n..] else [] }

  function At(values: seq<seq<byte>>, i: nat): seq<byte> { if i < |values| then values[i] else [] }

  function Parts(tag: seq<byte>, values: seq<seq<byte>>, i: nat): seq<byte> { Flat(Elements(tag, Drop(values, i))) }

  function FromProfile(p: Package): seq<byte> { Header(A3, ProfileBytes(p)) + Parts(X86, p.profile, 0) }

  function FromSecond(p: Package): seq<byte> {
    if p.second.Some? then Wrapped(A2, p.second.value) + FromProfile(p) else FromProfile(p)
  }

  function FromFragment(p: Package, i: nat): seq<byte> { Parts(X88, p.metadata, i) + FromSecond(p) }

  function FromMetadata(p: Package): seq<byte> { Header(A1, |Parts(X88, p.metadata, 0)|) + FromFragment(p, 0) }

  function FromFirst(p: Package): seq<byte> { Wrapped(A0, p.first) + FromMetadata(p) }

  function FromConfigure(p: Package): seq<byte> { Element(BF23, p.configure) + FromFirst(p) }

  lemma EncodeAhead(p: Package)
    ensures Encode(p) == Header(BF36, OuterLength(p)) + FromConfigure(p)
    ensures OuterLength(p) == |FromConfigure(p)|
  {
    hide LengthBytes, Header, Element, FromFirst, AfterProfile, Opening;
    FirstAhead(p);
    StartsWithLength(OuterLength(p), p.configure, AfterProfile(p, ProfileBytes(p)));
  }

  lemma FirstAhead(p: Package)
    ensures FromFirst(p) == Flat(AfterProfile(p, ProfileBytes(p)))
  {
    hide LengthBytes, Header, Element, Elements, Wrapped, MetadataSegments, SecondSegments, ProfileSegments,
      FromMetadata, FromSecond, FromProfile, Flat;
    FlatAppend(AfterSecond(p), ProfileSegments(p.profile, ProfileBytes(p)));
    FlatAppend(AfterMetadata(p), SecondSegments(p.second));
    FlatAppend([Wrapped(A0, p.first)], MetadataSegments(p.metadata));
    OneSegment(Wrapped(A0, p.first));
    LaterAhead(p);
    var w, m, s, r := Wrapped(A0, p.first), Flat(MetadataSegments(p.metadata)), Flat(SecondSegments(p.second)),
      FromProfile(p);
    ThreePieces(w, m, s + r);
    ThreePieces(w + m, s, r);
  }

  lemma LaterAhead(p: Package)
    ensures Flat(ProfileSegments(p.profile, ProfileBytes(p))) == FromProfile(p)
    ensures FromSecond(p) == Flat(SecondSegments(p.second)) + FromProfile(p)
    ensures FromMetadata(p) == Flat(MetadataSegments(p.metadata)) + (Flat(SecondSegments(p.second)) + FromProfile(p))
  {
    hide LengthBytes, Header, Elements, Wrapped;
    assert Drop(p.metadata, 0) == p.metadata && Drop(p.profile, 0) == p.profile;
    assert ProfileSegments(p.profile, ProfileBytes(p))[1..] == Elements(X86, p.profile);
    MetadataFlat(p.metadata);
    if p.second.Some? { OneSegment(Wrapped(A2, p.second.value)); }
    assert FromSecond(p) == Flat(SecondSegments(p.second)) + FromProfile(p);
    ThreePieces(Header(A1, |Parts(X88, p.metadata, 0)|), Parts(X88, p.metadata, 0), FromSecond(p));
  }

  lemma OneSegment<T>(s: seq<T>)
    ensures Flat([s]) == s
  {
    assert Flat([s]) == s + Flat([]);
  }

  lemma PartsStep(tag: seq<byte>, values: seq<seq<byte>>, i: nat)
    requires i < |values|
    ensures Parts(tag, values, i) == Element(tag, values[i]) + Parts(tag, values, i + 1)
  {
    hide Element;
    assert Elements(tag, Drop(values, i))[1..] == Elements(tag, Drop(values, i + 1));
  }

  lemma PartsEnd(tag: seq<byte>, values: seq<seq<byte>>, i: nat)
    requires i >= |values|
    ensures Parts(tag, values, i) == []
  {
    assert Elements(tag, Drop(values, i)) == [];
  }

  // ----- where the reader is -----

  function ValueOf(kind: ValueKind, g: Reading, p: Package): seq<byte> {
    match kind
    case OuterValue => p.configure
    case FirstValue => p.first
    case MetadataValue => At(p.metadata, |g.package.metadata|)
    case SecondValue => if p.second.Some? then p.second.value else []
    case ProfileValue => At(p.profile, |g.package.profile|)
  }

  function FromAfter(kind: ValueKind, g: Reading, p: Package): seq<byte> {
    match kind
    case OuterValue => FromFirst(p)
    case FirstValue => FromMetadata(p)
    case MetadataValue => FromFragment(p, |g.package.metadata| + 1)
    case SecondValue => FromProfile(p)
    case ProfileValue => Parts(X86, p.profile, |g.package.profile| + 1)
  }

  /** The bytes that are still to be passed on. */
  function Ahead(f: Fields, g: Reading, p: Package): seq<byte> {
    match f.state
    case OuterHeader => Encode(p)
    case OuterChild => FromConfigure(p)
    case FirstSequenceHeader => FromFirst(p)
    case FirstSequenceChild => Element(X87, p.first) + FromMetadata(p)
    case MetadataSequenceHeader => FromMetadata(p)
    case MetadataChild => FromFragment(p, |g.package.metadata|)
    case SecondSequenceOrProfile => FromSecond(p)
    case SecondSequenceChild => Element(X87, ValueOf(SecondValue, g, p)) + FromProfile(p)
    case ProfileSequenceHeader => FromProfile(p)
    case ProfileChild => Parts(X86, p.profile, |g.package.profile|)
    case InValue => Drop(ValueOf(f.valueKind, g, p), |g.current|) + FromAfter(f.valueKind, g, p)
    case _ => []
  }

  /** What the sequence around a value has left after it. */
  function SequenceAfter(kind: ValueKind, g: Reading, p: Package): nat {
    match kind
    case MetadataValue => |Parts(X88, p.metadata, |g.package.metadata| + 1)|
    case ProfileValue => |Parts(X86, p.profile, |g.package.profile| + 1)|
    case _ => 0
  }

  predicate InFragments(f: Fields, g: Reading, p: Package) {
    g.package.metadata <= p.metadata && |f.metadataWire| + f.sequenceRemaining <= MAX_METADATA_WIRE_BYTES
  }

  /** Inside a value of the package, with an open segment of `n` bytes. */
  predicate TracksValue(f: Fields, g: Reading, n: nat, p: Package) {
    var v := ValueOf(f.valueKind, g, p);
    && g.current <= v && |v| == |g.current| + f.valueRemaining
    && (f.valueKind != OuterValue ==> f.sequenceRemaining == f.valueRemaining + SequenceAfter(f.valueKind, g, p))
    && (f.valueKind != MetadataValue ==> n + f.valueRemaining <= MAX_CARD_SEGMENT_BYTES)
    && (f.valueKind == MetadataValue ==> InFragments(f, g, p) && |g.package.metadata| < |p.metadata|)
    && (f.valueKind == SecondValue ==> p.second.Some?)
    && (f.valueKind == ProfileValue ==> |g.package.profile| < |p.profile|)
  }

  /** What has been read is the package so far. */
  predicate Tracks(f: Fields, g: Reading, n: nat, p: Package) {
    match f.state
    case OuterChild => f.pendingParent == Header(BF36, OuterLength(p))
    case FirstSequenceChild =>
      f.pendingParentLength == |Element(X87, p.first)| && f.pendingParent == Header(A0, f.pendingParentLength)
    case MetadataChild =>
      InFragments(f, g, p) && f.sequenceRemaining == |Parts(X88, p.metadata, |g.package.metadata|)|
    case SecondSequenceChild =>
      p.second.Some?
      && f.pendingParentLength == |Element(X87, p.second.value)| && f.pendingParent == Header(A2, f.pendingParentLength)
    case ProfileSequenceHeader => p.second.Some?
    case ProfileChild =>
      |g.package.profile| <= |p.profile| && f.sequenceRemaining == |Parts(X86, p.profile, |g.package.profile|)|
    case InValue => TracksValue(f, g, n, p)
    case _ => true
  }

  function Optional(p: Package, n: int): int { if p.second.Some? then n else 0 }

  /** The headers that are still to be read. */
  function HeadersAhead(f: Fields, g: Reading, p: Package): int {
    var md, pr := |p.metadata|, |p.profile|;
    match f.state
    case OuterHeader => 6 + md + Optional(p, 2) + pr
    case OuterChild => 5 + md + Optional(p, 2) + pr
    case FirstSequenceHeader => 4 + md + Optional(p, 2) + pr
    case FirstSequenceChild => 3 + md + Optional(p, 2) + pr
    case MetadataSequenceHeader => 2 + md + Optional(p, 2) + pr
    case MetadataChild => 1 + md - |g.package.metadata| + Optional(p, 2) + pr
    case SecondSequenceOrProfile => 1 + Optional(p, 2) + pr
    case SecondSequenceChild => 2 + pr
    case ProfileSequenceHeader => 1 + pr
    case ProfileChild => pr - |g.package.profile|
    case InValue => (
      match f.valueKind
      case OuterValue => 4 + md + Optional(p, 2) + pr
      case FirstValue => 2 + md + Optional(p, 2) + pr
      case MetadataValue => md - |g.package.metadata| + Optional(p, 2) + pr
      case SecondValue => 1 + pr
      case ProfileValue => pr - |g.package.profile| - 1)
    case _ => 0
  }

  /** The segments that are still to be closed. */
  function SegmentsAhead(f: Fields, g: Reading, p: Package): int {
    var md, pr := |p.metadata|, |p.profile|;
    match f.state
    case OuterHeader => 4 + md + Optional(p, 1) + pr
    case OuterChild => 4 + md + Optional(p, 1) + pr
    case FirstSequenceHeader => 3 + md + Optional(p, 1) + pr
    case FirstSequenceChild => 3 + md + Optional(p, 1) + pr
    case MetadataSequenceHeader => 2 + md + Optional(p, 1) + pr
    case MetadataChild => 2 + md + Optional(p, 1) + pr
    case SecondSequenceOrProfile => 1 + Optional(p, 1) + pr
    case SecondSequenceChild => 2 + pr
    case ProfileSequenceHeader => 1 + pr
    case ProfileChild => pr - |g.package.profile| + if f.finalSegmentPending then 1 else 0
    case InValue => (
      match f.valueKind
      case OuterValue => 4 + md + Optional(p, 1) + pr
      case FirstValue => 3 + md + Optional(p, 1) + pr
      case MetadataValue => 2 + md + Optional(p, 1) + pr
      case SecondValue => 2 + pr
      case ProfileValue => pr - |g.package.profile|)
    case _ => 0
  }

  predicate Counted(f: Fields, g: Reading, p: Package, admitted: nat) {
    && f.elementCount + HeadersAhead(f, g, p) <= MAX_ELEMENTS + admitted
    && f.segmentCount + SegmentsAhead(f, g, p) <= MAX_ELEMENTS
  }

  /** The counters that limit what may be passed on. */
  predicate Measured(f: Fields, g: Reading, p: Package) {
    if Outer(f) then f.state == OuterChild ==> f.outerRemaining == |Ahead(f, g, p)|
    else f.decodedBytes == |g.emitted| && f.outerRemaining == |f.pendingParent| + |Ahead(f, g, p)|
  }

  /**
   * The reader is in the middle of the encoding of this package, and nothing that it has counted is in its way.
   * `admitted` is 1 between counting a header and handling it.
   */
  predicate Due(f: Fields, g: Reading, n: nat, p: Package, admitted: nat) {
    && Encode(p) == g.emitted + f.pendingParent + Ahead(f, g, p)
    && f.installationResult == [] && (!g.approved ==> f.expectedValid)
    && Counted(f, g, p, admitted) && Measured(f, g, p) && Tracks(f, g, n, p)
  }

  /** A package that must be taken, and the input so far is a start of its encoding. */
  predicate Given(g: Reading, p: Package) {
    Complete(p) && WithinLimits(p) && g.input <= Encode(p)
  }

  // ----- the next header -----

  predicate AtHeader(f: Fields, g: Reading, p: Package) {
    match f.state
    case InValue => false
    case MetadataChild => |g.package.metadata| < |p.metadata|
    case ProfileChild => |g.package.profile| < |p.profile|
    case Finished => false
    case Failed => false
    case _ => true
  }

  function NextTag(f: Fields, p: Package): seq<byte> {
    match f.state
    case OuterHeader => BF36
    case OuterChild => BF23
    case FirstSequenceHeader => A0
    case FirstSequenceChild => X87
    case MetadataSequenceHeader => A1
    case MetadataChild => X88
    case SecondSequenceOrProfile => if p.second.Some? then A2 else A3
    case SecondSequenceChild => X87
    case ProfileSequenceHeader => A3
    case _ => X86
  }

  function NextLength(f: Fields, g: Reading, p: Package): nat {
    match f.state
    case OuterHeader => OuterLength(p)
    case OuterChild => |p.configure|
    case FirstSequenceHeader => |Element(X87, p.first)|
    case FirstSequenceChild => |p.first|
    case MetadataSequenceHeader => |Parts(X88, p.metadata, 0)|
    case MetadataChild => |At(p.metadata, |g.package.metadata|)|
    case SecondSequenceOrProfile => if p.second.Some? then |Element(X87, p.second.value)| else ProfileBytes(p)
    case SecondSequenceChild => |ValueOf(SecondValue, g, p)|
    case ProfileSequenceHeader => ProfileBytes(p)
    case _ => |At(p.profile, |g.package.profile|)|
  }

  function AfterNext(f: Fields, g: Reading, p: Package): seq<byte> {
    match f.state
    case OuterHeader => FromConfigure(p)
    case OuterChild => p.configure + FromFirst(p)
    case FirstSequenceHeader => Element(X87, p.first) + FromMetadata(p)
    case FirstSequenceChild => p.first + FromMetadata(p)
    case MetadataSequenceHeader => FromFragment(p, 0)
    case MetadataChild => At(p.metadata, |g.package.metadata|) + FromFragment(p, |g.package.metadata| + 1)
    case SecondSequenceOrProfile =>
      if p.second.Some? then Element(X87, p.second.value) + FromProfile(p) else Parts(X86, p.profile, 0)
    case SecondSequenceChild => ValueOf(SecondValue, g, p) + FromProfile(p)
    case ProfileSequenceHeader => Parts(X86, p.profile, 0)
    case _ => At(p.profile, |g.package.profile|) + Parts(X86, p.profile, |g.package.profile| + 1)
  }

  lemma ElementThen(tag: seq<byte>, v: seq<byte>, rest: seq<byte>)
    ensures Element(tag, v) + rest == Header(tag, |v|) + (v + rest)
  {
    hide LengthBytes, Header;
    ThreePieces(Header(tag, |v|), v, rest);
  }

  /** What is to come starts with the next header. */
  lemma AheadIsHeader(f: Fields, g: Reading, p: Package)
    requires AtHeader(f, g, p)
    ensures Ahead(f, g, p) == Header(NextTag(f, p), NextLength(f, g, p)) + AfterNext(f, g, p)
    ensures ValidTag(NextTag(f, p))
  {
    hide Header, Encode, FromProfile, Parts, OuterLength, FromConfigure, FromMetadata;
    match f.state
    case OuterHeader => EncodeAhead(p);
    case OuterChild => ElementThen(BF23, p.configure, FromFirst(p)); ConfigureFirst(p);
    case FirstSequenceHeader => ElementThen(A0, Element(X87, p.first), FromMetadata(p));
    case FirstSequenceChild => ElementThen(X87, p.first, FromMetadata(p));
    case MetadataSequenceHeader => MetadataFirst(p);
    case MetadataChild =>
      var i := |g.package.metadata|;
      PartsStep(X88, p.metadata, i);
      ThreePieces(Element(X88, p.metadata[i]), Parts(X88, p.metadata, i + 1), FromSecond(p));
      ElementThen(X88, p.metadata[i], FromFragment(p, i + 1));
    case SecondSequenceOrProfile =>
      if p.second.Some? { ElementThen(A2, Element(X87, p.second.value), FromProfile(p)); } else { ProfileFirst(p); }
    case SecondSequenceChild => ElementThen(X87, ValueOf(SecondValue, g, p), FromProfile(p));
    case ProfileSequenceHeader => ProfileFirst(p);
    case ProfileChild =>
      var j := |g.package.profile|;
      PartsStep(X86, p.profile, j);
      ElementThen(X86, p.profile[j], Parts(X86, p.profile, j + 1));
  }

  lemma ConfigureFirst(p: Package)
    ensures FromConfigure(p) == Element(BF23, p.configure) + FromFirst(p)
  {
  }

  lemma MetadataFirst(p: Package)
    ensures FromMetadata(p) == Header(A1, |Parts(X88, p.metadata, 0)|) + FromFragment(p, 0)
  {
  }

  lemma ProfileFirst(p: Package)
    ensures FromProfile(p) == Header(A3, ProfileBytes(p)) + Parts(X86, p.profile, 0)
  {
  }

  /** The value or the sequence that follows the next header is not empty, and it is all there. */
  lemma NextFits(f: Fields, g: Reading, p: Package)
    requires AtHeader(f, g, p) && Complete(p) && (f.state == SecondSequenceChild ==> p.second.Some?)
    ensures 0 < NextLength(f, g, p) <= |AfterNext(f, g, p)|
    ensures f.state == MetadataChild ==> NextLength(f, g, p) > MAC_BYTES
  {
    hide LengthBytes, Header, FromProfile, Encode, FromFirst;
    match f.state
    case OuterHeader => EncodeAhead(p);
    case MetadataSequenceHeader =>
      PartsStep(X88, p.metadata, 0);
    case SecondSequenceOrProfile => ProfileNotEmpty(p);
    case ProfileSequenceHeader => ProfileNotEmpty(p);
    case MetadataChild => assert p.metadata[|g.package.metadata|] in p.metadata;
    case ProfileChild => assert p.profile[|g.package.profile|] in p.profile;
    case _ =>
  }

  lemma ProfileNotEmpty(p: Package)
    requires Complete(p)
    ensures 0 < ProfileBytes(p) == |Parts(X86, p.profile, 0)|
  {
    hide LengthBytes, Header;
    assert Drop(p.profile, 0) == p.profile;
    PartsStep(X86, p.profile, 0);
  }

  /** In step with the reader: what came in has been passed on, or waits in a header. */
  predicate AddsUp(f: Fields, g: Reading) { g.input == g.emitted + f.pendingParent + g.inHeader }

  lemma BehindCommon<T>(x: seq<T>, a: seq<T>, b: seq<T>)
    requires x + a <= x + b
    ensures a <= b
  {
    assert a == (x + a)[|x|..] && b == (x + b)[|x|..];
    assert (x + a)[|x|..] == (x + b)[|x|..|x + a|];
  }

  /** A complete header is the next header of the package. */
  lemma NextRead(f: Fields, g: Reading, n: nat, p: Package, admitted: nat)
    requires Due(f, g, n, p, admitted) && Given(g, p) && AddsUp(f, g) && AtHeader(f, g, p)
    requires ScanHeader(g.inHeader).Done?
    ensures g.inHeader == Header(NextTag(f, p), NextLength(f, g, p))
    ensures ScanHeader(g.inHeader) == Done(|NextTag(f, p)|, NextLength(f, g, p))
    ensures TagIs(g.inHeader, |NextTag(f, p)|, NextTag(f, p))
    ensures Ahead(f, g, p) == g.inHeader + AfterNext(f, g, p) && 0 < NextLength(f, g, p) <= |AfterNext(f, g, p)|
    ensures f.state == MetadataChild ==> NextLength(f, g, p) > MAC_BYTES
    ensures |g.emitted| + |f.pendingParent| + |g.inHeader| + |AfterNext(f, g, p)| <= MAX_DECODED_BYTES
  {
    hide LengthBytes, Header, Ahead, AfterNext, NextTag, NextLength, Encode, ScanHeader, Counted, Measured, Fitted,
      HeaderCount;
    AheadIsHeader(f, g, p);
    NextFits(f, g, p);
    BehindCommon(g.emitted + f.pendingParent, g.inHeader, Ahead(f, g, p));
    HeaderAhead(NextTag(f, p), NextLength(f, g, p), AfterNext(f, g, p), g.inHeader);
    var h := Header(NextTag(f, p), NextLength(f, g, p));
    assert h[..|NextTag(f, p)|] == NextTag(f, p) by { HeaderStart(NextTag(f, p), NextLength(f, g, p)); }
  }

  lemma HeaderStart(tag: seq<byte>, n: nat)
    ensures |tag| <= |Header(tag, n)| && Header(tag, n)[..|tag|] == tag
  {
    hide LengthBytes;
  }

  /** No byte of a header is refused. */
  lemma ByteTaken(f: Fields, g: Reading, n: nat, p: Package, b: byte)
    requires Due(f, g, n, p, 0) && Given(g, p) && AddsUp(f, g) && AtHeader(f, g, p)
    requires ScanHeader(g.inHeader) == More && g.input + [b] <= Encode(p)
    ensures ScanHeader(g.inHeader + [b]) != Bad
  {
    hide LengthBytes, Header, Ahead, AfterNext, NextTag, NextLength, Encode, ScanHeader, Counted, Measured, Fitted,
      HeaderCount;
    AheadIsHeader(f, g, p);
    NextFits(f, g, p);
    ThreePieces(g.emitted + f.pendingParent, g.inHeader, [b]);
    BehindCommon(g.emitted + f.pendingParent, g.inHeader + [b], Ahead(f, g, p));
    ByteAhead(NextTag(f, p), NextLength(f, g, p), AfterNext(f, g, p), g.inHeader, b);
  }

  // ----- one lemma for every header -----

  /** There is room for these bytes. */
  predicate Room(f: Fields, size: nat) {
    && size <= f.outerRemaining && (f.sequenceActive ==> size <= f.sequenceRemaining)
    && f.decodedBytes + size <= MAX_DECODED_BYTES
    && (f.collectingMetadata ==> |f.metadataWire| + size <= MAX_METADATA_WIRE_BYTES)
  }

  /** A header that waits for its child has a child that fits. */
  predicate ParentFits(f: Fields, rawSize: nat, valueSize: nat, exactParentLength: bool) {
    && f.pendingParent != [] && |f.pendingParent| + rawSize + valueSize <= MAX_CARD_SEGMENT_BYTES
    && (exactParentLength ==> f.pendingParentLength == rawSize + valueSize)
    && (if exactParentLength then |f.pendingParent| else 0) + rawSize + valueSize <= f.outerRemaining
    && f.decodedBytes + |f.pendingParent| + rawSize + valueSize <= MAX_DECODED_BYTES
  }

  /** The bytes move from what is ahead to what has been taken. */
  lemma BytesMove(f: Fields, g: Reading, f1: Fields, g1: Reading, p: Package)
    requires Encode(p) == g.emitted + f.pendingParent + Ahead(f, g, p)
    requires Ahead(f, g, p) == g.inHeader + AfterNext(f, g, p) && Ahead(f1, g1, p) == AfterNext(f, g, p)
    requires g1.emitted + f1.pendingParent == g.emitted + f.pendingParent + g.inHeader
    ensures Encode(p) == g1.emitted + f1.pendingParent + Ahead(f1, g1, p)
  {
    hide Encode, Ahead, AfterNext;
    ThreePieces(g.emitted + f.pendingParent, g.inHeader, AfterNext(f, g, p));
  }

  lemma OuterHeaderDue(f: Fields, g: Reading, n: nat, p: Package)
    requires f.state == OuterHeader && Due(f, g, n, p, 1) && Given(g, p) && AddsUp(f, g) && ScanHeader(g.inHeader).Done?
    requires g.emitted == [] && f.pendingParent == []
    ensures var raw, length := g.inHeader, OuterLength(p);
            && ScanHeader(raw) == Done(2, length) && TagIs(raw, 2, BF36) && length > 0
            && |raw| <= MAX_CARD_SEGMENT_BYTES
            && Due(f.(pendingParent := raw, pendingParentLength := length, outerRemaining := length,
              state := OuterChild),
                   g.(outerLength := length, inHeader := []), n, p, 0)
  {
    hide Given, TracksValue, LengthBytes, Header, ScanHeader, Encode, FromConfigure, FromFirst, OuterLength;
    NextRead(f, g, n, p, 1);
    EncodeAhead(p);
    var f1 := f.(pendingParent := g.inHeader, pendingParentLength := OuterLength(p), outerRemaining := OuterLength(p),
      state := OuterChild);
    var g1 := g.(outerLength := OuterLength(p), inHeader := []);
    assert [] + g.inHeader == [] + [] + g.inHeader == g.inHeader;
    BytesMove(f, g, f1, g1, p);
    ScannedHeader(g.inHeader);
  }

  lemma FittedSplit(a: seq<seq<byte>>, b: seq<seq<byte>>)
    requires Fitted(a + b)
    ensures Fitted(a) && Fitted(b)
  {
    assert forall s | s in a || s in b :: s in a + b;
  }

  /** Every segment of the package fits the card. */
  lemma SegmentSizes(g: Reading, p: Package)
    requires Given(g, p)
    ensures |Opening(OuterLength(p), p.configure)| <= MAX_CARD_SEGMENT_BYTES
    ensures |Wrapped(A0, p.first)| <= MAX_CARD_SEGMENT_BYTES
    ensures p.second.Some? ==> |Wrapped(A2, p.second.value)| <= MAX_CARD_SEGMENT_BYTES
    ensures forall j | 0 <= j < |p.profile| :: |Element(X86, p.profile[j])| <= MAX_CARD_SEGMENT_BYTES
  {
    hide Opening, Wrapped, Element, Encode, MetadataSegments, Plaintext, OuterLength, Flat, ProfileBytes, LengthBytes,
      Header;
    var parts := ProfileSegments(p.profile, ProfileBytes(p));
    FittedSplit([Opening(OuterLength(p), p.configure)], AfterProfile(p, ProfileBytes(p)));
    FittedSplit(AfterSecond(p), parts);
    FittedSplit(AfterMetadata(p), SecondSegments(p.second));
    FittedSplit([Wrapped(A0, p.first)], MetadataSegments(p.metadata));
    assert Opening(OuterLength(p), p.configure) in [Opening(OuterLength(p), p.configure)];
    assert Wrapped(A0, p.first) in [Wrapped(A0, p.first)];
    if p.second.Some? { assert Wrapped(A2, p.second.value) in SecondSegments(p.second); }
    forall j | 0 <= j < |p.profile| ensures |Element(X86, p.profile[j])| <= MAX_CARD_SEGMENT_BYTES {
      assert parts[1 + j] == Element(X86, p.profile[j]) && parts[1 + j] in parts;
    }
  }

  lemma OuterChildDue(f: Fields, g: Reading, n: nat, p: Package)
    requires f.state == OuterChild && Due(f, g, n, p, 1) && Given(g, p) && AddsUp(f, g) && ScanHeader(g.inHeader).Done?
    requires g.emitted == [] && f.decodedBytes == 0 && !f.sequenceActive && !f.collectingMetadata
    ensures var raw, length, parent := g.inHeader, |p.configure|, f.pendingParent;
            var f0, g0 := f.(decodedBytes := |parent|), g.(emitted := parent);
            && ScanHeader(raw) == Done(2, length) && TagIs(raw, 2, BF23) && length > 0
            && ParentFits(f, |raw|, length, false) && Room(f0, |raw|)
            && Due(EnterValue(PassOn(f0, raw), OuterValue, length), HeaderTaken(Emitted(g0, raw)), |parent| + |raw|, p,
              0)
  {
    hide FromFragment, LengthBytes, Header, ScanHeader, Encode, FromConfigure, FromFirst, OuterLength, Given;
    NextRead(f, g, n, p, 1);
    SegmentSizes(g, p);
    var raw, length, parent := g.inHeader, |p.configure|, f.pendingParent;
    var f0, g0 := f.(decodedBytes := |parent|), g.(emitted := parent);
    assert [] + parent + raw == parent + raw + [] && [] + parent == parent;
    BytesMove(f, g, EnterValue(PassOn(f0, raw), OuterValue, length), HeaderTaken(Emitted(g0, raw)), p);
  }

  /** A0 and A2 wait for their child. */
  function Parked(f: Fields, raw: seq<byte>, length: nat, next: State): Fields {
    f.(pendingParent := raw, pendingParentLength := length, childCount := 0, state := next)
  }

  lemma FirstSequenceDue(f: Fields, g: Reading, n: nat, p: Package)
    requires f.state == FirstSequenceHeader && Due(f, g, n, p, 1) && Given(g, p) && AddsUp(f, g)
    requires ScanHeader(g.inHeader).Done?
    requires f.pendingParent == []
    ensures var raw, length := g.inHeader, |Element(X87, p.first)|;
            && ScanHeader(raw) == Done(1, length) && TagIs(raw, 1, A0) && length > 0
            && Due(Parked(f, raw, length, FirstSequenceChild), g.(inHeader := []), n, p, 0)
  {
    hide LengthBytes, Header, ScanHeader, Encode, FromMetadata, OuterLength, Given;
    NextRead(f, g, n, p, 1);
    assert g.emitted + [] + g.inHeader == g.emitted + g.inHeader;
    BytesMove(f, g, Parked(f, g.inHeader, |Element(X87, p.first)|, FirstSequenceChild), g.(inHeader := []), p);
  }

  lemma SecondSequenceDue(f: Fields, g: Reading, n: nat, p: Package)
    requires f.state == SecondSequenceOrProfile && Due(f, g, n, p, 1) && Given(g, p) && AddsUp(f, g)
    requires ScanHeader(g.inHeader).Done?
    requires f.pendingParent == [] && p.second.Some?
    ensures var raw, length := g.inHeader, |Element(X87, p.second.value)|;
            && ScanHeader(raw) == Done(1, length) && TagIs(raw, 1, A2) && length > 0
            && Due(Parked(f, raw, length, SecondSequenceChild), g.(inHeader := []), n, p, 0)
  {
    hide LengthBytes, Header, ScanHeader, Encode, FromProfile, OuterLength, Given;
    NextRead(f, g, n, p, 1);
    assert g.emitted + [] + g.inHeader == g.emitted + g.inHeader;
    BytesMove(f, g, Parked(f, g.inHeader, |Element(X87, p.second.value)|, SecondSequenceChild), g.(inHeader := []), p);
  }

  /** The value inside A0 or A2. */
  predicate WrappedIn(f: Fields, p: Package, kind: ValueKind) {
    (f.state == FirstSequenceChild && kind == FirstValue)
      || (f.state == SecondSequenceChild && kind == SecondValue && p.second.Some?)
  }

  lemma WrappedDue(f: Fields, g: Reading, n: nat, p: Package, kind: ValueKind)
    requires WrappedIn(f, p, kind) && Due(f, g, n, p, 1) && Given(g, p) && AddsUp(f, g) && ScanHeader(g.inHeader).Done?
    requires !f.sequenceActive && !f.collectingMetadata
    ensures var raw, length, parent := g.inHeader, |ValueOf(kind, g, p)|, f.pendingParent;
            && ScanHeader(raw) == Done(1, length) && TagIs(raw, 1, X87) && length > 0
            && ParentFits(f, |raw|, length, true) && Room(f, |parent|)
            && Room(OpenSequence(PassOn(f, parent), f.pendingParentLength), |raw|)
            && Due(WrappedFields(f, raw, kind, length), WrappedReading(f, g), |parent| + |raw|, p, 0)
  {
    hide FromFragment, LengthBytes, Header, ScanHeader, Encode, FromProfile, FromMetadata, OuterLength, Given;
    NextRead(f, g, n, p, 1);
    SegmentSizes(g, p);
    var raw, length := g.inHeader, |ValueOf(kind, g, p)|;
    assert g.emitted + f.pendingParent + raw + [] == g.emitted + f.pendingParent + raw;
    BytesMove(f, g, WrappedFields(f, raw, kind, length), WrappedReading(f, g), p);
  }

  lemma MetadataHeaderDue(f: Fields, g: Reading, n: nat, p: Package)
    requires f.state == MetadataSequenceHeader && Due(f, g, n, p, 1) && Given(g, p) && AddsUp(f, g)
    requires ScanHeader(g.inHeader).Done?
    requires f.pendingParent == [] && f.metadataWire == [] && !f.sequenceActive && g.package.metadata == []
    ensures var raw, length := g.inHeader, |Parts(X88, p.metadata, 0)|;
            var f0 := f.(collectingMetadata := true);
            && ScanHeader(raw) == Done(1, length) && TagIs(raw, 1, A1) && length > 0
            && |raw| <= MAX_CARD_SEGMENT_BYTES && OuterTlvFits(f, |raw|, length)
            && |raw| + length <= MAX_METADATA_WIRE_BYTES
            && Room(f0, |raw|)
            && Due(OpenSequence(PassOn(f0, raw), length).(childCount := 0, state := MetadataChild),
                   Emitted(g, raw).(inHeader := [], sequenceLength := length), n, p, 0)
  {
    hide FromMetadata, FromFragment, TracksValue, LengthBytes, Header, ScanHeader, Encode, Parts, FromSecond,
      OuterLength, Given;
    NextRead(f, g, n, p, 1);
    WireSize(g, p);
    var raw, length := g.inHeader, |Parts(X88, p.metadata, 0)|;
    var f1 := OpenSequence(PassOn(f.(collectingMetadata := true), raw), length).(childCount := 0,
      state := MetadataChild);
    assert g.emitted + [] + raw == g.emitted + raw == g.emitted + raw + [];
    BytesMove(f, g, f1, Emitted(g, raw).(inHeader := [], sequenceLength := length), p);
  }

  lemma WireSize(g: Reading, p: Package)
    requires Given(g, p)
    ensures |Header(A1, |Parts(X88, p.metadata, 0)|)| + |Parts(X88, p.metadata, 0)| <= MAX_METADATA_WIRE_BYTES
  {
    hide LengthBytes, Header, Elements, Encode, Segments, Fitted;
    assert Drop(p.metadata, 0) == p.metadata;
    MetadataFlat(p.metadata);
  }

  lemma MetadataChildDue(f: Fields, g: Reading, n: nat, p: Package)
    requires f.state == MetadataChild && Due(f, g, n, p, 1) && Given(g, p) && AddsUp(f, g)
    requires ScanHeader(g.inHeader).Done?
    requires f.pendingParent == [] && f.collectingMetadata && f.sequenceActive && |g.package.metadata| < |p.metadata|
    ensures var raw, length := g.inHeader, |ValueOf(MetadataValue, g, p)|;
            && ScanHeader(raw) == Done(1, length) && TagIs(raw, 1, X88) && length > MAC_BYTES
            && CardTlvFits(0, |raw|, length) && OuterTlvFits(f, |raw|, length) && SequenceTlvFits(f, |raw|, length)
            && Room(f, |raw|)
            && Due(EnterValue(PassOn(f, raw), MetadataValue, length), HeaderTaken(Emitted(g, raw)), n, p, 0)
  {
    hide FromFragment, LengthBytes, Header, ScanHeader, Encode, FromSecond, OuterLength, Given, Parts;
    NextRead(f, g, n, p, 1);
    PartsStep(X88, p.metadata, |g.package.metadata|);
    var raw, length := g.inHeader, |ValueOf(MetadataValue, g, p)|;
    assert g.emitted + [] + raw == g.emitted + raw == g.emitted + raw + [];
    BytesMove(f, g, EnterValue(PassOn(f, raw), MetadataValue, length), HeaderTaken(Emitted(g, raw)), p);
  }

  lemma ProfileHeaderDue(f: Fields, g: Reading, n: nat, p: Package)
    requires f.state == ProfileSequenceHeader || (f.state == SecondSequenceOrProfile && p.second.None?)
    requires Due(f, g, n, p, 1) && Given(g, p) && AddsUp(f, g) && ScanHeader(g.inHeader).Done?
    requires f.pendingParent == [] && !f.sequenceActive && !f.collectingMetadata && !f.finalSegmentPending
    requires g.package.profile == []
    requires g.approved
    ensures var raw, length := g.inHeader, ProfileBytes(p);
            && ScanHeader(raw) == Done(1, length) && TagIs(raw, 1, A3) && length > 0
            && |raw| <= MAX_CARD_SEGMENT_BYTES && OuterTlvFits(f, |raw|, length) && Room(f, |raw|)
            && f.segmentCount < MAX_ELEMENTS
            && Due(SegmentCounted(OpenSequence(PassOn(f, raw), length).(childCount := 0)).(state := ProfileChild),
                   Closed(Emitted(g, raw), [] + raw).(inHeader := [], sequenceLength := length, begun := true), n, p, 0)
  {
    hide FromSecond, FromProfile, TracksValue, LengthBytes, Header, ScanHeader, Encode, Parts, OuterLength, Given;
    NextRead(f, g, n, p, 1);
    ScannedHeader(g.inHeader);
    var raw, length := g.inHeader, ProfileBytes(p);
    assert Drop(p.profile, 0) == p.profile;
    ProfileNotEmptyGiven(g, p);
    var f1 := SegmentCounted(OpenSequence(PassOn(f, raw), length).(childCount := 0)).(state := ProfileChild);
    assert g.emitted + [] + raw == g.emitted + raw == g.emitted + raw + [];
    BytesMove(f, g, f1, Closed(Emitted(g, raw), [] + raw).(inHeader := [], sequenceLength := length, begun := true), p);
  }

  lemma ProfileNotEmptyGiven(g: Reading, p: Package)
    requires Given(g, p)
    ensures 0 < ProfileBytes(p) == |Parts(X86, p.profile, 0)|
  {
    ProfileNotEmpty(p);
  }

  lemma ProfileChildDue(f: Fields, g: Reading, n: nat, p: Package)
    requires f.state == ProfileChild && Due(f, g, n, p, 1) && Given(g, p) && AddsUp(f, g)
    requires ScanHeader(g.inHeader).Done?
    requires f.pendingParent == [] && !f.collectingMetadata && f.sequenceActive && |g.package.profile| < |p.profile|
    requires !f.finalSegmentPending
    ensures var raw, length := g.inHeader, |ValueOf(ProfileValue, g, p)|;
            && ScanHeader(raw) == Done(1, length) && TagIs(raw, 1, X86) && length > 0
            && CardTlvFits(0, |raw|, length) && OuterTlvFits(f, |raw|, length) && SequenceTlvFits(f, |raw|, length)
            && Room(f, |raw|)
            && Due(EnterValue(PassOn(f, raw), ProfileValue, length), HeaderTaken(Emitted(g, raw)), |raw|, p, 0)
  {
    hide FromFragment, LengthBytes, Header, ScanHeader, Encode, FromSecond, OuterLength, Given, Parts;
    NextRead(f, g, n, p, 1);
    SegmentSizes(g, p);
    PartsStep(X86, p.profile, |g.package.profile|);
    var raw, length := g.inHeader, |ValueOf(ProfileValue, g, p)|;
    assert g.emitted + [] + raw == g.emitted + raw == g.emitted + raw + [];
    BytesMove(f, g, EnterValue(PassOn(f, raw), ProfileValue, length), HeaderTaken(Emitted(g, raw)), p);
  }

  // ----- one lemma for every value -----

  lemma DropOne(v: seq<byte>, current: seq<byte>)
    requires current <= v && |current| < |v|
    ensures Drop(v, |current|) == [v[|current|]] + Drop(v, |current| + 1) && current + [v[|current|]] <= v
  {
  }

  lemma NextByte(f: Fields, g: Reading, p: Package, b: byte)
    requires f.state == InValue && g.input == g.emitted && Encode(p) == g.emitted + Ahead(f, g, p)
    requires g.current <= ValueOf(f.valueKind, g, p) && |g.current| < |ValueOf(f.valueKind, g, p)|
    requires g.input + [b] <= Encode(p)
    ensures g.current + [b] <= ValueOf(f.valueKind, g, p)
    ensures Ahead(f, g, p) == [b] + Ahead(ValueByte(f, b), ValueReading(g, b), p)
    ensures Encode(p) == g.emitted + [b] + Ahead(ValueByte(f, b), ValueReading(g, b), p)
  {
    hide LengthBytes, Header, Encode, FromFirst, FromMetadata, FromFragment, FromProfile, Parts, ValueOf, FromAfter;
    var v, rest := ValueOf(f.valueKind, g, p), FromAfter(f.valueKind, g, p);
    SameValue(f, g, p, b);
    DropOne(v, g.current);
    var c, later := v[|g.current|], Drop(v, |g.current| + 1);
    ThreePieces([c], later, rest);
    BehindCommon(g.emitted, [b], [c] + (later + rest));
    ThreePieces(g.emitted, [b], later + rest);
  }

  lemma SameValue(f: Fields, g: Reading, p: Package, b: byte)
    ensures var f1, g1 := ValueByte(f, b), ValueReading(g, b);
            && f1.valueKind == f.valueKind && ValueOf(f.valueKind, g1, p) == ValueOf(f.valueKind, g, p)
            && FromAfter(f.valueKind, g1, p) == FromAfter(f.valueKind, g, p)
            && SequenceAfter(f.valueKind, g1, p) == SequenceAfter(f.valueKind, g, p)
  {
  }

  /** The next byte of a value is the next byte of the package, and there is room for it. */
  lemma ValueByteDue(f: Fields, g: Reading, n: nat, p: Package, b: byte)
    requires f.state == InValue && Due(f, g, n, p, 0) && AddsUp(f, g) && g.inHeader == [] && f.pendingParent == []
    requires f.valueRemaining > 0 && g.input + [b] <= Encode(p) && |Encode(p)| <= MAX_DECODED_BYTES
    requires f.collectingMetadata <==> f.valueKind == MetadataValue
    requires f.sequenceActive <==> f.valueKind != OuterValue
    ensures Room(f, 1) && (!f.collectingMetadata ==> n + 1 <= MAX_CARD_SEGMENT_BYTES)
    ensures Due(ValueByte(f, b), ValueReading(g, b), if f.collectingMetadata then n else n + 1, p, 0)
  {
    hide LengthBytes, Header, Encode, Parts, ValueOf, FromAfter, SequenceAfter, Ahead;
    assert g.emitted + [] + [] == g.emitted == g.emitted + [] && g.emitted + [b] + [] == g.emitted + [b];
    NextByte(f, g, p, b);
    SameValue(f, g, p, b);
  }

  /** A value that is complete is the value of the package. */
  lemma ValueComplete(f: Fields, g: Reading, n: nat, p: Package)
    requires f.state == InValue && Due(f, g, n, p, 0) && f.valueRemaining == 0
    ensures g.current == ValueOf(f.valueKind, g, p) && Ahead(f, g, p) == FromAfter(f.valueKind, g, p)
  {
    hide LengthBytes, Header, Encode, FromFirst, FromMetadata, FromFragment, FromProfile, Parts;
    assert [] + FromAfter(f.valueKind, g, p) == FromAfter(f.valueKind, g, p);
  }

  lemma OuterValueDue(f: Fields, g: Reading, n: nat, p: Package, segment: seq<byte>)
    requires f.state == InValue && f.valueKind == OuterValue && Due(f, g, n, p, 0) && f.valueRemaining == 0
    ensures f.segmentCount < MAX_ELEMENTS
    ensures Due(SegmentCounted(f).(state := FirstSequenceHeader),
                Closed(g, segment).(package := g.package.(configure := g.current)), 0, p, 0)
  {
    hide LengthBytes, Header, Encode, FromFirst;
    ValueComplete(f, g, n, p);
  }

  lemma FirstValueDue(f: Fields, g: Reading, n: nat, p: Package, segment: seq<byte>)
    requires f.state == InValue && f.valueKind == FirstValue && Due(f, g, n, p, 0) && f.valueRemaining == 0
    ensures f.segmentCount < MAX_ELEMENTS && f.sequenceRemaining == 0
    ensures Due(SegmentCounted(f.(sequenceActive := false)).(state := MetadataSequenceHeader),
                Closed(g, segment).(package := g.package.(first := g.current)), 0, p, 0)
  {
    hide LengthBytes, Header, Encode, FromMetadata;
    ValueComplete(f, g, n, p);
  }

  lemma SecondValueDue(f: Fields, g: Reading, n: nat, p: Package, segment: seq<byte>)
    requires f.state == InValue && f.valueKind == SecondValue && Due(f, g, n, p, 0) && f.valueRemaining == 0
    ensures f.segmentCount < MAX_ELEMENTS && f.sequenceRemaining == 0
    ensures Due(SegmentCounted(f.(sequenceActive := false)).(state := ProfileSequenceHeader),
                Closed(g, segment).(package := g.package.(second := Some(g.current))), 0, p, 0)
  {
    hide LengthBytes, Header, Encode, FromProfile;
    ValueComplete(f, g, n, p);
  }

  lemma MetadataValueDue(f: Fields, g: Reading, n: nat, p: Package)
    requires f.state == InValue && f.valueKind == MetadataValue && Due(f, g, n, p, 0) && f.valueRemaining == 0
    ensures Due(f.(childCount := f.childCount + 1, state := MetadataChild),
                g.(package := g.package.(metadata := g.package.metadata + [g.current])), n, p, 0)
  {
    hide LengthBytes, Header, Encode, FromSecond, Parts;
    ValueComplete(f, g, n, p);
    assert g.package.metadata + [g.current] == p.metadata[..|g.package.metadata| + 1];
  }

  /** A part of the profile, or its last one, which is kept. */
  lemma ProfileValueDue(f: Fields, g: Reading, n: nat, p: Package, segment: seq<byte>)
    requires f.state == InValue && f.valueKind == ProfileValue && Due(f, g, n, p, 0) && f.valueRemaining == 0
    requires f.pendingParent == [] && !f.finalSegmentPending
    ensures f.segmentCount < MAX_ELEMENTS
    ensures Due(SegmentCounted(f).(childCount := f.childCount + 1, state := ProfileChild),
      ProfileGrown(Closed(g, segment)), 0, p, 0)
    ensures Due(f.(finalSegmentPending := true, childCount := f.childCount + 1, state := ProfileChild),
      ProfileGrown(g), n, p, 0)
  {
    hide LengthBytes, Header, Encode, Parts;
    ValueComplete(f, g, n, p);
  }

  // ----- the metadata check, and the end -----

  /** With the sequence of the metadata full, all of it is there. */
  lemma MetadataDue(f: Fields, g: Reading, n: nat, p: Package)
    requires f.state == MetadataChild && Due(f, g, n, p, 0) && Given(g, p) && f.sequenceRemaining == 0
    requires f.childCount == |g.package.metadata| && f.pendingParent == [] && !g.approved
    ensures g.package.metadata == p.metadata && f.childCount > 0 && f.expectedValid
    ensures |Flat(MetadataSegments(p.metadata))| <= MAX_METADATA_WIRE_BYTES
    ensures (forall v | v in p.metadata :: |v| > MAC_BYTES) && |Plaintext(p.metadata)| <= MAX_OBJECT_BYTES
    ensures f.segmentCount + 1 + |p.metadata| <= MAX_ELEMENTS
    ensures Due(
      f.(collectingMetadata := false, metadataWire := [], segmentCount := f.segmentCount + 1 + |p.metadata|,
         expectedValid := false, sequenceActive := false, state := SecondSequenceOrProfile),
      g.(done := g.done + MetadataSegments(p.metadata), approved := true), 0, p, 0)
  {
    hide LengthBytes, Header, Encode, FromSecond, Element, Elements, Fitted, Segments;
    var i := |g.package.metadata|;
    if i < |p.metadata| { PartsStep(X88, p.metadata, i); } else { PartsEnd(X88, p.metadata, i); }
    assert [] + FromSecond(p) == FromSecond(p);
  }

  /** The input is the whole package: every header is complete, and every value. */
  lemma EndDue(f: Fields, g: Reading, n: nat, p: Package)
    requires Due(f, g, n, p, 0) && Complete(p) && AddsUp(f, g) && g.input == Encode(p)
    requires |Encode(p)| <= MAX_DECODED_BYTES
    requires f.state !in {Finished, Failed} && ScanHeader(g.inHeader) == More
    requires f.state == InValue ==> f.valueRemaining > 0 && g.inHeader == []
    ensures f.state == ProfileChild && !AtHeader(f, g, p) && g.inHeader == Ahead(f, g, p)
  {
    hide LengthBytes, Header, Encode, ScanHeader, Counted, NextTag, NextLength, AfterNext, FromAfter;
    assert g.inHeader == Ahead(f, g, p) by {
      var e := g.emitted + f.pendingParent;
      assert g.inHeader == (e + g.inHeader)[|e|..] && Ahead(f, g, p) == (e + Ahead(f, g, p))[|e|..];
    }
    // Behind the last fragment of the metadata, what is to come is what comes in the next state.
    var f1 := if f.state == MetadataChild && !AtHeader(f, g, p) then f.(state := SecondSequenceOrProfile) else f;
    if f1 != f {
      PartsEnd(X88, p.metadata, |g.package.metadata|);
      assert [] + FromSecond(p) == FromSecond(p);
    }
    if AtHeader(f1, g, p) {
      AheadIsHeader(f1, g, p);
      NextFits(f1, g, p);
      HeaderAhead(NextTag(f1, p), NextLength(f1, g, p), AfterNext(f1, g, p), g.inHeader);
    }
  }

  /** All that is left to do is to hand out the last block. */
  predicate Whole(f: Fields, g: Reading) {
    && f.childCount > 0 && f.outerRemaining == 0 && g.inHeader == [] && f.finalSegmentPending
    && f.segmentCount < MAX_ELEMENTS && f.installationResult == []
  }

  lemma WholeDue(f: Fields, g: Reading, segment: seq<byte>, active: bool, p: Package)
    requires Agreed(f, g, segment, active) == f.state && f.state !in {Finished, Failed}
    requires Due(f, g, |segment|, p, 0) && Given(g, p) && g.input == Encode(p) && ScanHeader(g.inHeader) == More
    requires f.state == InValue ==> f.valueRemaining > 0
    ensures f.state == ProfileChild && f.sequenceRemaining == 0 && Whole(f, g)
  {
    hide Agreed, LengthBytes, Header, Encode, ScanHeader, AddsUp, Fitted, MetadataSegments, Plaintext;
    if f.state == InValue { ValueFacts(f, g, segment, active); } else { HeaderFacts(f, g, segment, active); }
    EndDue(f, g, |segment|, p);
    PartsEnd(X86, p.profile, |g.package.profile|);
    LastIsPending(f, g, segment, active);
  }

  lemma LastIsPending(f: Fields, g: Reading, segment: seq<byte>, active: bool)
    requires Agreed(f, g, segment, active) == ProfileChild && f.outerRemaining == 0
    ensures f.finalSegmentPending
  {
    hide LengthBytes, Header, Flat, Elements, Opening, AfterMetadata, AfterProfile;
  }

  // ----- between the steps -----

  lemma StartDue(p: Package)
    requires WithinLimits(p)
    ensures Due(START_FIELDS.(expectedValid := true), NOTHING_READ, 0, p, 0)
  {
    hide Encode, Segments, Fitted, MetadataSegments, Plaintext;
    assert [] + [] + Encode(p) == Encode(p);
  }

  /** What has come in and has not been handled makes no difference. */
  lemma DueAnyInput(f: Fields, g: Reading, n: nat, p: Package, admitted: nat, input: seq<byte>, inHeader: seq<byte>)
    requires Due(f, g, n, p, admitted)
    ensures Due(f, g.(input := input, inHeader := inHeader), n, p, admitted)
  {
    hide Encode, FromConfigure, FromFirst, FromMetadata, FromFragment, FromSecond, FromProfile, Parts, Header;
  }

  /** A sequence that is not full is followed by the next of its headers. */
  lemma MoreToCome(f: Fields, g: Reading, n: nat, p: Package, admitted: nat)
    requires Due(f, g, n, p, admitted) && f.state !in {InValue, Finished, Failed}
    ensures f.state in {MetadataChild, ProfileChild} && !AtHeader(f, g, p) ==> f.sequenceRemaining == 0
    ensures f.state !in {MetadataChild, ProfileChild} ==> AtHeader(f, g, p)
    ensures f.state == SecondSequenceChild ==> p.second.Some?
  {
    hide Encode, Counted, Measured;
    if f.state == MetadataChild && |g.package.metadata| >= |p.metadata| {
      PartsEnd(X88, p.metadata, |g.package.metadata|);
    }
    if f.state == ProfileChild && |g.package.profile| >= |p.profile| { PartsEnd(X86, p.profile, |g.package.profile|); }
  }

  /** The next header is one that may be counted. */
  lemma HeaderAdmitted(f: Fields, g: Reading, n: nat, p: Package)
    requires Due(f, g, n, p, 0) && Given(g, p) && AddsUp(f, g) && AtHeader(f, g, p) && ScanHeader(g.inHeader).Done?
    requires f.decodedBytes <= |g.emitted|
    ensures |g.inHeader| > 0 && f.decodedBytes + |g.inHeader| + ScanHeader(g.inHeader).length <= MAX_DECODED_BYTES
    ensures f.elementCount < MAX_ELEMENTS && f.segmentCount < MAX_ELEMENTS
    ensures Due(f.(elementCount := f.elementCount + 1), g, n, p, 1)
  {
    hide LengthBytes, Header, Encode, ScanHeader, Given, TracksValue, NextTag, NextLength, AfterNext,
      FromConfigure, FromFirst, FromMetadata, FromFragment, FromSecond, FromProfile, Parts;
    NextRead(f, g, n, p, 0);
  }

  /** With the profile full, nothing more may come. */
  lemma NothingMoreDue(f: Fields, g: Reading, n: nat, p: Package, b: byte)
    requires f.state == ProfileChild && Due(f, g, n, p, 0) && AddsUp(f, g) && f.sequenceRemaining == 0
    ensures !(g.input + [b] <= Encode(p))
  {
    hide Encode, Counted;
    var j := |g.package.profile|;
    if j < |p.profile| { PartsStep(X86, p.profile, j); } else { PartsEnd(X86, p.profile, j); }
    assert |g.input| + 1 > |Encode(p)|;
  }

  /** What the reader knows of itself between segments. */
  lemma HeaderFacts(f: Fields, g: Reading, segment: seq<byte>, active: bool)
    requires Agreed(f, g, segment, active) == f.state && f.state !in {InValue, Finished, Failed}
    ensures AddsUp(f, g) && f.decodedBytes <= |g.emitted|
    ensures f.state in {OuterHeader, OuterChild} ==> g.emitted == [] && f.decodedBytes == 0
    ensures f.state !in {OuterChild, FirstSequenceChild, SecondSequenceChild} ==> f.pendingParent == []
    ensures f.state !in {MetadataChild, ProfileChild} ==>
      !f.sequenceActive && !f.collectingMetadata && f.metadataWire == []
    ensures f.state == MetadataSequenceHeader ==> g.package.metadata == []
    ensures f.state in {SecondSequenceOrProfile, ProfileSequenceHeader} ==> g.package.profile == [] && g.approved
    ensures f.state == MetadataChild ==>
      f.collectingMetadata && f.sequenceActive && !active && f.childCount == |g.package.metadata|
    ensures f.state == ProfileChild ==> !f.collectingMetadata && f.sequenceActive && f.childCount == |g.package.profile|
    ensures f.state != ProfileChild ==> !f.finalSegmentPending
    ensures f.state == ProfileChild && f.sequenceRemaining > 0 ==> !f.finalSegmentPending && !active
    ensures !active ==> segment == []
  {
    hide LengthBytes, Header, Flat, Elements, Opening, AfterMetadata, AfterProfile, InsideValue;
  }

  /** And inside a value. */
  lemma ValueFacts(f: Fields, g: Reading, segment: seq<byte>, active: bool)
    requires Agreed(f, g, segment, active) == InValue
    ensures f.state == InValue && AddsUp(f, g) && g.inHeader == [] && f.pendingParent == [] && !f.finalSegmentPending
    ensures f.collectingMetadata <==> f.valueKind == MetadataValue
    ensures f.sequenceActive <==> f.valueKind != OuterValue
  {
    hide LengthBytes, Header, Flat, Elements, Opening, AfterMetadata, AfterProfile;
  }

  // ----- the steps of the reader, as functions -----

  function ProfileOpened(f: Fields, raw: seq<byte>, length: nat): Fields {
    SegmentCounted(OpenSequence(PassOn(f, raw), length).(childCount := 0)).(state := ProfileChild)
  }

  /** The counters after a header has been handled. */
  function HeaderFields(f: Fields, raw: seq<byte>, tagBytes: nat, length: nat): Fields {
    match f.state
    case OuterHeader => f.(pendingParent := raw, pendingParentLength := length, outerRemaining := length,
      state := OuterChild)
    case OuterChild => EnterValue(PassOn(f.(decodedBytes := |f.pendingParent|), raw), OuterValue, length)
    case FirstSequenceHeader => Parked(f, raw, length, FirstSequenceChild)
    case FirstSequenceChild => WrappedFields(f, raw, FirstValue, length)
    case MetadataSequenceHeader =>
      OpenSequence(PassOn(f.(collectingMetadata := true), raw), length).(childCount := 0, state := MetadataChild)
    case MetadataChild => EnterValue(PassOn(f, raw), MetadataValue, length)
    case SecondSequenceOrProfile =>
      if TagIs(raw, tagBytes, A2) then Parked(f, raw, length, SecondSequenceChild) else ProfileOpened(f, raw, length)
    case SecondSequenceChild => WrappedFields(f, raw, SecondValue, length)
    case ProfileSequenceHeader => ProfileOpened(f, raw, length)
    case _ => EnterValue(PassOn(f, raw), ProfileValue, length)
  }

  function ProfileReading(g: Reading, raw: seq<byte>, length: nat): Reading {
    Closed(Emitted(g, raw), [] + raw).(inHeader := [], sequenceLength := length, begun := true)
  }

  /** What has been read by then. */
  function HeaderReading(f: Fields, g: Reading, raw: seq<byte>, tagBytes: nat, length: nat): Reading {
    match f.state
    case OuterHeader => g.(outerLength := length, inHeader := [])
    case OuterChild => HeaderTaken(Emitted(g.(emitted := f.pendingParent), raw))
    case FirstSequenceHeader => g.(inHeader := [])
    case FirstSequenceChild => WrappedReading(f, g)
    case MetadataSequenceHeader => Emitted(g, raw).(inHeader := [], sequenceLength := length)
    case MetadataChild => HeaderTaken(Emitted(g, raw))
    case SecondSequenceOrProfile => if TagIs(raw, tagBytes, A2) then g.(inHeader := [])
      else ProfileReading(g, raw, length)
    case SecondSequenceChild => WrappedReading(f, g)
    case ProfileSequenceHeader => ProfileReading(g, raw, length)
    case _ => HeaderTaken(Emitted(g, raw))
  }

  /** The size of the open segment by then. */
  function HeaderSegment(f: Fields, n: nat, raw: seq<byte>): nat {
    match f.state
    case OuterChild => |f.pendingParent| + |raw|
    case FirstSequenceChild => |f.pendingParent| + |raw|
    case SecondSequenceChild => |f.pendingParent| + |raw|
    case ProfileChild => |raw|
    case _ => n
  }

  /** A header in its place is handled if it is the right one, and if there is room. */
  predicate HeaderFits(f: Fields, segmentBytes: nat, raw: seq<byte>, tagBytes: nat, length: nat) {
    match f.state
    case OuterHeader => TagIs(raw, tagBytes, BF36) && length > 0 && |raw| <= MAX_CARD_SEGMENT_BYTES
    case OuterChild =>
      && TagIs(raw, tagBytes, BF23) && length > 0
      && ParentFits(f, |raw|, length, false) && Room(f.(decodedBytes := |f.pendingParent|), |raw|)
    case FirstSequenceHeader => TagIs(raw, tagBytes, A0) && length > 0
    case FirstSequenceChild => WrappedFits(f, raw, tagBytes, length)
    case MetadataSequenceHeader =>
      && TagIs(raw, tagBytes, A1) && length > 0
      && |raw| <= MAX_CARD_SEGMENT_BYTES && OuterTlvFits(f, |raw|, length) && |raw| + length <= MAX_METADATA_WIRE_BYTES
      && Room(f.(collectingMetadata := true), |raw|)
    case MetadataChild => TagIs(raw, tagBytes, X88) && length > MAC_BYTES && ChildFits(f, segmentBytes, raw, length)
    case SecondSequenceOrProfile => length > 0 && (TagIs(raw, tagBytes, A2) || ProfileFits(f, raw, tagBytes, length))
    case SecondSequenceChild => WrappedFits(f, raw, tagBytes, length)
    case ProfileSequenceHeader => length > 0 && ProfileFits(f, raw, tagBytes, length)
    case _ => TagIs(raw, tagBytes, X86) && length > 0 && ChildFits(f, segmentBytes, raw, length)
  }

  predicate WrappedFits(f: Fields, raw: seq<byte>, tagBytes: nat, length: nat) {
    && TagIs(raw, tagBytes, X87) && length > 0
    && ParentFits(f, |raw|, length, true) && Room(f, |f.pendingParent|)
    && Room(OpenSequence(PassOn(f, f.pendingParent), f.pendingParentLength), |raw|)
  }

  predicate ChildFits(f: Fields, segmentBytes: nat, raw: seq<byte>, length: nat) {
    && CardTlvFits(segmentBytes, |raw|, length) && OuterTlvFits(f, |raw|, length) && SequenceTlvFits(f, |raw|, length)
    && Room(f, |raw|)
  }

  predicate ProfileFits(f: Fields, raw: seq<byte>, tagBytes: nat, length: nat) {
    && TagIs(raw, tagBytes, A3) && |raw| <= MAX_CARD_SEGMENT_BYTES && OuterTlvFits(f, |raw|, length)
    && Room(f, |raw|) && f.segmentCount < MAX_ELEMENTS
  }

  /** A header of the package is handled, and the reader stays in the middle of the package. */
  lemma HeaderDue(f: Fields, g: Reading, segment: seq<byte>, active: bool, p: Package, tagBytes: nat, length: nat)
    requires Agreed(f, g, segment, active) == f.state && f.state !in {InValue, Finished, Failed}
    requires Due(f, g, |segment|, p, 1) && Given(g, p) && ScanHeader(g.inHeader) == Done(tagBytes, length)
    requires f.state in {MetadataChild, ProfileChild} ==> f.sequenceRemaining > 0
    ensures HeaderFits(f, |segment|, g.inHeader, tagBytes, length)
    ensures Due(HeaderFields(f, g.inHeader, tagBytes, length), HeaderReading(f, g, g.inHeader, tagBytes, length),
                HeaderSegment(f, |segment|, g.inHeader), p, 0)
  {
    hide Agreed, Given, ScanHeader, LengthBytes, Header, Encode, Due, AddsUp, Room, ParentFits;
    var n := |segment|;
    HeaderFacts(f, g, segment, active);
    MoreToCome(f, g, n, p, 1);
    match f.state {
      case OuterHeader => OuterHeaderDue(f, g, n, p);
      case OuterChild => OuterChildDue(f, g, n, p);
      case FirstSequenceHeader => FirstSequenceDue(f, g, n, p);
      case FirstSequenceChild => WrappedDue(f, g, n, p, FirstValue);
      case MetadataSequenceHeader => MetadataHeaderDue(f, g, n, p);
      case MetadataChild => MetadataChildDue(f, g, n, p);
      case SecondSequenceOrProfile =>
        if p.second.Some? { SecondSequenceDue(f, g, n, p); } else { ProfileHeaderDue(f, g, n, p); }
      case SecondSequenceChild => WrappedDue(f, g, n, p, SecondValue);
      case ProfileSequenceHeader => ProfileHeaderDue(f, g, n, p);
      case ProfileChild => ProfileChildDue(f, g, n, p);
    }
  }

  /** The counters after a value that is complete. */
  function EndedFields(f: Fields): Fields {
    match f.valueKind
    case OuterValue => SegmentCounted(f).(state := FirstSequenceHeader)
    case FirstValue => SegmentCounted(f.(sequenceActive := false)).(state := MetadataSequenceHeader)
    case MetadataValue => f.(childCount := f.childCount + 1, state := MetadataChild)
    case SecondValue => SegmentCounted(f.(sequenceActive := false)).(state := ProfileSequenceHeader)
    case ProfileValue =>
      if Full(f) then f.(finalSegmentPending := true, childCount := f.childCount + 1, state := ProfileChild)
      else SegmentCounted(f).(childCount := f.childCount + 1, state := ProfileChild)
  }

  /** The package is complete, but for the last block. */
  predicate Full(f: Fields) { f.sequenceRemaining == 0 && f.outerRemaining == 0 }

  function EndedReading(f: Fields, g: Reading, segment: seq<byte>): Reading {
    match f.valueKind
    case OuterValue => Closed(g, segment).(package := g.package.(configure := g.current))
    case FirstValue => Closed(g, segment).(package := g.package.(first := g.current))
    case MetadataValue => g.(package := g.package.(metadata := g.package.metadata + [g.current]))
    case SecondValue => Closed(g, segment).(package := g.package.(second := Some(g.current)))
    case ProfileValue => ProfileGrown(if Full(f) then g else Closed(g, segment))
  }

  function EndedSegment(f: Fields, n: nat): nat {
    if f.valueKind == MetadataValue || (f.valueKind == ProfileValue && Full(f)) then n else 0
  }

  predicate EndFits(f: Fields) {
    && (f.valueKind in {FirstValue, SecondValue} ==> f.sequenceRemaining == 0)
    && (f.valueKind != MetadataValue && !(f.valueKind == ProfileValue && Full(f)) ==> f.segmentCount < MAX_ELEMENTS)
  }

  lemma ValueEndDue(f: Fields, g: Reading, segment: seq<byte>, active: bool, p: Package)
    requires Agreed(f, g, segment, active) == InValue && Due(f, g, |segment|, p, 0) && f.valueRemaining == 0
    ensures EndFits(f) && Due(EndedFields(f), EndedReading(f, g, segment), EndedSegment(f, |segment|), p, 0)
  {
    hide Agreed, LengthBytes, Header, Encode, Due, AddsUp;
    var n := |segment|;
    ValueFacts(f, g, segment, active);
    match f.valueKind {
      case OuterValue => OuterValueDue(f, g, n, p, segment);
      case FirstValue => FirstValueDue(f, g, n, p, segment);
      case MetadataValue => MetadataValueDue(f, g, n, p);
      case SecondValue => SecondValueDue(f, g, n, p, segment);
      case ProfileValue => ProfileValueDue(f, g, n, p, segment);
    }
  }

  predicate ByteFits(f: Fields, n: nat) { Room(f, 1) && (!f.collectingMetadata ==> n + 1 <= MAX_CARD_SEGMENT_BYTES) }

  lemma NextByteDue(f: Fields, g: Reading, segment: seq<byte>, active: bool, p: Package, b: byte)
    requires Agreed(f, g, segment, active) == InValue && Due(f, g, |segment|, p, 0) && f.valueRemaining > 0
    requires Given(g, p) && g.input + [b] <= Encode(p)
    ensures ByteFits(f, |segment|)
    ensures Due(ValueByte(f, b), ValueReading(g, b), |WithByte(f, segment, b)|, p, 0)
  {
    hide Agreed, LengthBytes, Header, Encode, Due, AddsUp, Room, Fitted, Plaintext, Complete, MetadataSegments;
    ValueFacts(f, g, segment, active);
    ValueByteDue(f, g, |segment|, p, b);
  }

  // What the steps are, state by state.

  lemma OuterChildStep(f: Fields, g: Reading, n: nat, segmentBytes: nat, raw: seq<byte>, tagBytes: nat, length: nat)
    requires f.state == OuterChild
    ensures HeaderFields(f, raw, tagBytes, length)
      == EnterValue(PassOn(f.(decodedBytes := |f.pendingParent|), raw), OuterValue, length)
    ensures HeaderReading(f, g, raw, tagBytes, length) == HeaderTaken(Emitted(g.(emitted := f.pendingParent), raw))
    ensures HeaderSegment(f, n, raw) == |f.pendingParent| + |raw|
    ensures HeaderFits(f, segmentBytes, raw, tagBytes, length) <==>
      && TagIs(raw, tagBytes, BF23) && length > 0
      && ParentFits(f, |raw|, length, false) && Room(f.(decodedBytes := |f.pendingParent|), |raw|)
  {
  }

  lemma WrappedStep(f: Fields, g: Reading, n: nat, segmentBytes: nat, raw: seq<byte>, tagBytes: nat, length: nat)
    requires f.state in {FirstSequenceChild, SecondSequenceChild}
    ensures HeaderFields(f, raw, tagBytes, length)
         == WrappedFields(f, raw, if f.state == FirstSequenceChild then FirstValue else SecondValue, length)
    ensures HeaderReading(f, g, raw, tagBytes, length) == WrappedReading(f, g)
    ensures HeaderSegment(f, n, raw) == |f.pendingParent| + |raw|
    ensures HeaderFits(f, segmentBytes, raw, tagBytes, length) <==>
      && TagIs(raw, tagBytes, X87) && length > 0
      && ParentFits(f, |raw|, length, true) && Room(f, |f.pendingParent|)
      && Room(OpenSequence(PassOn(f, f.pendingParent), f.pendingParentLength), |raw|)
  {
  }

  lemma MetadataHeaderStep(f: Fields, g: Reading, n: nat, segmentBytes: nat, raw: seq<byte>, tagBytes: nat, length: nat)
    requires f.state == MetadataSequenceHeader
    ensures HeaderFields(f, raw, tagBytes, length)
         == OpenSequence(PassOn(f.(collectingMetadata := true), raw), length).(childCount := 0, state := MetadataChild)
    ensures HeaderReading(f, g, raw, tagBytes, length) == Emitted(g, raw).(inHeader := [], sequenceLength := length)
    ensures HeaderSegment(f, n, raw) == n
    ensures HeaderFits(f, segmentBytes, raw, tagBytes, length) <==>
      && TagIs(raw, tagBytes, A1) && length > 0
      && |raw| <= MAX_CARD_SEGMENT_BYTES && OuterTlvFits(f, |raw|, length) && |raw| + length <= MAX_METADATA_WIRE_BYTES
      && Room(f.(collectingMetadata := true), |raw|)
  {
  }

  lemma ChildStep(f: Fields, g: Reading, n: nat, segmentBytes: nat, raw: seq<byte>, tagBytes: nat, length: nat)
    requires f.state in {MetadataChild, ProfileChild}
    ensures HeaderFields(f, raw, tagBytes, length)
         == EnterValue(PassOn(f, raw), if f.state == MetadataChild then MetadataValue else ProfileValue, length)
    ensures HeaderReading(f, g, raw, tagBytes, length) == HeaderTaken(Emitted(g, raw))
    ensures HeaderSegment(f, n, raw) == if f.state == MetadataChild then n else |raw|
    ensures HeaderFits(f, segmentBytes, raw, tagBytes, length) <==>
      && (if f.state == MetadataChild then TagIs(raw, tagBytes, X88) && length > MAC_BYTES
        else TagIs(raw, tagBytes, X86) && length > 0)
      && ChildFits(f, segmentBytes, raw, length)
  {
  }

  lemma ProfileHeaderStep(f: Fields, g: Reading, n: nat, segmentBytes: nat, raw: seq<byte>, tagBytes: nat, length: nat)
    requires f.state == ProfileSequenceHeader || (f.state == SecondSequenceOrProfile && !TagIs(raw, tagBytes, A2))
    ensures HeaderFields(f, raw, tagBytes, length) == ProfileOpened(f, raw, length)
    ensures HeaderReading(f, g, raw, tagBytes, length) == ProfileReading(g, raw, length)
    ensures HeaderSegment(f, n, raw) == n
    ensures HeaderFits(f, segmentBytes, raw, tagBytes, length) <==> length > 0 && ProfileFits(f, raw, tagBytes, length)
  {
  }

  /** The counters after the metadata has been handed out. */
  function LeftFields(f: Fields, n: nat): Fields {
    f.(collectingMetadata := false, metadataWire := [], segmentCount := f.segmentCount + 1 + n,
       expectedValid := false, sequenceActive := false, state := SecondSequenceOrProfile)
  }

  function LeftReading(g: Reading): Reading {
    g.(done := g.done + MetadataSegments(g.package.metadata), approved := true)
  }
}
