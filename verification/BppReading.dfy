/**
 * What the stream parser has read so far, and how its counters must agree with it: the
 * invariant of the parser, and one lemma for every step that the parser takes.
 */
module BppReading {
  import opened Bytes
  import opened BppCard
  import opened Der
  import opened BppPackage

  datatype State =
    | OuterHeader | OuterChild | FirstSequenceHeader | FirstSequenceChild
    | MetadataSequenceHeader | MetadataChild | SecondSequenceOrProfile | SecondSequenceChild
    | ProfileSequenceHeader | ProfileChild | InValue | Finished | Failed

  datatype ValueKind = OuterValue | FirstValue | MetadataValue | SecondValue | ProfileValue

  /** The counters and flags of the parser. */
  datatype Fields = Fields(
    state: State,
    valueKind: ValueKind,
    valueRemaining: nat,
    outerRemaining: nat,
    sequenceRemaining: nat,
    childCount: nat,
    decodedBytes: nat,
    segmentCount: nat,
    elementCount: nat,
    installationResult: seq<byte>,
    expectedValid: bool,
    metadataWire: seq<byte>,
    collectingMetadata: bool,
    pendingParent: seq<byte>,
    pendingParentLength: nat,
    sequenceActive: bool,
    finalSegmentPending: bool)

  /** What has been read: the input, the complete segments, and the package so far. */
  datatype Reading = Reading(
    input: seq<byte>,
    emitted: seq<byte>,
    inHeader: seq<byte>,
    done: seq<seq<byte>>,
    package: Package,
    current: seq<byte>,
    outerLength: nat,
    sequenceLength: nat,
    approved: bool,
    begun: bool)

  const START_FIELDS := Fields(
    OuterHeader, OuterValue, 0, 0, 0, 0, 0, 0, 0, [], false, [], false, [], 0, false, false)

  const NO_PACKAGE := Package([], [], [], None, [])
  const NOTHING_READ := Reading([], [], [], [], NO_PACKAGE, [], 0, 0, false, false)

  /** The first segment, once it is complete. */
  function Opened(g: Reading): seq<seq<byte>> { [Opening(g.outerLength, g.package.configure)] }

  function First(g: Reading): seq<seq<byte>> { Opened(g) + [Wrapped(A0, g.package.first)] }

  function Metadata(g: Reading): seq<seq<byte>> { Opened(g) + AfterMetadata(g.package) }

  function Second(g: Reading): seq<seq<byte>> { Opened(g) + AfterSecond(g.package) }

  function Profile(g: Reading): seq<seq<byte>> { Opened(g) + AfterProfile(g.package, g.sequenceLength) }

  /** The card may be given more: the metadata has not begun, or it has been approved. */
  predicate Writable(g: Reading) { |g.done| < 2 || g.approved }

  /** Between segments, outside any sequence that is still open. */
  predicate Between(f: Fields, g: Reading, active: bool, segments: seq<seq<byte>>) {
    g.done == segments && !active && !f.collectingMetadata && !f.sequenceActive
  }

  predicate NothingKept(g: Reading) {
    !g.approved && g.package == NO_PACKAGE
  }

  predicate BeforeMetadata(g: Reading) {
    && !g.approved && g.package.configure != []
    && g.package.metadata == [] && g.package.second.None? && g.package.profile == []
  }

  predicate AfterCheck(g: Reading) {
    && g.approved && g.package.configure != [] && g.package.first != []
    && g.package.second.None? && g.package.profile == []
  }

  predicate MetadataOpen(f: Fields, g: Reading) {
    && g.done == First(g)
    && f.collectingMetadata && f.sequenceActive && !g.approved
    && g.package.configure != [] && g.package.first != []
    && g.package.second.None? && g.package.profile == []
    && f.childCount == |g.package.metadata|
    && (forall v | v in g.package.metadata :: |v| > MAC_BYTES)
  }

  predicate ProfileOpen(f: Fields, g: Reading) {
    && !f.collectingMetadata && f.sequenceActive && g.approved
    && g.package.configure != [] && g.package.first != []
    && (g.package.second.Some? ==> g.package.second.value != [])
    && f.childCount == |g.package.profile|
    && [] !in g.package.profile
    && f.sequenceRemaining <= f.outerRemaining
  }

  /** Inside a value of `n` bytes, of which `current` has been read. */
  predicate InsideValue(f: Fields, g: Reading, segment: seq<byte>, active: bool, n: nat) {
    match f.valueKind
    case OuterValue =>
      && !f.collectingMetadata && !f.sequenceActive && active && g.done == [] && NothingKept(g)
      && segment == Header(BF36, g.outerLength) + Header(BF23, n) + g.current
    case FirstValue =>
      && !f.collectingMetadata && f.sequenceActive && active && g.done == Opened(g) && BeforeMetadata(g)
      && segment == Header(A0, |Header(X87, n)| + n) + Header(X87, n) + g.current
    case MetadataValue =>
      && MetadataOpen(f, g) && !active && n > MAC_BYTES
      && f.metadataWire == Header(A1, g.sequenceLength) + Flat(Elements(X88, g.package.metadata)) + Header(X88, n)
        + g.current
      && f.sequenceRemaining + |Flat(Elements(X88, g.package.metadata))| + |Header(X88, n)|
        + |g.current| == g.sequenceLength
    case SecondValue =>
      && !f.collectingMetadata && f.sequenceActive && active && g.done == Metadata(g) && AfterCheck(g)
      && segment == Header(A2, |Header(X87, n)| + n) + Header(X87, n) + g.current
    case ProfileValue =>
      && ProfileOpen(f, g) && active && g.done == Profile(g)
      && f.sequenceRemaining + |Flat(Elements(X86, g.package.profile))| + |Header(X86, n)|
        + |g.current| == g.sequenceLength
      && segment == Header(X86, n) + g.current
  }

  predicate AtProfileChild(f: Fields, g: Reading, segment: seq<byte>, active: bool) {
    && ProfileOpen(f, g)
    && f.sequenceRemaining + |Flat(Elements(X86, g.package.profile))| == g.sequenceLength
    && (if f.finalSegmentPending then
          var ps := g.package.profile;
          && active && ps != [] && f.sequenceRemaining == 0 == f.outerRemaining
          && segment == Element(X86, ps[|ps| - 1])
          && Profile(g) == g.done + [segment]
        else !active && f.outerRemaining > 0 && g.done == Profile(g))
  }

  /** Where the parser is in the package. */
  predicate Position(f: Fields, g: Reading, segment: seq<byte>, active: bool) {
    match f.state
    case OuterHeader =>
      Between(f, g, active, []) && f.pendingParent == [] && NothingKept(g)
    case OuterChild =>
      Between(f, g, active, []) && f.pendingParent == Header(BF36, g.outerLength) && NothingKept(g)
      && f.outerRemaining == g.outerLength
    case FirstSequenceHeader =>
      Between(f, g, active, Opened(g)) && f.pendingParent == [] && BeforeMetadata(g)
    case FirstSequenceChild =>
      Between(f, g, active, Opened(g)) && f.pendingParent == Header(A0, f.pendingParentLength) && BeforeMetadata(g)
    case MetadataSequenceHeader =>
      Between(f, g, active, First(g)) && f.pendingParent == [] && BeforeMetadata(g) && g.package.first != []
    case MetadataChild =>
      MetadataOpen(f, g) && !active && f.pendingParent == []
      && f.metadataWire == Header(A1, g.sequenceLength) + Flat(Elements(X88, g.package.metadata))
      && f.sequenceRemaining + |Flat(Elements(X88, g.package.metadata))| == g.sequenceLength
    case SecondSequenceOrProfile =>
      Between(f, g, active, Metadata(g)) && f.pendingParent == [] && AfterCheck(g)
    case SecondSequenceChild =>
      Between(f, g, active, Metadata(g)) && f.pendingParent == Header(A2, f.pendingParentLength) && AfterCheck(g)
    case ProfileSequenceHeader =>
      Between(f, g, active, Second(g)) && f.pendingParent == []
      && g.approved && g.package.configure != [] && g.package.first != []
      && g.package.second.Some? && g.package.second.value != [] && g.package.profile == []
    case ProfileChild =>
      f.pendingParent == [] && AtProfileChild(f, g, segment, active)
    case InValue =>
      g.inHeader == [] && f.pendingParent == []
      && InsideValue(f, g, segment, active, |g.current| + f.valueRemaining)
    case _ => false
  }

  function Tail(f: Fields, segment: seq<byte>): seq<byte> {
    if f.collectingMetadata then f.metadataWire else segment
  }

  predicate Outer(f: Fields) { f.state == OuterHeader || f.state == OuterChild }

  /** The bytes add up: what came in has been passed on, or waits in a header. */
  predicate Accounts(f: Fields, g: Reading, segment: seq<byte>, active: bool) {
    && (!active ==> segment == [])
    && f.installationResult == []
    && g.input == g.emitted + f.pendingParent + g.inHeader
    && g.emitted == Flat(g.done) + Tail(f, segment)
    && f.segmentCount == |g.done|
    && (f.finalSegmentPending ==> f.state == ProfileChild)
    && (!f.collectingMetadata ==> f.metadataWire == [])
    && (if Outer(f) then f.decodedBytes == 0 && g.emitted == []
        else
          && f.decodedBytes == |g.emitted|
          && |g.emitted| + f.outerRemaining == |Header(BF36, g.outerLength)| + g.outerLength)
  }

  /** The state that the fields, the reading and the open segment agree on; `Failed` if they do not. */
  function Agreed(f: Fields, g: Reading, segment: seq<byte>, active: bool): State {
    if Accounts(f, g, segment, active) && Position(f, g, segment, active) && (g.begun <==> InProfile(f)) then f.state
    else Failed
  }

  predicate InProfile(f: Fields) { f.state == ProfileChild || (f.state == InValue && f.valueKind == ProfileValue) }

  /** The length of the whole package, as its header declares it. */
  function DeclaredBytes(outer: nat): nat { |Header(BF36, outer)| + outer }

  // ----- what is withheld from the card -----

  /** The bytes are not those of an 86, nor a start of one. */
  predicate NotProfile(s: seq<byte>) { s == [] || s[0] != 0x86 }

  /**
   * Before the sequence of the profile, the card has not been handed any 86. From then on it has not been
   * handed the end of the package, by the length that the package declares.
   */
  predicate Sealed(begun: bool, done: seq<seq<byte>>, outer: nat, segment: seq<byte>, log: seq<CardEvent>) {
    if begun then |Payload(log)| < DeclaredBytes(outer)
    else (forall s | s in done :: NotProfile(s)) && NotProfile(segment)
  }

  lemma SealedBegin(begun: bool, done: seq<seq<byte>>, outer: nat, segment: seq<byte>, log: seq<CardEvent>)
    requires Sealed(begun, done, outer, segment, log)
    ensures Sealed(begun, done, outer, [], log + [Begin])
  {
    hide Payload, LengthBytes, Header;
    PayloadSnoc(log, Begin);
  }

  /** Handing out at most these bytes, and less than all of them, breaks no seal. */
  lemma SealedWrite(begun: bool, done: seq<seq<byte>>, outer: nat, segment: seq<byte>, data: seq<byte>,
    log: seq<CardEvent>,
                    segment1: seq<byte>, log1: seq<CardEvent>)
    requires Sealed(begun, done, outer, segment, log) && Roomy(begun, done, outer, segment, data)
    requires segment1 <= segment + data && |Payload(log1)| < |Flat(done)| + |segment| + |data|
    ensures Sealed(begun, done, outer, segment1, log1)
  {
    hide Payload, LengthBytes, Header, Flat;
  }

  /** Nor does closing a segment that is not the end of the package. */
  lemma SealedClose(g: Reading, segment: seq<byte>, log: seq<CardEvent>, log1: seq<CardEvent>)
    requires Sealed(g.begun, g.done, g.outerLength, segment, log) && Closable(g, segment)
    requires |Payload(log1)| == |Flat(g.done)| + |segment|
    ensures Sealed(g.begun, g.done + [segment], g.outerLength, [], log1)
    ensures Sealed(g.begun, g.done, g.outerLength, segment, log1)
  {
    hide Payload, LengthBytes, Header, Flat;
  }

  /** Before the profile, the length of the package says nothing about the seal. */
  lemma SealedAnyLength(done: seq<seq<byte>>, outer: nat, segment: seq<byte>, log: seq<CardEvent>, outer1: nat)
    requires Sealed(false, done, outer, segment, log)
    ensures Sealed(false, done, outer1, segment, log)
  {
  }

  /** The card may be handed these bytes next. */
  predicate Roomy(begun: bool, done: seq<seq<byte>>, outer: nat, segment: seq<byte>, data: seq<byte>) {
    if begun then |Flat(done)| + |segment| + |data| <= DeclaredBytes(outer) else NotProfile(segment + data)
  }

  /** And so it may, if they stay within what the package has left. */
  predicate Outgoing(f: Fields, g: Reading, segment: seq<byte>, data: seq<byte>) {
    f.collectingMetadata
    || (if g.begun then |Flat(g.done)| + |segment| + f.outerRemaining <= DeclaredBytes(g.outerLength)
      else NotProfile(segment + data))
  }

  /** A segment that starts like this is not one of the profile, whatever follows. */
  predicate StartsElse(s: seq<byte>) { s != [] && s[0] != 0x86 }

  lemma MetadataStartsElse(n: nat, value: seq<byte>)
    ensures StartsElse(Header(A1, n)) && StartsElse(Element(X88, value))
  {
  }

  /** The open segment may be closed: it is not the end of the package. */
  predicate Closable(g: Reading, segment: seq<byte>) {
    g.begun ==> |Flat(g.done)| + |segment| < DeclaredBytes(g.outerLength)
  }

  lemma EndsInProfile(p: Package)
    requires Complete(p)
    ensures var s := Segments(p); s != [] && s[|s| - 1] != [] && s[|s| - 1][0] == 0x86
  {
    hide Flat, MetadataSegments, LengthBytes;
    assert Segments(p)[|Segments(p)| - 1] == Element(X86, p.profile[|p.profile| - 1]);
  }

  lemma StartsWithLength(outer: nat, configure: seq<byte>, later: seq<seq<byte>>)
    ensures Flat([Opening(outer, configure)] + later) == Header(BF36, outer) + (Element(BF23, configure) + Flat(later))
  {
    hide LengthBytes, Header;
    assert ([Opening(outer, configure)] + later)[1..] == later;
    ThreePieces(Header(BF36, outer), Element(BF23, configure), Flat(later));
  }

  // ----- what goes out before the metadata has been checked -----

  predicate EarlyIn(front: seq<byte>, outer: nat, configure: seq<byte>, first: seq<byte>) {
    front <= Flat(FirstSegments(outer, configure, first))
  }

  /** The bytes are a start of some first two segments: BF36 with BF23, and A0 with 87. */
  ghost predicate Early(front: seq<byte>) {
    exists outer, configure, first :: EarlyIn(front, outer, configure, first)
  }

  lemma EarlyStart(a: seq<byte>, b: seq<byte>)
    requires a <= b && Early(b)
    ensures Early(a)
  {
    hide FirstSegments, Flat;
    var outer, configure, first :| EarlyIn(b, outer, configure, first);
    assert EarlyIn(a, outer, configure, first);
  }

  /** A write that stops anywhere has written nothing that might not be written. */
  lemma WrittenInPart(front: seq<byte>, was: seq<byte>, data: seq<byte>, now: seq<byte>, input: seq<byte>)
    requires now <= was + data && front + was + data <= input
    ensures front + now <= input && (Early(front + was + data) ==> Early(front + now))
  {
    hide Early;
    assert front + was + data == front + (was + data);
    PrefixOfPrefix(front, now, was + data, input);
    PrefixOfPrefix(front, now, was + data, front + (was + data));
    if Early(front + was + data) { EarlyStart(front + now, front + was + data); }
  }

  /** Nothing has gone out yet. */
  lemma NothingOut(log: seq<CardEvent>)
    ensures Flat<byte>([]) == [] && Transcript([]) == [] && Fitted([])
    ensures Early([]) && Early(Flat([]) + []) && Sealed(false, [], 0, [], log)
  {
    hide FirstSegments;
    assert EarlyIn([], 0, [], []);
    assert Flat<byte>([]) + [] == [];
  }

  /** A value of `n` bytes of which these have been read, and anything at all for the rest. */
  function Filled(current: seq<byte>, n: nat): (r: seq<byte>)
    ensures |current| <= n ==> |r| == n && current <= r
  {
    current + seq(if |current| <= n then n - |current| else 0, _ => 0)
  }

  lemma FirstTwo(outer: nat, configure: seq<byte>, first: seq<byte>)
    ensures Flat(FirstSegments(outer, configure, first)) == Opening(outer, configure) + Wrapped(A0, first)
  {
    hide Opening, Wrapped;
    var s := FirstSegments(outer, configure, first);
    assert s[1..] == [Wrapped(A0, first)];
    assert Flat([Wrapped(A0, first)]) == Wrapped(A0, first) by { FlatOfOne(Wrapped(A0, first)); }
    assert Wrapped(A0, first) + [] == Wrapped(A0, first);
  }

  /** Inside BF23. */
  lemma OpeningIsEarly(outer: nat, n: nat, current: seq<byte>)
    requires |current| <= n
    ensures Early(Header(BF36, outer) + Header(BF23, n) + current)
  {
    hide LengthBytes, Header, Flat, FirstSegments, Wrapped;
    var h := Header(BF36, outer) + Header(BF23, n);
    var v := Filled(current, n);
    FirstTwo(outer, v, []);
    ThreePieces(Header(BF36, outer), Header(BF23, n), v);
    assert h + current <= h + v == Opening(outer, v);
    assert EarlyIn(h + current, outer, v, []);
  }

  /** Inside A0. */
  lemma WrappedIsEarly(outer: nat, configure: seq<byte>, n: nat, current: seq<byte>)
    requires |current| <= n
    ensures Early(Opening(outer, configure) + (Header(A0, |Header(X87, n)| + n) + Header(X87, n) + current))
  {
    hide LengthBytes, Header, Flat, FirstSegments, Opening;
    var h := Header(A0, |Header(X87, n)| + n) + Header(X87, n);
    var v := Filled(current, n);
    FirstTwo(outer, configure, v);
    ThreePieces(Header(A0, |Header(X87, n)| + n), Header(X87, n), v);
    assert h + current <= h + v == Wrapped(A0, v);
    assert Opening(outer, configure) + (h + current) <= Opening(outer, configure) + Wrapped(A0, v);
    assert EarlyIn(Opening(outer, configure) + (h + current), outer, configure, v);
  }

  lemma OpeningGoesOut(f: Fields, g: Reading, segment: seq<byte>, active: bool, tagBytes: nat, length: nat)
    requires Agreed(f, g, segment, active) == OuterChild
    requires ScanHeader(g.inHeader) == Done(tagBytes, length) && TagIs(g.inHeader, tagBytes, BF23)
    ensures Early(Flat(g.done) + ([] + f.pendingParent) + g.inHeader)
  {
    hide LengthBytes, Header, ScanHeader, Elements, Opening, AfterMetadata, Early, InsideValue, AtProfileChild,
      MetadataOpen;
    CompleteHeader(g.inHeader, tagBytes, length, BF23);
    OpeningIsEarly(g.outerLength, length, []);
    var both := f.pendingParent + g.inHeader;
    assert Flat(g.done) + ([] + f.pendingParent) + g.inHeader == both == both + [];
  }

  lemma FirstGoesOut(f: Fields, g: Reading, segment: seq<byte>, active: bool, tagBytes: nat, length: nat)
    requires Agreed(f, g, segment, active) == FirstSequenceChild
    requires ScanHeader(g.inHeader) == Done(tagBytes, length) && TagIs(g.inHeader, tagBytes, X87)
    requires f.pendingParentLength == |g.inHeader| + length
    ensures Early(Flat(g.done) + ([] + f.pendingParent) + g.inHeader)
  {
    hide LengthBytes, Header, ScanHeader, Elements, Opening, AfterMetadata, Early, InsideValue, AtProfileChild,
      MetadataOpen, Accounts;
    CompleteHeader(g.inHeader, tagBytes, length, X87);
    WrappedIsEarly(g.outerLength, g.package.configure, length, []);
    var o, both := Opening(g.outerLength, g.package.configure), f.pendingParent + g.inHeader;
    assert Flat(g.done) == o by { FlatOfOne(o); }
    assert o + ([] + f.pendingParent) + g.inHeader == o + (both + []);
  }

  lemma FlatOfOne(s: seq<byte>)
    ensures Flat([s]) == s
  {
    assert Flat([s]) == s + Flat([]);
  }

  lemma SecondIsApproved(f: Fields, g: Reading, segment: seq<byte>, active: bool)
    requires Agreed(f, g, segment, active) == SecondSequenceChild
    ensures g.approved
  {
    hide LengthBytes, Header, Flat, Elements, Opening, AfterMetadata, AfterProfile;
  }

  lemma ValueByteIsEarly(f: Fields, g: Reading, segment: seq<byte>, active: bool, b: byte)
    requires Agreed(f, g, segment, active) == InValue && f.valueRemaining > 0 && !f.collectingMetadata
    ensures g.approved || Early(Flat(g.done) + segment + [b])
  {
    hide LengthBytes, Header, Elements, Opening, AfterMetadata, AfterProfile, Early, Accounts;
    var n, more := |g.current| + f.valueRemaining, g.current + [b];
    if f.valueKind == OuterValue {
      OpeningIsEarly(g.outerLength, n, more);
      ThreePieces(Header(BF36, g.outerLength) + Header(BF23, n), g.current, [b]);
      assert Flat(g.done) + segment + [b] == segment + [b];
    } else if f.valueKind == FirstValue {
      var o := Opening(g.outerLength, g.package.configure);
      WrappedIsEarly(g.outerLength, g.package.configure, n, more);
      assert Flat(g.done) == o by { FlatOfOne(o); }
      ThreePieces(Header(A0, |Header(X87, n)| + n) + Header(X87, n), g.current, [b]);
      ThreePieces(o, segment, [b]);
    }
  }

  lemma NothingIsFlat()
    ensures Flat<byte>([]) == [] && Flat(Elements(X86, [])) == [] && Flat(Elements(X88, [])) == []
  {
  }

  function Minus(a: nat, b: nat): nat { if b <= a then a - b else 0 }

  /** The counters after `data` has been passed on. */
  function PassOn(f: Fields, data: seq<byte>): Fields {
    f.(outerRemaining := Minus(f.outerRemaining, |data|),
       sequenceRemaining := if f.sequenceActive then Minus(f.sequenceRemaining, |data|) else f.sequenceRemaining,
       decodedBytes := f.decodedBytes + |data|,
       metadataWire := if f.collectingMetadata then f.metadataWire + data else f.metadataWire)
  }

  predicate OuterTlvFits(f: Fields, rawSize: nat, valueSize: nat) {
    rawSize + valueSize <= MAX_DECODED_BYTES && f.outerRemaining >= rawSize + valueSize
  }

  predicate SequenceTlvFits(f: Fields, rawSize: nat, valueSize: nat) {
    || (!f.sequenceActive && f.sequenceRemaining == 0)
    || (f.sequenceRemaining >= rawSize && f.sequenceRemaining - rawSize >= valueSize)
  }

  predicate CardTlvFits(segmentBytes: nat, rawSize: nat, valueSize: nat) {
    && rawSize + valueSize <= MAX_CARD_SEGMENT_BYTES && segmentBytes <= MAX_CARD_SEGMENT_BYTES
    && rawSize + valueSize <= MAX_CARD_SEGMENT_BYTES - segmentBytes
  }

  /** The fields on entry to a value of `length` bytes. */
  function EnterValue(f: Fields, kind: ValueKind, length: nat): Fields {
    f.(pendingParent := [], pendingParentLength := 0, valueRemaining := length, valueKind := kind, state := InValue)
  }

  function OpenSequence(f: Fields, length: nat): Fields {
    f.(sequenceRemaining := length, sequenceActive := true)
  }

  function Emitted(g: Reading, data: seq<byte>): Reading { g.(emitted := g.emitted + data) }

  function HeaderTaken(g: Reading): Reading { g.(inHeader := [], current := []) }

  lemma NothingReadYet(valid: bool)
    ensures Agreed(START_FIELDS.(expectedValid := valid), NOTHING_READ, [], false) == OuterHeader
  {
    hide LengthBytes;
  }

  // ----- one lemma for every header -----

  /** The bytes still add up when the headers that were waiting have been passed on. */
  lemma HeadersPassedOn(f: Fields, g: Reading, segment: seq<byte>, active: bool,
                        f1: Fields, g1: Reading, segment1: seq<byte>, active1: bool, data: seq<byte>)
    requires Accounts(f, g, segment, active) && !Outer(f) && !Outer(f1)
    requires data == f.pendingParent + g.inHeader && f1.pendingParent == [] && g1.inHeader == []
    requires g1.input == g.input && g1.done == g.done && g1.outerLength == g.outerLength
    requires |data| <= f.outerRemaining && f1.outerRemaining == f.outerRemaining - |data|
    requires f1.decodedBytes == f.decodedBytes + |data| && g1.emitted == g.emitted + data
    requires f1.segmentCount == f.segmentCount && !f1.finalSegmentPending
    requires Tail(f1, segment1) == Tail(f, segment) + data
    requires (!f1.collectingMetadata ==> f1.metadataWire == []) && f1.installationResult == f.installationResult
    requires ((!active1 ==> segment1 == []) || (segment1 == segment && active1 == active))
    ensures Accounts(f1, g1, segment1, active1)
  {
    hide Flat, LengthBytes, Header, InsideValue, AtProfileChild, MetadataOpen, ProfileOpen, AfterProfile, Position;
    ThreePieces(g.emitted, f.pendingParent, g.inHeader);
    ThreePieces(Flat(g.done), Tail(f, segment), data);
    NothingMore(g1.emitted);
  }

  lemma NothingMore<T>(a: seq<T>)
    ensures a + [] + [] == a == a + [] == [] + a
  {
  }

  lemma OuterHeaderRead(f: Fields, g: Reading, segment: seq<byte>, active: bool, tagBytes: nat, length: nat)
    requires Agreed(f, g, segment, active) == OuterHeader
    requires ScanHeader(g.inHeader) == Done(tagBytes, length) && TagIs(g.inHeader, tagBytes, BF36)
    ensures !g.approved && !g.begun
    ensures Agreed(
      f.(pendingParent := g.inHeader, pendingParentLength := length, outerRemaining := length, state := OuterChild),
      g.(outerLength := length, inHeader := []), segment, active) == OuterChild
  {
    hide LengthBytes, ScanHeader, Flat, Elements, Opening, AfterMetadata, InsideValue, AtProfileChild, MetadataOpen,
      ProfileOpen, AfterProfile;
    NothingIsFlat();
    CompleteHeader(g.inHeader, tagBytes, length, BF36);
  }

  lemma OuterChildFits(f: Fields, g: Reading, segment: seq<byte>, active: bool)
    requires Agreed(f, g, segment, active) == OuterChild
    ensures !active && !f.collectingMetadata && Writable(g) && !f.sequenceActive
    ensures Flat(g.done) + [] + f.pendingParent <= g.input
    ensures Flat(g.done) + ([] + f.pendingParent) + g.inHeader <= g.input
    ensures !g.begun && StartsElse(f.pendingParent)
  {
    hide LengthBytes, ScanHeader, Flat, Elements, Opening, AfterMetadata, InsideValue, AtProfileChild, MetadataOpen,
      ProfileOpen, AfterProfile;
    NothingIsFlat();
    TwoPieces(Flat(g.done), f.pendingParent, g.inHeader);
  }

  lemma OuterChildRead(f: Fields, g: Reading, segment: seq<byte>, active: bool, tagBytes: nat, length: nat)
    requires Agreed(f, g, segment, active) == OuterChild
    requires ScanHeader(g.inHeader) == Done(tagBytes, length) && TagIs(g.inHeader, tagBytes, BF23)
    requires |g.inHeader| <= f.outerRemaining
    ensures Agreed(
      EnterValue(PassOn(f.(decodedBytes := |f.pendingParent|), g.inHeader), OuterValue, length),
      HeaderTaken(Emitted(g.(emitted := f.pendingParent), g.inHeader)),
      [] + f.pendingParent + g.inHeader, true) == InValue
  {
    hide LengthBytes, ScanHeader, Flat, Elements, Opening, AfterMetadata, AtProfileChild, MetadataOpen, ProfileOpen,
      AfterProfile;
    NothingIsFlat();
    CompleteHeader(g.inHeader, tagBytes, length, BF23);
    var both := f.pendingParent + g.inHeader;
    assert [] + f.pendingParent == f.pendingParent;
    assert Flat(g.done) + f.pendingParent == f.pendingParent;
    assert both + [] == both;
  }

  /** The bytes still add up when a header waits for its child. */
  lemma ParentWaits(f: Fields, g: Reading, segment: seq<byte>, active: bool, length: nat, next: State)
    requires Accounts(f, g, segment, active) && !Outer(f) && f.pendingParent == [] && !f.finalSegmentPending
    requires next !in {OuterHeader, OuterChild}
    ensures Accounts(
      f.(pendingParent := g.inHeader, pendingParentLength := length, childCount := 0, state := next),
      g.(inHeader := []), segment, active)
  {
    hide LengthBytes, Header, Flat;
    assert g.emitted + [] + g.inHeader == g.emitted + g.inHeader == g.emitted + g.inHeader + [];
  }

  /** A0 waits until its child is known. */
  lemma FirstSequenceRead(f: Fields, g: Reading, segment: seq<byte>, active: bool, tagBytes: nat, length: nat)
    requires Agreed(f, g, segment, active) == FirstSequenceHeader
    requires ScanHeader(g.inHeader) == Done(tagBytes, length) && TagIs(g.inHeader, tagBytes, A0)
    ensures Agreed(
      f.(pendingParent := g.inHeader, pendingParentLength := length, childCount := 0, state := FirstSequenceChild),
      g.(inHeader := []), segment, active) == FirstSequenceChild
  {
    hide Accounts, LengthBytes, ScanHeader, Flat, Elements, Opening, AfterMetadata, InsideValue, AtProfileChild,
      MetadataOpen, ProfileOpen, AfterProfile;
    NotFinal(f, g, segment, active);
    ParentWaits(f, g, segment, active, length, FirstSequenceChild);
    CompleteHeader(g.inHeader, tagBytes, length, A0);
  }

  /** And so does A2. */
  lemma SecondSequenceRead(f: Fields, g: Reading, segment: seq<byte>, active: bool, tagBytes: nat, length: nat)
    requires Agreed(f, g, segment, active) == SecondSequenceOrProfile
    requires ScanHeader(g.inHeader) == Done(tagBytes, length) && TagIs(g.inHeader, tagBytes, A2)
    ensures Agreed(
      f.(pendingParent := g.inHeader, pendingParentLength := length, childCount := 0, state := SecondSequenceChild),
      g.(inHeader := []), segment, active) == SecondSequenceChild
  {
    hide Accounts, LengthBytes, ScanHeader, Flat, Elements, Opening, AfterMetadata, InsideValue, AtProfileChild,
      MetadataOpen, ProfileOpen, AfterProfile;
    NotFinal(f, g, segment, active);
    ParentWaits(f, g, segment, active, length, SecondSequenceChild);
    CompleteHeader(g.inHeader, tagBytes, length, A2);
  }

  /** The 87 in A0 or A2 may be passed on, after the header it waits with. */
  lemma WrappedChildFits(f: Fields, g: Reading, segment: seq<byte>, active: bool)
    requires Agreed(f, g, segment, active) in {FirstSequenceChild, SecondSequenceChild}
    ensures !active && !f.collectingMetadata && !f.sequenceActive && Writable(g)
    ensures !f.finalSegmentPending && segment == [] && f.metadataWire == []
    ensures Flat(g.done) + [] + f.pendingParent <= g.input
    ensures Flat(g.done) + ([] + f.pendingParent) + g.inHeader <= g.input
    ensures !g.begun && StartsElse(f.pendingParent)
  {
    hide LengthBytes, ScanHeader, Flat, Elements, Opening, AfterMetadata, InsideValue, AtProfileChild, MetadataOpen,
      ProfileOpen, AfterProfile;
    NothingIsFlat();
    TwoPieces(Flat(g.done), f.pendingParent, g.inHeader);
  }

  function WrappedFields(f: Fields, h: seq<byte>, kind: ValueKind, length: nat): Fields {
    EnterValue(PassOn(OpenSequence(PassOn(f, f.pendingParent), f.pendingParentLength), h), kind, length)
  }

  function WrappedReading(f: Fields, g: Reading): Reading {
    HeaderTaken(Emitted(Emitted(g, f.pendingParent), g.inHeader))
  }

  lemma WrappedState(f: Fields, g: Reading, h: seq<byte>, kind: ValueKind, length: nat)
    ensures WrappedFields(f, h, kind, length).state == InValue
    ensures WrappedFields(f, h, kind, length).valueRemaining == length
    ensures WrappedReading(f, g).inHeader == [] && WrappedReading(f, g).input == g.input
  {
  }

  lemma WrappedAccounts(f: Fields, g: Reading, segment: seq<byte>, active: bool, kind: ValueKind, length: nat)
    requires Accounts(f, g, segment, active) && !active && !Outer(f) && !f.collectingMetadata
    requires !f.finalSegmentPending && !f.sequenceActive && segment == [] && f.metadataWire == []
    requires |f.pendingParent| + |g.inHeader| <= f.outerRemaining
    ensures Accounts(WrappedFields(f, g.inHeader, kind, length), WrappedReading(f, g),
      [] + f.pendingParent + g.inHeader, true)
  {
    hide Accounts, Header, LengthBytes, ScanHeader, Flat, Elements, Opening, AfterMetadata, InsideValue, AtProfileChild,
      MetadataOpen, ProfileOpen, AfterProfile, Position;
    var p, h := f.pendingParent, g.inHeader;
    ThreePieces(g.emitted, p, h);
    ThreePieces([], p, h);
    HeadersPassedOn(f, g, segment, active,
      WrappedFields(f, h, kind, length), WrappedReading(f, g), [] + p + h, true, p + h);
  }

  lemma FirstChildRead(f: Fields, g: Reading, segment: seq<byte>, active: bool, tagBytes: nat, length: nat)
    requires Agreed(f, g, segment, active) == FirstSequenceChild
    requires ScanHeader(g.inHeader) == Done(tagBytes, length) && TagIs(g.inHeader, tagBytes, X87)
    requires f.pendingParentLength == |g.inHeader| + length
    requires |f.pendingParent| + |g.inHeader| <= f.outerRemaining
    ensures Agreed(
      WrappedFields(f, g.inHeader, FirstValue, length), WrappedReading(f, g),
      [] + f.pendingParent + g.inHeader, true) == InValue
  {
    hide AfterProfile, AtProfileChild, Element, Elements, LengthBytes, ScanHeader, Wrapped;
    WrappedChildFits(f, g, segment, active);
    CompleteHeader(g.inHeader, tagBytes, length, X87);
    WrappedAccounts(f, g, segment, active, FirstValue, length);
    TwoPieces(f.pendingParent, f.pendingParent, g.inHeader);
  }

  lemma SecondChildRead(f: Fields, g: Reading, segment: seq<byte>, active: bool, tagBytes: nat, length: nat)
    requires Agreed(f, g, segment, active) == SecondSequenceChild
    requires ScanHeader(g.inHeader) == Done(tagBytes, length) && TagIs(g.inHeader, tagBytes, X87)
    requires f.pendingParentLength == |g.inHeader| + length
    requires |f.pendingParent| + |g.inHeader| <= f.outerRemaining
    ensures Agreed(
      WrappedFields(f, g.inHeader, SecondValue, length), WrappedReading(f, g),
      [] + f.pendingParent + g.inHeader, true) == InValue
  {
    hide AfterProfile, AtProfileChild, Element, Elements, LengthBytes, ScanHeader, Wrapped;
    WrappedChildFits(f, g, segment, active);
    CompleteHeader(g.inHeader, tagBytes, length, X87);
    WrappedAccounts(f, g, segment, active, SecondValue, length);
    TwoPieces(f.pendingParent, f.pendingParent, g.inHeader);
  }

  lemma TwoPieces<T>(x: seq<T>, a: seq<T>, b: seq<T>)
    ensures [] + a + b == a + b == [] + (a + b) == a + b + [] && x + [] == x
    ensures x + [] + a + b == x + ([] + a) + b == x + a + b
    ensures x + [] + a <= x + [] + a + b
  {
  }

  lemma MetadataHeaderRead(f: Fields, g: Reading, segment: seq<byte>, active: bool, tagBytes: nat, length: nat)
    requires Agreed(f, g, segment, active) == MetadataSequenceHeader
    requires ScanHeader(g.inHeader) == Done(tagBytes, length) && TagIs(g.inHeader, tagBytes, A1)
    requires |g.inHeader| <= f.outerRemaining
    ensures !active && segment == []
    ensures Agreed(
      OpenSequence(PassOn(f.(collectingMetadata := true), g.inHeader), length).(childCount := 0,
        state := MetadataChild),
      Emitted(g, g.inHeader).(inHeader := [], sequenceLength := length),
      segment, active) == MetadataChild
  {
    hide LengthBytes, ScanHeader, Flat, Elements, Opening, AfterMetadata, AtProfileChild, InsideValue, ProfileOpen,
      AfterProfile;
    NothingIsFlat();
    CompleteHeader(g.inHeader, tagBytes, length, A1);
    assert g.inHeader + [] == g.inHeader && [] + g.inHeader == g.inHeader;
    assert g.emitted == Flat(g.done) + [] == Flat(g.done);
  }

  lemma MetadataChildFits(f: Fields, g: Reading, segment: seq<byte>, active: bool)
    requires Agreed(f, g, segment, active) == MetadataChild
    ensures !active && f.collectingMetadata && f.sequenceActive
  {
  }

  lemma MetadataChildAccounts(f: Fields, g: Reading, segment: seq<byte>, active: bool, length: nat)
    requires Accounts(f, g, segment, active) && f.state == MetadataChild && f.collectingMetadata
    requires f.pendingParent == []
    requires |g.inHeader| <= f.outerRemaining
    ensures Accounts(
      EnterValue(PassOn(f, g.inHeader), MetadataValue, length), HeaderTaken(Emitted(g, g.inHeader)), segment, active)
  {
    hide Accounts, Header, LengthBytes, Flat, Position;
    NotFinal(f, g, segment, active);
    var h := g.inHeader;
    assert f.pendingParent + h == h;
    HeadersPassedOn(f, g, segment, active,
      EnterValue(PassOn(f, h), MetadataValue, length), HeaderTaken(Emitted(g, h)), segment, active, h);
  }

  lemma MetadataChildRead(f: Fields, g: Reading, segment: seq<byte>, active: bool, tagBytes: nat, length: nat)
    requires Agreed(f, g, segment, active) == MetadataChild
    requires ScanHeader(g.inHeader) == Done(tagBytes, length) && TagIs(g.inHeader, tagBytes, X88)
    requires length > MAC_BYTES && |g.inHeader| <= f.outerRemaining && |g.inHeader| <= f.sequenceRemaining
    ensures Agreed(
      EnterValue(PassOn(f, g.inHeader), MetadataValue, length), HeaderTaken(Emitted(g, g.inHeader)), segment,
        active) == InValue
  {
    hide Accounts, LengthBytes, ScanHeader, Flat, Elements, Opening, AfterMetadata, AtProfileChild, ProfileOpen,
      AfterProfile;
    CompleteHeader(g.inHeader, tagBytes, length, X88);
    MetadataChildAccounts(f, g, segment, active, length);
    assert f.metadataWire + g.inHeader + [] == f.metadataWire + g.inHeader;
  }

  lemma ProfileHeaderFits(f: Fields, g: Reading, segment: seq<byte>, active: bool)
    requires Agreed(f, g, segment, active) in {SecondSequenceOrProfile, ProfileSequenceHeader}
    ensures !active && !f.collectingMetadata && g.approved
    ensures Flat(g.done) + [] + g.inHeader <= g.input
    ensures !g.begun && segment == []
  {
    hide LengthBytes, Flat, Elements, Opening, AfterMetadata, MetadataOpen;
    assert Flat(g.done) + [] == Flat(g.done);
    assert g.emitted + [] == g.emitted;
  }

  /** A3 is a segment of its own. */
  lemma ProfileHeaderRead(f: Fields, g: Reading, segment: seq<byte>, active: bool, tagBytes: nat, length: nat)
    requires Agreed(f, g, segment, active) in {SecondSequenceOrProfile, ProfileSequenceHeader}
    requires ScanHeader(g.inHeader) == Done(tagBytes, length) && TagIs(g.inHeader, tagBytes, A3)
    requires |g.inHeader| + length <= f.outerRemaining && length > 0
    ensures Agreed(
      SegmentCounted(OpenSequence(PassOn(f, g.inHeader), length).(childCount := 0)).(state := ProfileChild),
      Closed(Emitted(g, g.inHeader), [] + g.inHeader).(inHeader := [], sequenceLength := length, begun := true), [],
      false) == ProfileChild
    ensures |Flat(g.done + [[] + g.inHeader])| < DeclaredBytes(g.outerLength)
  {
    hide LengthBytes, ScanHeader, Flat, Elements, Opening, AfterMetadata, MetadataOpen;
    NothingIsFlat();
    CompleteHeader(g.inHeader, tagBytes, length, A3);
    assert [] + g.inHeader == g.inHeader;
    assert Flat(g.done) + [] == Flat(g.done) == g.emitted;
    FlatSnoc(g.done, g.inHeader);
    assert Flat(g.done + [g.inHeader]) + [] == Flat(g.done + [g.inHeader]);
    ProfileStarts(g, length);
  }

  lemma ProfileStarts(g: Reading, length: nat)
    requires g.package.profile == []
    ensures Profile(g.(sequenceLength := length)) == Second(g) + [Header(A3, length)]
    ensures Flat(Elements(X86, [])) == []
    ensures g.package.second.None? ==> Second(g) == Metadata(g)
  {
    assert ProfileSegments([], length) == [Header(A3, length)];
    assert Opened(g) + (AfterSecond(g.package) + [Header(A3, length)]) == Second(g) + [Header(A3, length)];
  }

  lemma ProfileChildFits(f: Fields, g: Reading, segment: seq<byte>, active: bool)
    requires Agreed(f, g, segment, active) == ProfileChild && !f.finalSegmentPending
    ensures !active && !f.collectingMetadata && g.approved && f.sequenceActive
    ensures Flat(g.done) + [] + g.inHeader <= g.input
    ensures g.begun && Outgoing(f, g, segment, g.inHeader)
  {
    hide LengthBytes, Flat, Elements, Opening, AfterMetadata, MetadataOpen;
    assert Flat(g.done) + [] == Flat(g.done);
    assert g.emitted + [] == g.emitted;
  }

  lemma ProfileChildRead(f: Fields, g: Reading, segment: seq<byte>, active: bool, tagBytes: nat, length: nat)
    requires Agreed(f, g, segment, active) == ProfileChild && !f.finalSegmentPending
    requires ScanHeader(g.inHeader) == Done(tagBytes, length) && TagIs(g.inHeader, tagBytes, X86)
    requires |g.inHeader| <= f.outerRemaining && |g.inHeader| <= f.sequenceRemaining
    ensures Agreed(
      EnterValue(PassOn(f, g.inHeader), ProfileValue, length), HeaderTaken(Emitted(g, g.inHeader)), [] + g.inHeader,
        true) == InValue
  {
    hide LengthBytes, ScanHeader, Flat, Elements, Opening, AfterMetadata, MetadataOpen;
    NothingIsFlat();
    CompleteHeader(g.inHeader, tagBytes, length, X86);
    var h := g.inHeader;
    assert h + [] == h == [] + h == f.pendingParent + h;
    assert g.emitted == Flat(g.done) + [] == Flat(g.done);
    HeadersPassedOn(f, g, segment, active,
      EnterValue(PassOn(f, h), ProfileValue, length), HeaderTaken(Emitted(g, h)), [] + h, true, h);
  }

  /** One more byte of a header. */
  lemma HeaderByteRead(f: Fields, g: Reading, segment: seq<byte>, active: bool, b: byte)
    requires Agreed(f, g, segment, active) != Failed && f.state != InValue
    ensures Agreed(f, g.(input := g.input + [b], inHeader := g.inHeader + [b]), segment, active) == f.state
  {
    hide LengthBytes, ScanHeader, Flat, Elements, Opening, AfterMetadata, AfterProfile;
    assert g.emitted + f.pendingParent + (g.inHeader + [b]) == g.input + [b];
  }

  // ----- one lemma for every value -----

  function InputByte(g: Reading, b: byte): Reading { g.(input := g.input + [b]) }

  function ValueByte(f: Fields, b: byte): Fields {
    PassOn(f, [b]).(valueRemaining := Minus(f.valueRemaining, 1))
  }

  function WithByte(f: Fields, segment: seq<byte>, b: byte): seq<byte> {
    if f.collectingMetadata then segment else segment + [b]
  }

  lemma ValueByteFits(f: Fields, g: Reading, segment: seq<byte>, active: bool, b: byte)
    requires Agreed(f, g, segment, active) == InValue
    ensures if f.collectingMetadata then !active else active && Writable(g)
    ensures !f.collectingMetadata ==> Flat(g.done) + segment + [b] <= g.input + [b]
  {
    hide LengthBytes, Header, Flat, Elements, Opening, AfterMetadata, AfterProfile;
    assert g.emitted + [] + [] == g.emitted;
  }

  lemma ValueByteGoesOut(f: Fields, g: Reading, segment: seq<byte>, active: bool, b: byte)
    requires Agreed(f, g, segment, active) == InValue
    ensures Outgoing(f, g, segment, [b])
  {
    hide LengthBytes, Flat, Elements, Opening, AfterMetadata, AfterProfile;
    if f.valueKind == ProfileValue {
      PackageNotClosed(f, g, segment, active);
    } else if f.valueKind != MetadataValue {
      assert segment[0] != 0x86;
    }
  }

  function ValueReading(g: Reading, b: byte): Reading {
    Emitted(InputByte(g, b), [b]).(current := g.current + [b])
  }

  lemma ValueByteAccounts(f: Fields, g: Reading, segment: seq<byte>, active: bool, b: byte)
    requires Accounts(f, g, segment, active) && f.state == InValue && f.pendingParent == [] && g.inHeader == []
    requires 0 < f.outerRemaining && (f.collectingMetadata || active)
    ensures Accounts(ValueByte(f, b), ValueReading(g, b), WithByte(f, segment, b), active)
  {
    hide LengthBytes, Header, Flat;
    NothingMore(g.emitted);
    NothingMore(g.emitted + [b]);
    ThreePieces(Flat(g.done), Tail(f, segment), [b]);
  }

  lemma InsideOneMore(f: Fields, g: Reading, segment: seq<byte>, active: bool, n: nat, b: byte)
    requires InsideValue(f, g, segment, active, n) && 0 < f.outerRemaining
    requires (f.sequenceActive ==> 0 < f.sequenceRemaining)
    ensures InsideValue(ValueByte(f, b), ValueReading(g, b), WithByte(f, segment, b), active, n)
  {
    hide LengthBytes, Header, Flat, Elements, Opening, AfterMetadata, AfterProfile;
    match f.valueKind {
      case OuterValue => ThreePieces(Header(BF36, g.outerLength) + Header(BF23, n), g.current, [b]);
      case FirstValue => ThreePieces(Header(A0, |Header(X87, n)| + n) + Header(X87, n), g.current, [b]);
      case MetadataValue =>
        ThreePieces(Header(A1, g.sequenceLength) + Flat(Elements(X88, g.package.metadata)) + Header(X88, n), g.current,
          [b]);
      case SecondValue => ThreePieces(Header(A2, |Header(X87, n)| + n) + Header(X87, n), g.current, [b]);
      case ProfileValue => ThreePieces(Header(X86, n), g.current, [b]);
    }
  }

  lemma ValueByteRead(f: Fields, g: Reading, segment: seq<byte>, active: bool, b: byte)
    requires Agreed(f, g, segment, active) == InValue && 0 < f.valueRemaining && 0 < f.outerRemaining
    requires f.sequenceActive ==> 0 < f.sequenceRemaining
    ensures Agreed(ValueByte(f, b), ValueReading(g, b), WithByte(f, segment, b), active) == InValue
  {
    hide LengthBytes, Header, Flat, Elements, Opening, AfterMetadata, AfterProfile, Accounts, InsideValue;
    ValueIsOpen(f, g, segment, active);
    ValueByteAccounts(f, g, segment, active, b);
    InsideOneMore(f, g, segment, active, |g.current| + f.valueRemaining, b);
  }

  /** Inside a value the open segment, if there is one, may be written to and closed. */
  lemma ValueIsOpen(f: Fields, g: Reading, segment: seq<byte>, active: bool)
    requires Agreed(f, g, segment, active) == InValue
    ensures f.valueKind != MetadataValue ==> active && Writable(g)
    ensures f.valueKind == MetadataValue ==> !g.approved
    ensures g.inHeader == [] && (f.valueKind == MetadataValue ==> f.collectingMetadata)
  {
    hide LengthBytes, Header, Flat, Elements, Opening, AfterMetadata, AfterProfile;
  }

  /** A segment has been closed: its bytes now count as complete. */
  function Closed(g: Reading, segment: seq<byte>): Reading { g.(done := g.done + [segment]) }

  function SegmentCounted(f: Fields): Fields { f.(segmentCount := f.segmentCount + 1) }

  lemma SegmentClosed(f: Fields, g: Reading, segment: seq<byte>, f1: Fields, g1: Reading)
    requires Accounts(f, g, segment, true) && !f.collectingMetadata && !Outer(f) && f.pendingParent == []
    requires g.inHeader == []
    requires f1 == f.(segmentCount := f.segmentCount + 1, sequenceActive := f1.sequenceActive,
      childCount := f1.childCount, state := f1.state)
    requires !Outer(f1) && !f.finalSegmentPending
    requires g1.input == g.input && g1.emitted == g.emitted && g1.inHeader == [] && g1.done == g.done + [segment]
    requires g1.outerLength == g.outerLength
    ensures Accounts(f1, g1, [], false)
  {
    hide LengthBytes, Header, Elements;
    FlatSnoc(g.done, segment);
    assert Flat(g1.done) + [] == Flat(g1.done);
  }

  lemma ThreePieces<T>(a: seq<T>, b: seq<T>, c: seq<T>)
    ensures a + b + c == a + (b + c)
  {
  }

  lemma WrappedPieces(tag: seq<byte>, v: seq<byte>)
    ensures Header(tag, |Header(X87, |v|)| + |v|) + Header(X87, |v|) + v == Wrapped(tag, v)
  {
    hide Header;
    ThreePieces(Header(tag, |Header(X87, |v|)| + |v|), Header(X87, |v|), v);
  }

  lemma ConfigureValue(f: Fields, g: Reading, segment: seq<byte>)
    requires InsideValue(f, g, segment, true, |g.current|) && f.valueKind == OuterValue
    ensures !f.collectingMetadata && !f.sequenceActive && g.done == [] && NothingKept(g)
    ensures segment == Opening(g.outerLength, g.current) != []
  {
    hide Header;
    ThreePieces(Header(BF36, g.outerLength), Header(BF23, |g.current|), g.current);
  }

  lemma OuterValueRead(f: Fields, g: Reading, segment: seq<byte>)
    requires Agreed(f, g, segment, true) == InValue && f.valueKind == OuterValue && f.valueRemaining == 0
    requires g.current != []
    ensures segment != [] && !g.approved
    ensures Agreed(
      SegmentCounted(f).(state := FirstSequenceHeader),
      Closed(g, segment).(package := g.package.(configure := g.current)), [], false) == FirstSequenceHeader
    ensures !g.begun
  {
    hide Accounts, InsideValue, Opening, AtProfileChild, MetadataOpen;
    var f1 := SegmentCounted(f).(state := FirstSequenceHeader);
    var g1 := Closed(g, segment).(package := g.package.(configure := g.current));
    ConfigureValue(f, g, segment);
    NotFinal(f, g, segment, true);
    SegmentClosed(f, g, segment, f1, g1);
  }

  /** What a value says that is complete, in a sequence of its own. */
  lemma WrappedValue(f: Fields, g: Reading, segment: seq<byte>)
    requires InsideValue(f, g, segment, true, |g.current|) && f.valueKind in {FirstValue, SecondValue}
    ensures !f.collectingMetadata && segment != []
    ensures f.valueKind == FirstValue ==> segment == Wrapped(A0, g.current) && g.done == Opened(g) && BeforeMetadata(g)
    ensures f.valueKind == SecondValue ==> segment == Wrapped(A2, g.current) && g.done == Metadata(g) && AfterCheck(g)
  {
    hide Header, Element, Wrapped, Opening, AfterMetadata;
    WrappedPieces(A0, g.current);
    WrappedPieces(A2, g.current);
  }

  lemma FirstValueRead(f: Fields, g: Reading, segment: seq<byte>)
    requires Agreed(f, g, segment, true) == InValue && f.valueKind == FirstValue && f.valueRemaining == 0
    requires g.current != []
    ensures segment != [] && !g.approved
    ensures Agreed(
      SegmentCounted(f.(sequenceActive := false)).(state := MetadataSequenceHeader),
      Closed(g, segment).(package := g.package.(first := g.current)), [], false) == MetadataSequenceHeader
    ensures !g.begun
  {
    hide Accounts, InsideValue, Wrapped, Opening, AtProfileChild, MetadataOpen;
    var f1 := SegmentCounted(f.(sequenceActive := false)).(state := MetadataSequenceHeader);
    var g1 := Closed(g, segment).(package := g.package.(first := g.current));
    WrappedValue(f, g, segment);
    NotFinal(f, g, segment, true);
    SegmentClosed(f, g, segment, f1, g1);
    assert Opened(g1) == Opened(g);
  }

  lemma SecondValueRead(f: Fields, g: Reading, segment: seq<byte>)
    requires Agreed(f, g, segment, true) == InValue && f.valueKind == SecondValue && f.valueRemaining == 0
    requires g.current != []
    ensures segment != []
    ensures Agreed(
      SegmentCounted(f.(sequenceActive := false)).(state := ProfileSequenceHeader),
      Closed(g, segment).(package := g.package.(second := Some(g.current))), [], false) == ProfileSequenceHeader
    ensures !g.begun
  {
    hide Accounts, InsideValue, Wrapped, Opening, AtProfileChild, MetadataOpen;
    var f1 := SegmentCounted(f.(sequenceActive := false)).(state := ProfileSequenceHeader);
    var g1 := Closed(g, segment).(package := g.package.(second := Some(g.current)));
    WrappedValue(f, g, segment);
    NotFinal(f, g, segment, true);
    SegmentClosed(f, g, segment, f1, g1);
    SecondSegmentRead(g, segment);
  }

  lemma SecondSegmentRead(g: Reading, segment: seq<byte>)
    requires g.done == Metadata(g) && segment == Wrapped(A2, g.current)
    ensures var g1 := Closed(g, segment).(package := g.package.(second := Some(g.current)));
            g1.done == Second(g1)
  {
    hide Wrapped, Opening, MetadataSegments;
    ThreePieces(Opened(g), AfterMetadata(g.package), [segment]);
  }

  lemma MetadataValueRead(f: Fields, g: Reading, segment: seq<byte>, active: bool)
    requires Agreed(f, g, segment, active) == InValue && f.valueKind == MetadataValue && f.valueRemaining == 0
    ensures Agreed(
      f.(childCount := f.childCount + 1, state := MetadataChild),
      g.(package := g.package.(metadata := g.package.metadata + [g.current])), segment, active) == MetadataChild
  {
    hide LengthBytes, Elements, Flat, AfterMetadata, AfterProfile;
    ElementsSnoc(X88, g.package.metadata, g.current);
    ThreePieces(Header(A1, g.sequenceLength), Flat(Elements(X88, g.package.metadata)), Element(X88, g.current));
    ThreePieces(Header(A1, g.sequenceLength) + Flat(Elements(X88, g.package.metadata)), Header(X88, |g.current|),
      g.current);
  }

  function ProfileGrown(g: Reading): Reading {
    g.(package := g.package.(profile := g.package.profile + [g.current]))
  }

  lemma ProfileGrows(g: Reading)
    ensures Profile(ProfileGrown(g)) == Profile(g) + [Element(X86, g.current)]
    ensures var n := |Flat(Elements(X86, g.package.profile))|;
            |Flat(Elements(X86, ProfileGrown(g).package.profile))| == n + |Header(X86, |g.current|)| + |g.current|
  {
    hide LengthBytes, Flat;
    ElementsSnoc(X86, g.package.profile, g.current);
    var ps := ProfileSegments(g.package.profile, g.sequenceLength);
    assert ProfileSegments(g.package.profile + [g.current], g.sequenceLength) == ps + [Element(X86, g.current)];
    ThreePieces(AfterSecond(g.package), ps, [Element(X86, g.current)]);
    ThreePieces(Opened(g), AfterProfile(g.package, g.sequenceLength), [Element(X86, g.current)]);
  }

  lemma ProfileValueRead(f: Fields, g: Reading, segment: seq<byte>)
    requires Agreed(f, g, segment, true) == InValue && f.valueKind == ProfileValue && f.valueRemaining == 0
    requires g.current != []
    requires f.sequenceRemaining != 0 || f.outerRemaining != 0
    ensures segment != [] && g.approved
    ensures Agreed(
      SegmentCounted(f).(childCount := f.childCount + 1, state := ProfileChild),
      Closed(ProfileGrown(g), segment), [], false) == ProfileChild
    ensures Closable(g, segment)
  {
    hide LengthBytes, Elements, Flat, AfterMetadata, AfterProfile;
    ProfileGrows(g);
    SegmentClosed(f, g, segment, SegmentCounted(f).(childCount := f.childCount + 1, state := ProfileChild),
      Closed(ProfileGrown(g), segment));
  }

  lemma FinalValueRead(f: Fields, g: Reading, segment: seq<byte>)
    requires Agreed(f, g, segment, true) == InValue && f.valueKind == ProfileValue && f.valueRemaining == 0
    requires g.current != []
    requires f.sequenceRemaining == 0 == f.outerRemaining
    ensures Agreed(
      f.(finalSegmentPending := true, childCount := f.childCount + 1, state := ProfileChild),
      ProfileGrown(g), segment, true) == ProfileChild
  {
    hide LengthBytes, Elements, Flat, AfterMetadata, AfterProfile;
    ProfileGrows(g);
  }

  // ----- the metadata check, and the end -----

  lemma MetadataApproved(f: Fields, g: Reading, segment: seq<byte>, active: bool)
    requires Agreed(f, g, segment, active) == MetadataChild && f.sequenceRemaining == 0
    ensures var values := g.package.metadata;
            Agreed(
      f.(collectingMetadata := false, metadataWire := [], segmentCount := f.segmentCount + 1 + |values|,
         expectedValid := false, sequenceActive := false, state := SecondSequenceOrProfile),
      g.(done := g.done + MetadataSegments(values), approved := true), [], false) == SecondSequenceOrProfile
  {
    hide LengthBytes, Header, Flat, Opening;
    var values := g.package.metadata;
    MetadataIsWire(f, g, segment, active);
    FlatAppend(g.done, MetadataSegments(values));
    assert Flat(g.done) + f.metadataWire + [] == Flat(g.done) + f.metadataWire;
    ThreePieces(Opened(g), [Wrapped(A0, g.package.first)], MetadataSegments(values));
  }

  /** What was held back is the metadata segments, one after the other. */
  lemma MetadataIsWire(f: Fields, g: Reading, segment: seq<byte>, active: bool)
    requires Agreed(f, g, segment, active) == MetadataChild && f.sequenceRemaining == 0
    ensures f.collectingMetadata && !active && !g.approved && f.childCount == |g.package.metadata|
    ensures g.done == FirstSegments(g.outerLength, g.package.configure, g.package.first)
    ensures Flat(g.done) + f.metadataWire <= g.input
    ensures forall v | v in g.package.metadata :: |v| > MAC_BYTES
    ensures f.metadataWire == Flat(MetadataSegments(g.package.metadata))
    ensures !g.begun
  {
    hide LengthBytes, Header, Elements, Opening, AfterMetadata, Flat;
    MetadataFlat(g.package.metadata);
    assert g.input == g.emitted + [] + g.inHeader == g.emitted + g.inHeader;
  }

  lemma MetadataFlat(values: seq<seq<byte>>)
    ensures var all := Elements(X88, values);
            Flat(MetadataSegments(values)) == Header(A1, |Flat(all)|) + Flat(all)
  {
    hide LengthBytes, Header, Elements;
    assert MetadataSegments(values)[1..] == Elements(X88, values);
  }

  /** A package that has been read to its end is complete, and it is the whole input. */
  lemma PackageRead(f: Fields, g: Reading, segment: seq<byte>, active: bool)
    requires Agreed(f, g, segment, active) == ProfileChild && f.sequenceRemaining == 0 == f.outerRemaining
    requires f.childCount > 0 && g.inHeader == [] && g.package.metadata != []
    requires forall v | v in g.package.metadata :: |v| > MAC_BYTES
    ensures Complete(g.package) && g.input == Encode(g.package)
    ensures Segments(g.package) == if f.finalSegmentPending then g.done + [segment] else g.done
    ensures f.finalSegmentPending ==> active && segment != []
  {
    hide LengthBytes, Flat, AfterMetadata, Header;
    var all := Profile(g);
    assert all == if f.finalSegmentPending then g.done + [segment] else g.done;
    assert Flat(all) == g.input by {
      if f.finalSegmentPending { FlatSnoc(g.done, segment); }
      assert g.emitted + [] + [] == g.emitted && Flat(g.done) + [] == Flat(g.done);
    }
    LengthsComeOutEven(g.outerLength, g.package, g.sequenceLength);
  }

  /** Counting a header does not change where the parser is. */
  lemma HeaderCounted(f: Fields, g: Reading, segment: seq<byte>, active: bool)
    ensures Agreed(f.(elementCount := f.elementCount + 1), g, segment, active) == Agreed(f, g, segment, active)
  {
    hide BeforeMetadata, AfterCheck, NothingKept, ProfileSegments, MetadataSegments, LengthBytes, Header, Flat,
      Elements, Opening, AfterMetadata, AfterProfile;
  }

  /** The final segment is only kept open when the sequence is full. */
  lemma FinalMeansFull(f: Fields, g: Reading, segment: seq<byte>, active: bool)
    requires Agreed(f, g, segment, active) == ProfileChild && f.finalSegmentPending
    ensures f.sequenceRemaining == 0
  {
    hide LengthBytes, Header, Flat, Elements, Opening, AfterMetadata, AfterProfile;
  }

  /** The last segment is only kept open at the end. */
  lemma NotFinal(f: Fields, g: Reading, segment: seq<byte>, active: bool)
    requires Accounts(f, g, segment, active) && f.state != ProfileChild
    ensures !f.finalSegmentPending
  {
    hide LengthBytes, Header, Flat;
  }

  lemma NeverFinished(f: Fields, g: Reading, segment: seq<byte>, active: bool)
    requires Agreed(f, g, segment, active) == f.state != Failed
    ensures f.state != Finished
  {
    hide LengthBytes, Header, Flat, Elements, Opening, AfterMetadata, AfterProfile;
  }

  lemma ProfileIsApproved(f: Fields, g: Reading, segment: seq<byte>, active: bool)
    requires Agreed(f, g, segment, active) == ProfileChild
    ensures g.approved
  {
    hide LengthBytes, Header, Flat, Elements, Opening, AfterMetadata, AfterProfile;
  }

  lemma FinalIsOpen(f: Fields, g: Reading, segment: seq<byte>, active: bool)
    requires Agreed(f, g, segment, active) == ProfileChild
    ensures if f.finalSegmentPending then active && segment != [] else !active && segment == []
    ensures f.installationResult == []
  {
    hide LengthBytes, Flat, Elements, Opening, AfterMetadata, AfterProfile;
  }

  /** In the profile, either bytes of the package are still to come or a segment is open. */
  lemma PackageNotClosed(f: Fields, g: Reading, segment: seq<byte>, active: bool)
    requires Agreed(f, g, segment, active) == f.state != Failed && InProfile(f)
    ensures |Flat(g.done)| + |segment| + f.outerRemaining <= DeclaredBytes(g.outerLength)
    ensures |Flat(g.done)| + |segment| < DeclaredBytes(g.outerLength) || (active && segment != [])
  {
    hide LengthBytes, Flat, Elements, Opening, AfterMetadata, AfterProfile;
  }

  /** A header that waited may be handed out, and what follows it in the same segment. */
  lemma HeadGoesOut(f: Fields, g: Reading, head: seq<byte>, raw: seq<byte>)
    requires !g.begun && StartsElse(head)
    ensures Roomy(g.begun, g.done, g.outerLength, [], head) && Outgoing(f, g, [], head)
    ensures forall f1: Fields, g1: Reading :: !g1.begun ==> Outgoing(f1, g1, [] + head, raw)
  {
    hide LengthBytes, Header, Flat;
    assert [] + head == head;
  }
}
