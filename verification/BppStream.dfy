/**
 * The push parser of a Bound Profile Package: DER bytes go in, in pieces of any size,
 * and card segments come out. The metadata is held back until it has been checked, and
 * the last segment until the caller says that the whole response is good.
 */
module BppStream {
  import opened Bytes
  import opened BppCard
  import opened Der
  import opened BppPackage
  import opened BppReading
  import opened BppReplay
  import opened BppDue
  import T = Tlv

  class DerStreamParser {
    const session: CardSession
    const writer: SegmentWriter
    const header: DerHeaderReader
    const parseMetadata: seq<byte> -> Option<ProfileMetadata>
    const expected: ProfileMetadata

    var f: Fields
    ghost var g: Reading

    /**
     * Any package, and whether the expected names are known: the
     * package is not refused if it is one that must be taken.
     */
    ghost const target: Package
    ghost const trusted: bool

    /** The metadata check: it parses, has no policy rules, and carries the expected names. */
    ghost predicate Cleared(values: seq<seq<byte>>) {
      && values != []
      && (forall v | v in values :: |v| > MAC_BYTES)
      && parseMetadata(Plaintext(values)).Some?
      && var m := parseMetadata(Plaintext(values)).value;
         !m.hasPolicyRules && m.profileName == expected.profileName && m.providerName == expected.providerName
    }

    ghost predicate Shape() {
      && header.raw.Length == MAX_HEADER_BYTES && writer.pending.Length == BLOCK_BYTES
      && header.raw != writer.pending && writer.session == session
    }

    /** Everything that a run of the parser may change. */
    ghost function Parts(): set<object> { {this, session, writer, writer.pending, header, header.raw} }

    /** The card log is what the complete segments and the open one say, and those can be cut into blocks. */
    ghost predicate OnCard()
      reads this`g, session, writer
    {
      && Shape()
      && writer.before == Transcript(g.done) && writer.Traced()
      && Flat(g.done) + writer.segment <= g.input && Fitted(g.done)
    }

    /**
     * Before the metadata is approved, the card has at most the two segments that come
     * before it, and the profile has not begun. After that, the input holds approved metadata right behind those two.
     */
    ghost predicate Gate(r: Reading, active: bool) {
      if r.approved then
        ApprovedAt(r.outerLength, r.package.configure, r.package.first, r.package.metadata, r.input)
      else
        !r.begun && |r.done| <= 2 && (|r.done| == 2 ==> !active)
    }

    /** Bytes that may go out next: before the metadata is approved, only those of some first two segments. */
    ghost predicate MayFollow(data: seq<byte>)
      reads this`g, writer
    {
      g.approved || Early(Flat(g.done) + writer.segment + data)
    }

    /** What holds after every call, whether or not it failed. */
    ghost predicate Faithful()
      reads this`g, session, writer
    {
      OnCard() && Gate(g, writer.active) && (g.approved || Early(Flat(g.done) + writer.segment))
    }

    /** The end of the package has not been handed to the card. */
    ghost predicate Withheld()
      reads this`g, session, writer
    {
      Sealed(g.begun, g.done, g.outerLength, writer.segment, session.log)
    }

    /** What holds after every call before `Finish`, whether or not it failed. */
    ghost predicate Honest()
      reads this`g, session, writer
    {
      Faithful() && Withheld()
    }

    /**
     * The card is never ahead of the input. Unless the input has approved metadata right behind its first two
     * segments, all that the card has been handed is a start of such two segments: no byte of the metadata.
     */
    lemma CardIsBehind()
      requires Faithful()
      ensures Payload(session.log) <= g.input
      ensures MetadataWasApproved(g.input) || Early(Payload(session.log))
      ensures Begins(session.log) > 2 ==> MetadataWasApproved(g.input)
    {
      hide MetadataSegments, FirstSegments, Cleared, Payload, Flat, Transcript, Begins, Early;
      writer.TracedPayload(g.done);
      PrefixOfPrefix([], Payload(session.log), Flat(g.done) + writer.segment, g.input);
      assert [] + Payload(session.log) == Payload(session.log);
      assert [] + (Flat(g.done) + writer.segment) == Flat(g.done) + writer.segment;
      writer.TracedBegins(g.done);
      if g.approved {
        ApprovedBehind(g.outerLength, g.package.configure, g.package.first, g.package.metadata, g.input);
      } else {
        EarlyStart(Payload(session.log), Flat(g.done) + writer.segment);
      }
    }

    /** The input starts with two segments and, right behind them, metadata that passes the check. */
    ghost predicate MetadataWasApproved(input: seq<byte>) {
      exists outer, configure, first, values ::
        ApprovedAt(outer, configure, first, values, input)
    }

    ghost predicate ApprovedAt(outer: nat, configure: seq<byte>, first: seq<byte>, values: seq<seq<byte>>,
      input: seq<byte>) {
      Cleared(values) && Flat(FirstSegments(outer, configure, first) + MetadataSegments(values)) <= input
    }

    lemma ApprovedBehind(outer: nat, configure: seq<byte>, first: seq<byte>, values: seq<seq<byte>>, input: seq<byte>)
      requires ApprovedAt(outer, configure, first, values, input)
      ensures MetadataWasApproved(input)
    {
    }

    /** As long as the end is withheld, the card has not been handed the whole of any package. */
    lemma NotWhole(p: Package)
      requires Faithful() && Withheld() && Complete(p) && |Encode(p)| < 0x1_0000_0000
      ensures session.log != Transcript(Segments(p))
    {
      hide Payload, Flat, Transcript, AfterProfile, FirstSegments, MetadataSegments, SegmentWriter.Traced, Cleared;
      if session.log == Transcript(Segments(p)) {
        if g.begun {
          TranscriptPayload(Segments(p));
          CardIsBehind();
          WholeAsDeclared(p);
        } else {
          writer.TracedLastPart(g.done);
          LastPartTranscript(Segments(p));
          EndsInProfile(p);
          assert NotProfile(LastPart(session.log)) by {
            if g.done != [] { assert g.done[|g.done| - 1] in g.done; }
          }
        }
      }
    }

    lemma WholeAsDeclared(p: Package)
      requires g.approved && Gate(g, writer.active) && Encode(p) <= g.input && |Encode(p)| < 0x1_0000_0000
      ensures |Encode(p)| == DeclaredBytes(g.outerLength)
    {
      hide LengthBytes, AfterProfile, MetadataSegments, Cleared, Element, Elements;
      StartsWithLength(OuterLength(p), p.configure, AfterProfile(p, ProfileBytes(p)));
      var later := [Wrapped(A0, g.package.first)] + MetadataSegments(g.package.metadata);
      StartsWithLength(g.outerLength, g.package.configure, later);
      assert FirstSegments(g.outerLength, g.package.configure, g.package.first) + MetadataSegments(g.package.metadata)
          == [Opening(g.outerLength, g.package.configure)] + later;
      var own := Flat([Opening(g.outerLength, g.package.configure)] + later);
      assert Encode(p) <= own || own <= Encode(p);
      assert |Encode(p)| == DeclaredBytes(OuterLength(p));
      LengthUnique(BF36, OuterLength(p), Element(BF23, p.configure) + Flat(AfterProfile(p, ProfileBytes(p))),
        g.outerLength, Element(BF23, g.package.configure) + Flat(later));
    }

    ghost predicate Wanted() {
      trusted && Complete(target) && WithinLimits(target) && Cleared(target.metadata)
    }

    /**
     * The parser is not obliged to take this input: a card call has failed or
     * has answered too early, or the input is something else.
     */
    ghost predicate Excused(input: seq<byte>)
      reads session
    {
      session.faulty || session.answers > 0 || !Wanted() || !(input <= Encode(target))
    }

    lemma NotExcused()
      requires !Excused(g.input)
      ensures Given(g, target) && Cleared(target.metadata) && trusted
    {
    }

    lemma ExcusedMore(input: seq<byte>, more: seq<byte>)
      requires Excused(input)
      ensures Excused(input + more)
    {
      hide Wanted, Encode;
      assert input <= input + more;
    }

    /** The parser is in the middle of the package that it must take, unless it is excused. */
    ghost predicate OnTrack(admitted: nat)
      reads this, session, writer
    {
      Excused(g.input) || Due(f, g, |writer.segment|, target, admitted)
    }

    /** No call has undone a fault, or an answer. */
    twostate predicate Later()
      reads session
    {
      (old(session.faulty) ==> session.faulty) && old(session.answers) <= session.answers
    }

    ghost predicate Core()
      reads this, session, writer, writer.pending
    {
      Honest() && writer.Valid() && Agreed(f, g, writer.segment, writer.active) == f.state && f.state != Failed
    }

    ghost predicate Valid()
      reads this, session, writer, writer.pending, header, header.raw
    {
      && Core() && header.Valid() && !header.complete && header.Raw() == g.inHeader
      && OnTrack(0) && (f.state == InValue ==> f.valueRemaining > 0)
    }

    constructor (session: CardSession, expected: ProfileMetadata, valid: bool,
                 parseMetadata: seq<byte> -> Option<ProfileMetadata>, ghost target: Package)
      requires session.log == [] && session.replies == []
      ensures Valid() && g == NOTHING_READ && f == START_FIELDS.(expectedValid := valid)
      ensures this.session == session && this.expected == expected && this.parseMetadata == parseMetadata
      ensures this.target == target && trusted == valid
    {
      hide Early, Due, Wanted, Agreed, Cleared, Flat, Transcript, Fitted, Sealed, FirstSegments, MetadataSegments,
        Encode, FullBlocks, SegmentEvents, Complete, Plaintext, ScanHeader;
      this.session := session;
      writer := new SegmentWriter(session);
      header := new DerHeaderReader();
      this.parseMetadata, this.expected := parseMetadata, expected;
      f := START_FIELDS.(expectedValid := valid);
      g := NOTHING_READ;
      this.target, trusted := target, valid;
      new;
      NothingReadYet(valid);
      NothingOut(session.log);
      if !Excused(g.input) {
        NotExcused();
        StartDue(target);
      }
    }

    method Reject(error: Status) returns (status: Status)
      modifies `f
      ensures status == error && f == old(f).(state := Failed)
    {
      f := f.(state := Failed);
      return error;
    }

    /** Opens the next segment on the card. */
    method BeginSegment() returns (status: Status)
      requires Honest() && Writable(g) && writer.Valid() && !writer.active
      modifies `f, session, writer
      ensures Honest() && writer.Valid() && writer.segment == []
      ensures f == if status == Ok then old(f) else old(f).(state := Failed)
      ensures status == Ok ==> writer.active
      ensures Later() && (status != Ok ==> session.faulty)
    {
      hide Sealed;
      ghost var log := session.log;
      SealedBegin(g.begun, g.done, g.outerLength, writer.segment, log);
      status := writer.Start();
      if status == Ok {
        assert session.log == log + [Begin];
      } else {
        assert session.log == log;
        status := Reject(status);
      }
    }

    method WriteOut(data: seq<byte>) returns (status: Status)
      requires Honest() && Writable(g) && writer.Valid() && writer.active
      requires Flat(g.done) + writer.segment + data <= g.input
      requires MayFollow(data) && data != [] && Roomy(g.begun, g.done, g.outerLength, writer.segment, data)
      modifies `f, session, writer, writer.pending
      ensures Honest()
      ensures f == if status == Ok then old(f) else old(f).(state := Failed)
      ensures status == Ok ==> writer.Valid() && writer.active && writer.segment == old(writer.segment) + data
      ensures Later() && (status != Ok ==> session.faulty || |old(writer.segment)| + |data| > MAX_CARD_SEGMENT_BYTES)
    {
      hide Sealed, Payload, Flat, Early, Fitted, Transcript, Cleared, FirstSegments, MetadataSegments, Wanted;
      ghost var was, log := writer.segment, session.log;
      status := writer.Write(data);
      WrittenInPart(Flat(g.done), was, data, writer.segment, g.input);
      writer.SentLength(g.done);
      SealedWrite(g.begun, g.done, g.outerLength, was, data, log, writer.segment, session.log);
      if status != Ok {
        status := Reject(status);
      }
    }

    /** The limits on what may still be passed on. */
    method CheckRoom(size: nat) returns (status: Status)
      modifies `f
      ensures status == Ok <==> Room(old(f), size)
      ensures f == if status == Ok then old(f) else old(f).(state := Failed)
    {
      if f.outerRemaining < size || (f.sequenceActive && f.sequenceRemaining < size) {
        status := Reject(InvalidResponse);
      } else if f.decodedBytes > MAX_DECODED_BYTES || size > MAX_DECODED_BYTES - f.decodedBytes {
        status := Reject(InvalidSize);
      } else if f.collectingMetadata &&
        (|f.metadataWire| > MAX_METADATA_WIRE_BYTES || size > MAX_METADATA_WIRE_BYTES - |f.metadataWire|) {
        status := Reject(InvalidSize);
      } else {
        status := Ok;
      }
    }

    /** Passes bytes on: to the card, or to the metadata that is being held back. */
    method Emit(data: seq<byte>) returns (status: Status)
      requires Honest() && writer.Valid() && data != []
      requires if f.collectingMetadata then !writer.active
               else writer.active && Writable(g) && Flat(g.done) + writer.segment + data <= g.input
      requires Outgoing(f, g, writer.segment, data) && (!f.collectingMetadata ==> MayFollow(data))
      modifies `f, `g, session, writer, writer.pending
      ensures Honest()
      ensures status != Ok ==> g == old(g) && f.state == Failed
      ensures status == Ok ==>
        && writer.Valid() && writer.active == old(writer.active)
        && |data| <= old(f.outerRemaining) && (old(f.sequenceActive) ==> |data| <= old(f.sequenceRemaining))
        && f == PassOn(old(f), data) && g == Emitted(old(g), data)
        && writer.segment == (if f.collectingMetadata then old(writer.segment) else old(writer.segment) + data)
      ensures Later()
      ensures status != Ok ==>
        || session.faulty || !Room(old(f), |data|)
        || (!old(f.collectingMetadata) && |old(writer.segment)| + |data| > MAX_CARD_SEGMENT_BYTES)
    {
      hide Flat, Transcript, Fitted, Early, Due, Wanted, Given, MetadataSegments, FirstSegments, Cleared,
        SegmentWriter.Valid, SegmentWriter.Traced, Sealed;
      status := CheckRoom(|data|);
      if status != Ok { return; }
      if !f.collectingMetadata {
        status := WriteOut(data);
        if status != Ok { return; }
      }
      Count(data);
    }

    /** Opens the next segment with its first bytes. */
    method BeginWith(data: seq<byte>) returns (status: Status)
      requires Honest() && Writable(g) && writer.Valid() && !writer.active && !f.collectingMetadata && data != []
      requires Flat(g.done) + [] + data <= g.input && Outgoing(f, g, [], data)
      requires g.approved || Early(Flat(g.done) + [] + data)
      modifies `f, `g, session, writer, writer.pending
      ensures Honest()
      ensures status != Ok ==> g == old(g) && f.state == Failed
      ensures status == Ok ==>
        && writer.Valid() && writer.active && writer.segment == [] + data
        && |data| <= old(f.outerRemaining) && (old(f.sequenceActive) ==> |data| <= old(f.sequenceRemaining))
        && f == PassOn(old(f), data) && g == Emitted(old(g), data)
      ensures Later()
      ensures status != Ok ==> session.faulty || !Room(old(f), |data|) || |data| > MAX_CARD_SEGMENT_BYTES
    {
      hide Flat, Transcript, Fitted, Early, Due, Wanted, Given, MetadataSegments, FirstSegments, Cleared,
        SegmentWriter.Valid, SegmentWriter.Traced, Sealed;
      status := BeginSegment();
      if status != Ok { return; }
      status := Emit(data);
    }

    method Count(data: seq<byte>)
      requires |data| <= f.outerRemaining && (f.sequenceActive ==> |data| <= f.sequenceRemaining)
      requires Honest()
      modifies `f, `g
      ensures Honest() && f == PassOn(old(f), data) && g == Emitted(old(g), data)
    {
      hide Flat, Transcript, Fitted, Early, Due, Wanted, Given, MetadataSegments, FirstSegments, Cleared,
        SegmentWriter.Valid, SegmentWriter.Traced, Sealed;
      if f.collectingMetadata {
        f := f.(metadataWire := f.metadataWire + data);
      }
      f := f.(outerRemaining := f.outerRemaining - |data|);
      if f.sequenceActive {
        f := f.(sequenceRemaining := f.sequenceRemaining - |data|);
      }
      f := f.(decodedBytes := f.decodedBytes + |data|);
      g := g.(emitted := g.emitted + data);
    }

    /** Hands the end of the open segment to the card. */
    method CloseSegment(ghost final: bool) returns (status: Status, response: seq<byte>)
      requires Honest() && Writable(g) && writer.Valid() && writer.active && writer.segment != []
      requires final || Closable(g, writer.segment)
      modifies `f, `g, session, writer, writer.pending
      ensures Faithful() && (!final ==> Honest())
      ensures f == if status == Ok then old(f) else old(f).(state := Failed)
      ensures status != Ok ==> g == old(g)
      ensures status == Ok ==>
        && writer.Closed() && (response == [] ==> writer.Valid()) && session.Answered(response)
        && g == Closed(old(g), old(writer.segment))
      ensures Later() && (status != Ok ==> session.faulty)
      ensures status == Ok ==> session.answers == old(session.answers) + if response != [] then 1 else 0
    {
      hide Flat, Transcript, Fitted, Early, Due, Wanted, Given, MetadataSegments, FirstSegments, Cleared, Sealed,
        Payload, Closable;
      ghost var segment, log := writer.segment, session.log;
      ghost var closed := g.done + [segment];
      assert Flat(closed) == Flat(g.done) + segment by { FlatSnoc(g.done, segment); }
      assert Transcript(closed) == Transcript(g.done) + SegmentEvents(segment) by { TranscriptSnoc(g.done, segment); }
      ClosedSegmentPayload(g.done, segment);
      FittedSnoc(g.done, segment);
      status, response := writer.Finish();
      if !final { SealedClose(g, segment, log, session.log); }
      if status != Ok {
        status := Reject(status);
        return;
      }
      assert Flat(g.done) + segment == Flat(closed) + [];
      g := g.(done := closed);
      assert writer.segment == [] && Flat(closed) + [] == Flat(closed);
    }

    /**
     * Closes the open segment. Only the final one may be answered with
     * data, and only it may be the end of the package.
     */
    method FinishSegment(final: bool) returns (status: Status)
      requires Honest() && Writable(g) && writer.Valid() && writer.active && writer.segment != []
      requires final || Closable(g, writer.segment)
      modifies `f, `g, session, writer, writer.pending
      ensures Faithful() && (!final ==> Honest()) && g.input == old(g.input) && g.approved == old(g.approved)
      ensures g.begun == old(g.begun) && g.outerLength == old(g.outerLength)
      ensures status != Ok ==> f.state == Failed
      ensures status == Ok ==>
        && writer.Closed() && g == Closed(old(g), old(writer.segment))
        && f == SegmentCounted(old(f)).(installationResult := f.installationResult)
        && (!final ==> writer.Valid() && f == SegmentCounted(old(f)))
        && (final && old(f.installationResult) == [] ==> session.Answered(f.installationResult))
      ensures Later()
      ensures status != Ok ==>
        || session.faulty || old(f.segmentCount) >= MAX_ELEMENTS
        || (if final then old(f.installationResult) != [] else session.answers > 0)
      ensures status == Ok && final && old(f.installationResult) == [] ==>
        session.answers == old(session.answers) + if f.installationResult != [] then 1 else 0
    {
      hide Flat, Transcript, Fitted, Early, Due, Wanted, Given, MetadataSegments, FirstSegments, Cleared,
        SegmentWriter.Valid, SegmentWriter.Traced, Sealed;
      var response;
      status, response := CloseSegment(final);
      if status != Ok { return; }
      status := CountSegment(final, response);
    }

    method CountSegment(final: bool, response: seq<byte>) returns (status: Status)
      modifies `f
      ensures status != Ok ==> f.state == Failed
      ensures status == Ok ==>
        && f == SegmentCounted(old(f)).(installationResult := f.installationResult)
        && (!final ==> response == [] && f == SegmentCounted(old(f)))
      ensures status != Ok ==>
        old(f.segmentCount) >= MAX_ELEMENTS || (response != [] && (!final || old(f.installationResult) != []))
      ensures status == Ok && old(f.installationResult) == [] ==> f.installationResult == response
    {
      if response != [] {
        if !final || f.installationResult != [] {
          status := Reject(InvalidResponse);
          return;
        }
        f := f.(installationResult := response);
      }
      f := f.(segmentCount := f.segmentCount + 1);
      if f.segmentCount > MAX_ELEMENTS {
        status := Reject(InvalidSize);
        return;
      }
      return Ok;
    }

    /** A complete header is waiting to be handled. */
    ghost predicate Ready(raw: seq<byte>, tagBytes: nat, length: nat)
      reads this, session, writer, writer.pending
    {
      Core() && g.inHeader == raw && ScanHeader(raw) == Done(tagBytes, length)
    }

    /** The header has been handled: the package goes on, or it has been rejected. */
    twostate predicate Handled(status: Status)
      reads this, session, writer, writer.pending
    {
      && Honest() && g.input == old(g.input)
      && (if status == Ok then Core() && g.inHeader == [] && (f.state == InValue ==> f.valueRemaining > 0)
        else f.state == Failed)
    }

    /** The step has been taken in full, or there was no room for it, or the card was in the way. */
    twostate predicate Stepped(status: Status, f1: Fields, g1: Reading, n1: nat, fits: bool)
      reads this, session, writer
    {
      && Later()
      && (if status == Ok then f == f1 && g == g1 && |writer.segment| == n1
        else session.faulty || session.answers > 0 || !fits)
    }

    twostate predicate HeaderStep(status: Status, raw: seq<byte>, tagBytes: nat, length: nat)
      reads this, session, writer
    {
      Stepped(status, HeaderFields(old(f), raw, tagBytes, length), HeaderReading(old(f), old(g), raw, tagBytes, length),
        HeaderSegment(old(f), |old(writer.segment)|, raw),
        HeaderFits(old(f), old(writer.segmentBytes), raw, tagBytes, length))
    }

    twostate predicate ValueStep(status: Status)
      reads this, session, writer
    {
      Stepped(status, EndedFields(old(f)), EndedReading(old(f), old(g), old(writer.segment)),
        EndedSegment(old(f), |old(writer.segment)|), EndFits(old(f)))
    }

    method HandleOuterHeader(raw: seq<byte>, tagBytes: nat, length: nat) returns (status: Status)
      requires Ready(raw, tagBytes, length) && f.state == OuterHeader
      modifies `f, `g
      ensures Handled(status)
      ensures HeaderStep(status, raw, tagBytes, length)
    {
      hide Agreed, ScanHeader, Flat, Transcript, Fitted, Early, Due, Wanted, Given, MetadataSegments, FirstSegments,
        Cleared, SegmentWriter.Valid, SegmentWriter.Traced, Sealed;
      if !TagIs(raw, tagBytes, BF36) || length == 0 {
        status := Reject(InvalidResponse);
        return;
      }
      if |raw| > MAX_CARD_SEGMENT_BYTES {
        status := Reject(InvalidSize);
        return;
      }
      OuterHeaderRead(f, g, writer.segment, writer.active, tagBytes, length);
      SealedAnyLength(g.done, g.outerLength, writer.segment, session.log, length);
      f := f.(pendingParent := raw, pendingParentLength := length, outerRemaining := length, state := OuterChild);
      g := g.(outerLength := length, inHeader := []);
      return Ok;
    }

    /** The size checks on a child whose parent header has not been passed on yet. */
    method PreflightPendingChild(rawSize: nat, valueSize: nat, exactParentLength: bool) returns (status: Status)
      modifies `f
      ensures f == if status == Ok then old(f) else old(f).(state := Failed)
      ensures status == Ok <==> ParentFits(old(f), rawSize, valueSize, exactParentLength)
    {
      if f.pendingParent == [] || rawSize > MAX_CARD_SEGMENT_BYTES || valueSize > MAX_CARD_SEGMENT_BYTES - rawSize {
        status := Reject(InvalidSize);
        return;
      }
      var childSize := rawSize + valueSize;
      if exactParentLength && f.pendingParentLength != childSize {
        status := Reject(InvalidResponse);
        return;
      }
      if |f.pendingParent| > MAX_CARD_SEGMENT_BYTES || childSize > MAX_CARD_SEGMENT_BYTES - |f.pendingParent| {
        status := Reject(InvalidSize);
        return;
      }
      var enclosingSize := |f.pendingParent| + childSize;
      var bodySize := if exactParentLength then enclosingSize else childSize;
      if f.outerRemaining < bodySize {
        status := Reject(InvalidResponse);
        return;
      }
      if f.decodedBytes > MAX_DECODED_BYTES || enclosingSize > MAX_DECODED_BYTES - f.decodedBytes {
        status := Reject(InvalidSize);
        return;
      }
      return Ok;
    }

    /** What may go out may go out in two pieces. */
    lemma HeadIsEarly(head: seq<byte>, raw: seq<byte>)
      requires Early(Flat(g.done) + ([] + head) + raw)
      ensures Early(Flat(g.done) + [] + head) && Early(Flat(g.done) + [])
    {
      hide Flat, Early;
      var all := Flat(g.done) + ([] + head) + raw;
      assert Flat(g.done) + [] + head == all[..|Flat(g.done) + head|];
      EarlyStart(Flat(g.done) + [] + head, all);
      EarlyStart(Flat(g.done) + [], all);
    }

    /** The header of the package leaves together with the header of BF23. */
    method SendOpening(raw: seq<byte>, length: nat) returns (status: Status)
      requires Core() && f.state == OuterChild && raw == g.inHeader != []
      requires Early(Flat(g.done) + ([] + f.pendingParent) + raw)
      modifies `f, `g, session, writer, writer.pending
      ensures Honest() && g.input == old(g.input)
      ensures status != Ok ==> f.state == Failed
      ensures status == Ok ==>
        && writer.Valid() && writer.active && writer.segment == [] + old(f.pendingParent) + raw
        && f == EnterValue(PassOn(old(f).(decodedBytes := |old(f.pendingParent)|), raw), OuterValue, length)
        && g == HeaderTaken(Emitted(old(g).(emitted := old(f.pendingParent)), raw))
      ensures Later()
      ensures status != Ok ==>
        || session.faulty || |old(f.pendingParent)| + |raw| > MAX_CARD_SEGMENT_BYTES
        || !Room(old(f).(decodedBytes := |old(f.pendingParent)|), |raw|)
    {
      hide Room, Agreed, ScanHeader, Header, Flat, Transcript, Fitted, Early, Due, Wanted, Given, MetadataSegments,
        FirstSegments, Cleared, SegmentWriter.Valid, SegmentWriter.Traced, Sealed;
      OuterChildFits(f, g, writer.segment, writer.active);
      HeadIsEarly(f.pendingParent, raw);
      status := BeginSegment();
      if status != Ok { return; }
      HeadGoesOut(f, g, f.pendingParent, raw);
      status := WriteOut(f.pendingParent);
      if status != Ok { return; }
      f := f.(decodedBytes := |f.pendingParent|);
      g := g.(emitted := f.pendingParent);
      status := Emit(raw);
      if status != Ok { return; }
      f := EnterValue(f, OuterValue, length);
      g := HeaderTaken(g);
    }

    /** BF23: the first segment starts with the package header, which is not part of its own body. */
    method HandleOuterChild(raw: seq<byte>, tagBytes: nat, length: nat) returns (status: Status)
      requires Ready(raw, tagBytes, length) && f.state == OuterChild
      modifies `f, `g, session, writer, writer.pending
      ensures Handled(status)
      ensures HeaderStep(status, raw, tagBytes, length)
    {
      hide HeaderFields, HeaderReading, HeaderSegment, HeaderFits, Room, Agreed, Flat, Transcript, Fitted, Early, Due,
        Wanted, Given, MetadataSegments, FirstSegments, Cleared;
      OuterChildStep(f, g, |writer.segment|, writer.segmentBytes, raw, tagBytes, length);
      if !TagIs(raw, tagBytes, BF23) || length == 0 {
        status := Reject(InvalidResponse);
        return;
      }
      status := PreflightPendingChild(|raw|, length, false);
      if status != Ok { return; }
      OuterChildRead(f, g, writer.segment, writer.active, tagBytes, length);
      OpeningGoesOut(f, g, writer.segment, writer.active, tagBytes, length);
      status := SendOpening(raw, length);
    }

    /** A parent header that waits until its child is known. */
    method KeepParent(raw: seq<byte>, length: nat, next: State)
      modifies `f, `g
      ensures f == old(f).(pendingParent := raw, pendingParentLength := length, childCount := 0, state := next)
      ensures g == old(g).(inHeader := [])
    {
      f := f.(pendingParent := raw, pendingParentLength := length, childCount := 0, state := next);
      g := g.(inHeader := []);
    }

    method HandleFirstSequenceHeader(raw: seq<byte>, tagBytes: nat, length: nat) returns (status: Status)
      requires Ready(raw, tagBytes, length) && f.state == FirstSequenceHeader
      modifies `f, `g
      ensures Handled(status)
      ensures HeaderStep(status, raw, tagBytes, length)
    {
      hide Agreed, ScanHeader, Flat, Transcript, Fitted, Early, Due, Wanted, Given, MetadataSegments, FirstSegments,
        Cleared, SegmentWriter.Valid, SegmentWriter.Traced, Sealed;
      if !TagIs(raw, tagBytes, A0) || length == 0 {
        status := Reject(InvalidResponse);
        return;
      }
      FirstSequenceRead(f, g, writer.segment, writer.active, tagBytes, length);
      KeepParent(raw, length, FirstSequenceChild);
      return Ok;
    }

    /** The header of the value in A0 or A2 leaves together with the header before it. */
    method SendWrapped(raw: seq<byte>, kind: ValueKind, length: nat) returns (status: Status)
      requires Core() && f.state in {FirstSequenceChild, SecondSequenceChild} && raw == g.inHeader != []
      requires f.pendingParent != [] && |f.pendingParent| + |raw| <= f.outerRemaining
      requires g.approved || Early(Flat(g.done) + ([] + f.pendingParent) + raw)
      modifies `f, `g, session, writer, writer.pending
      ensures Honest() && g.input == old(g.input)
      ensures status != Ok ==> f.state == Failed
      ensures status == Ok ==>
        && writer.Valid() && writer.active && writer.segment == [] + old(f.pendingParent) + raw
        && f == WrappedFields(old(f), raw, kind, length) && g == WrappedReading(old(f), old(g))
      ensures Later()
      ensures status != Ok ==>
        || session.faulty || !Room(old(f), |old(f.pendingParent)|)
          || |old(f.pendingParent)| + |raw| > MAX_CARD_SEGMENT_BYTES
        || !Room(OpenSequence(PassOn(old(f), old(f.pendingParent)), old(f.pendingParentLength)), |raw|)
    {
      hide Agreed, ScanHeader, Header, Flat, Transcript, Fitted, Early, Due, Wanted, Given, MetadataSegments,
        FirstSegments, Cleared, SegmentWriter.Valid, SegmentWriter.Traced, Sealed;
      WrappedChildFits(f, g, writer.segment, writer.active);
      if !g.approved { HeadIsEarly(f.pendingParent, raw); }
      HeadGoesOut(f, g, f.pendingParent, raw);
      status := BeginWith(f.pendingParent);
      if status != Ok { return; }
      f := f.(sequenceRemaining := f.pendingParentLength, sequenceActive := true);
      status := Emit(raw);
      if status != Ok { return; }
      f := EnterValue(f, kind, length);
      g := HeaderTaken(g);
    }

    method HandleFirstSequenceChild(raw: seq<byte>, tagBytes: nat, length: nat) returns (status: Status)
      requires Ready(raw, tagBytes, length) && f.state == FirstSequenceChild
      modifies `f, `g, session, writer, writer.pending
      ensures Handled(status)
      ensures HeaderStep(status, raw, tagBytes, length)
    {
      hide HeaderFields, HeaderReading, HeaderSegment, HeaderFits, Room, Agreed, Flat, Transcript, Fitted, Early, Due,
        Wanted, Given, MetadataSegments, FirstSegments, Cleared, WrappedFields, WrappedReading;
      WrappedStep(f, g, |writer.segment|, writer.segmentBytes, raw, tagBytes, length);
      if !TagIs(raw, tagBytes, X87) || length == 0 {
        status := Reject(InvalidResponse);
        return;
      }
      status := PreflightPendingChild(|raw|, length, true);
      if status != Ok { return; }
      FirstChildRead(f, g, writer.segment, writer.active, tagBytes, length);
      WrappedState(f, g, raw, FirstValue, length);
      FirstGoesOut(f, g, writer.segment, writer.active, tagBytes, length);
      status := SendWrapped(raw, FirstValue, length);
    }

    method HandleSecondSequenceChild(raw: seq<byte>, tagBytes: nat, length: nat) returns (status: Status)
      requires Ready(raw, tagBytes, length) && f.state == SecondSequenceChild
      modifies `f, `g, session, writer, writer.pending
      ensures Handled(status)
      ensures HeaderStep(status, raw, tagBytes, length)
    {
      hide HeaderFields, HeaderReading, HeaderSegment, HeaderFits, Room, Agreed, Flat, Transcript, Fitted, Early, Due,
        Wanted, Given, MetadataSegments, FirstSegments, Cleared, WrappedFields, WrappedReading;
      WrappedStep(f, g, |writer.segment|, writer.segmentBytes, raw, tagBytes, length);
      if !TagIs(raw, tagBytes, X87) || length == 0 {
        status := Reject(InvalidResponse);
        return;
      }
      status := PreflightPendingChild(|raw|, length, true);
      if status != Ok { return; }
      SecondChildRead(f, g, writer.segment, writer.active, tagBytes, length);
      WrappedState(f, g, raw, SecondValue, length);
      SecondIsApproved(f, g, writer.segment, writer.active);
      status := SendWrapped(raw, SecondValue, length);
    }

    /** From here on, nothing is handed out until the metadata has been checked. */
    method WithholdHeader(raw: seq<byte>, length: nat) returns (status: Status)
      requires Honest() && writer.Valid() && !writer.active && raw != []
      modifies `f, `g, session, writer, writer.pending
      ensures Honest() && g.input == old(g.input)
      ensures status != Ok ==> f.state == Failed
      ensures status == Ok ==>
        && writer.Valid() && !writer.active && writer.segment == old(writer.segment)
        && f == OpenSequence(PassOn(old(f).(collectingMetadata := true), raw), length).(childCount := 0,
          state := MetadataChild)
        && g == Emitted(old(g), raw).(inHeader := [], sequenceLength := length)
      ensures Later() && (status != Ok ==> session.faulty || !Room(old(f).(collectingMetadata := true), |raw|))
    {
      hide Room, Flat, Transcript, Fitted, Early, Due, Wanted, Given, MetadataSegments, FirstSegments, Cleared,
        SegmentWriter.Valid, SegmentWriter.Traced, Sealed;
      f := f.(collectingMetadata := true);
      status := Emit(raw);
      if status != Ok { return; }
      f := f.(sequenceRemaining := length, sequenceActive := true, childCount := 0, state := MetadataChild);
      g := g.(inHeader := [], sequenceLength := length);
    }

    /** A1 is held back together with its children. */
    method HandleMetadataSequenceHeader(raw: seq<byte>, tagBytes: nat, length: nat) returns (status: Status)
      requires Ready(raw, tagBytes, length) && f.state == MetadataSequenceHeader
      modifies `f, `g, session, writer, writer.pending
      ensures Handled(status)
      ensures HeaderStep(status, raw, tagBytes, length)
    {
      hide HeaderFields, HeaderReading, HeaderSegment, HeaderFits, Room, Agreed, ScanHeader, Flat, Transcript, Fitted,
        Early, Due, Wanted, Given, MetadataSegments, FirstSegments, Cleared, SegmentWriter.Valid, SegmentWriter.Traced,
        Sealed;
      MetadataHeaderStep(f, g, |writer.segment|, writer.segmentBytes, raw, tagBytes, length);
      if !TagIs(raw, tagBytes, A1) || length == 0 {
        status := Reject(InvalidResponse);
        return;
      }
      if |raw| > MAX_CARD_SEGMENT_BYTES {
        status := Reject(InvalidSize);
        return;
      }
      if !OuterTlvFits(f, |raw|, length) {
        status := Reject(InvalidResponse);
        return;
      }
      if |raw| + length > MAX_METADATA_WIRE_BYTES {
        status := Reject(InvalidSize);
        return;
      }
      MetadataHeaderRead(f, g, writer.segment, writer.active, tagBytes, length);
      status := WithholdHeader(raw, length);
    }

    method HandleMetadataChild(raw: seq<byte>, tagBytes: nat, length: nat) returns (status: Status)
      requires Ready(raw, tagBytes, length) && f.state == MetadataChild
      modifies `f, `g, session, writer, writer.pending
      ensures Handled(status)
      ensures HeaderStep(status, raw, tagBytes, length)
    {
      hide HeaderFields, HeaderReading, HeaderSegment, HeaderFits, Room, Agreed, ScanHeader, Flat, Transcript, Fitted,
        Early, Due, Wanted, Given, MetadataSegments, FirstSegments, Cleared, SegmentWriter.Valid, SegmentWriter.Traced,
        Sealed;
      ChildStep(f, g, |writer.segment|, writer.segmentBytes, raw, tagBytes, length);
      if !TagIs(raw, tagBytes, X88) || length <= MAC_BYTES {
        status := Reject(InvalidResponse);
        return;
      }
      if !CardTlvFits(writer.segmentBytes, |raw|, length) {
        status := Reject(InvalidSize);
        return;
      }
      if !OuterTlvFits(f, |raw|, length) || !SequenceTlvFits(f, |raw|, length) {
        status := Reject(InvalidResponse);
        return;
      }
      MetadataChildFits(f, g, writer.segment, writer.active);
      MetadataChildRead(f, g, writer.segment, writer.active, tagBytes, length);
      status := Emit(raw);
      if status != Ok { return; }
      f := EnterValue(f, MetadataValue, length);
      g := HeaderTaken(g);
    }

    method HandleSecondSequenceOrProfile(raw: seq<byte>, tagBytes: nat, length: nat) returns (status: Status)
      requires Ready(raw, tagBytes, length) && f.state == SecondSequenceOrProfile
      modifies `f, `g, session, writer, writer.pending
      ensures Handled(status)
      ensures HeaderStep(status, raw, tagBytes, length)
    {
      hide Agreed, ScanHeader, Flat, Transcript, Fitted, Early, Due, Wanted, Given, MetadataSegments, FirstSegments,
        Cleared, SegmentWriter.Valid, SegmentWriter.Traced, Sealed;
      if TagIs(raw, tagBytes, A2) {
        if length == 0 {
          status := Reject(InvalidResponse);
          return;
        }
        SecondSequenceRead(f, g, writer.segment, writer.active, tagBytes, length);
        KeepParent(raw, length, SecondSequenceChild);
        return Ok;
      }
      status := HandleProfileSequenceHeader(raw, tagBytes, length);
    }

    /** A3 is a segment of its own. */
    method HandleProfileSequenceHeader(raw: seq<byte>, tagBytes: nat, length: nat) returns (status: Status)
      requires Ready(raw, tagBytes, length) && f.state in {SecondSequenceOrProfile, ProfileSequenceHeader}
      modifies `f, `g, session, writer, writer.pending
      ensures Handled(status)
      ensures old(f.state) == ProfileSequenceHeader || !TagIs(raw, tagBytes, A2) ==>
        HeaderStep(status, raw, tagBytes, length)
    {
      hide Faithful, Withheld, HeaderFields, HeaderReading, HeaderSegment, HeaderFits, Room, Agreed, ScanHeader, Flat,
        Transcript, Fitted, Early, Due, Wanted, Given, MetadataSegments, FirstSegments, Cleared, SegmentWriter.Valid,
        SegmentWriter.Traced, Sealed;
      if f.state == ProfileSequenceHeader || !TagIs(raw, tagBytes, A2) {
        ProfileHeaderStep(f, g, |writer.segment|, writer.segmentBytes, raw, tagBytes, length);
      }
      if !TagIs(raw, tagBytes, A3) || length == 0 {
        status := Reject(InvalidResponse);
        return;
      }
      if |raw| > MAX_CARD_SEGMENT_BYTES {
        status := Reject(InvalidSize);
        return;
      }
      if !OuterTlvFits(f, |raw|, length) {
        status := Reject(InvalidResponse);
        return;
      }
      ProfileHeaderFits(f, g, writer.segment, writer.active);
      ProfileHeaderRead(f, g, writer.segment, writer.active, tagBytes, length);
      status := OpenProfile(raw, length);
    }

    method OpenProfile(raw: seq<byte>, length: nat) returns (status: Status)
      requires Honest() && g.approved && writer.Valid() && !writer.active && !f.collectingMetadata && !g.begun
      requires StartsElse(raw)
      requires Flat(g.done) + [] + raw <= g.input && |Flat(g.done + [[] + raw])| < DeclaredBytes(g.outerLength)
      modifies `f, `g, session, writer, writer.pending
      ensures Honest() && g.input == old(g.input)
      ensures status != Ok ==> f.state == Failed
      ensures status == Ok ==>
        && writer.Valid() && !writer.active && writer.segment == []
        && f == ProfileOpened(old(f), raw, length) && g == ProfileReading(old(g), raw, length)
      ensures Later()
      ensures status != Ok ==>
        || session.faulty || session.answers > 0 || !Room(old(f), |raw|) || |raw| > MAX_CARD_SEGMENT_BYTES
        || old(f.segmentCount) >= MAX_ELEMENTS
    {
      hide Room, Flat, Transcript, Fitted, Early, Due, Wanted, Given, MetadataSegments, FirstSegments, Cleared,
        SegmentWriter.Valid, SegmentWriter.Traced, Sealed;
      status := SendHeader(raw, length);
      if status != Ok { return; }
      f := f.(state := ProfileChild);
      BeginProfile(length);
    }

    ghost method BeginProfile(length: nat)
      requires Honest() && g.approved && writer.Valid() && !writer.active
      requires |Flat(g.done)| < DeclaredBytes(g.outerLength)
      modifies `g
      ensures Honest() && g == old(g).(inHeader := [], sequenceLength := length, begun := true)
    {
      hide Flat, Transcript, Fitted, Early, Due, Wanted, Given, MetadataSegments, FirstSegments, Cleared,
        SegmentWriter.Valid, SegmentWriter.Traced, Sealed;
      ProfileUnderSeal();
      g := g.(inHeader := [], sequenceLength := length, begun := true);
    }

    /** From the header of the profile on, what counts is that the end of the package has not been handed out. */
    lemma ProfileUnderSeal()
      requires Faithful() && writer.Valid() && !writer.active && |Flat(g.done)| < DeclaredBytes(g.outerLength)
      ensures Sealed(true, g.done, g.outerLength, writer.segment, session.log)
    {
      hide Payload, Flat, Transcript;
      writer.NothingOpen();
      TranscriptPayload(g.done);
    }

    /** Sends the header of a sequence as a segment of its own, and opens the sequence. */
    method SendHeader(raw: seq<byte>, length: nat) returns (status: Status)
      requires Honest() && Writable(g) && writer.Valid() && !writer.active && !f.collectingMetadata && !g.begun
      requires StartsElse(raw)
      requires Flat(g.done) + [] + raw <= g.input && g.approved
      modifies `f, `g, session, writer, writer.pending
      ensures Honest() && g.input == old(g.input)
      ensures status != Ok ==> f.state == Failed
      ensures status == Ok ==>
        && writer.Valid() && !writer.active && writer.segment == []
        && f == SegmentCounted(OpenSequence(PassOn(old(f), raw), length).(childCount := 0))
        && g == Closed(Emitted(old(g), raw), [] + raw)
      ensures Later()
      ensures status != Ok ==>
        || session.faulty || session.answers > 0 || !Room(old(f), |raw|) || |raw| > MAX_CARD_SEGMENT_BYTES
        || old(f.segmentCount) >= MAX_ELEMENTS
    {
      hide Agreed, ScanHeader, Flat, Transcript, Fitted, Early, Due, Wanted, Given, MetadataSegments, FirstSegments,
        Cleared, SegmentWriter.Valid, SegmentWriter.Traced, Sealed;
      status := BeginWith(raw);
      if status != Ok { return; }
      f := f.(sequenceRemaining := length, sequenceActive := true, childCount := 0);
      status := FinishSegment(false);
    }

    method HandleProfileChild(raw: seq<byte>, tagBytes: nat, length: nat) returns (status: Status)
      requires Ready(raw, tagBytes, length) && f.state == ProfileChild && !f.finalSegmentPending
      modifies `f, `g, session, writer, writer.pending
      ensures Handled(status)
      ensures HeaderStep(status, raw, tagBytes, length)
    {
      hide HeaderFields, HeaderReading, HeaderSegment, HeaderFits, Room, Agreed, ScanHeader, Flat, Transcript, Fitted,
        Early, Due, Wanted, Given, MetadataSegments, FirstSegments, Cleared, SegmentWriter.Valid, SegmentWriter.Traced,
        Sealed;
      ChildStep(f, g, |writer.segment|, writer.segmentBytes, raw, tagBytes, length);
      if !TagIs(raw, tagBytes, X86) || length == 0 {
        status := Reject(InvalidResponse);
        return;
      }
      if !CardTlvFits(writer.segmentBytes, |raw|, length) {
        status := Reject(InvalidSize);
        return;
      }
      if !OuterTlvFits(f, |raw|, length) || !SequenceTlvFits(f, |raw|, length) {
        status := Reject(InvalidResponse);
        return;
      }
      ProfileChildFits(f, g, writer.segment, writer.active);
      ProfileChildRead(f, g, writer.segment, writer.active, tagBytes, length);
      status := BeginWith(raw);
      if status != Ok { return; }
      f := EnterValue(f, ProfileValue, length);
      g := HeaderTaken(g);
    }

    /** The plaintext of the fragments: every value without the MAC at its end. */
    method CollectPlaintext(wire: seq<byte>, start: nat, ghost values: seq<seq<byte>>)
      returns (status: Status, plaintext: seq<byte>)
      requires wire == Wire(values) && |wire| <= T.RESPONSE_MAX && start == Offset(values, 0)
      requires forall v | v in values :: |v| > MAC_BYTES
      ensures status == Ok ==> plaintext == Plaintext(values) && |plaintext| <= MAX_OBJECT_BYTES
      ensures status == Ok || status == InvalidSize
      ensures status == InvalidSize ==> |Plaintext(values)| > MAX_OBJECT_BYTES
    {
      hide Element, Cleared, Gate, Wire, Offset, LengthBytes, Header, Elements, T.SpanAt, Flat;
      WireOf(values);
      var position := start;
      ghost var i := 0;
      plaintext := [];
      assert values[..0] == [];
      while position < |wire|
        invariant i <= |values| && position == Offset(values, i) <= |wire|
        invariant plaintext == Plaintext(values[..i]) && |plaintext| <= MAX_OBJECT_BYTES
        decreases |wire| - position
      {
        if i == |values| { assert false; }
        var ok, fragment, next := T.ParseTlvSpan(wire, |wire|, position);
        FragmentPlaintext(values, i);
        // The stream parser has seen the same boundaries, so this is never refused here.
        if !ok || fragment.valueLength <= MAC_BYTES { assert false; }
        var size := fragment.valueLength - MAC_BYTES;
        PlaintextSnoc(values[..i], values[i]);
        assert values[..i + 1] == values[..i] + [values[i]];
        if size > MAX_OBJECT_BYTES - |plaintext| {
          PlaintextGrows(values, i + 1);
          return InvalidSize, plaintext;
        }
        plaintext := plaintext + wire[fragment.valueOffset..fragment.valueOffset + size];
        position, i := next, i + 1;
      }
      if i < |values| {
        FragmentPlaintext(values, i);
      }
      assert values[..i] == values;
      return Ok, plaintext;
    }

    /** Reads the metadata back from what was held back, and compares it with what is expected. */
    method CheckMetadata(ghost values: seq<seq<byte>>) returns (status: Status, root: T.Span)
      requires f.metadataWire == Wire(values) && values != [] && (forall v | v in values :: |v| > MAC_BYTES)
      modifies `f
      ensures f == old(f).(state := f.state, expectedValid := f.expectedValid)
      ensures status == Ok ==> Cleared(values) && f == old(f).(expectedValid := false)
      ensures status == Ok ==> |Wire(values)| <= T.RESPONSE_MAX && root.valueOffset == Offset(values, 0)
      ensures status != Ok ==> f.state == Failed
      ensures status != Ok ==>
        !Cleared(values) || !old(f.expectedValid) || |Wire(values)| > T.RESPONSE_MAX
          || |Plaintext(values)| > MAX_OBJECT_BYTES
    {
      hide Wire, Offset, LengthBytes, Header, Elements, T.Boundaries;
      var wire, position, ok, plaintext := f.metadataWire, 0, false, [];
      if |wire| <= T.RESPONSE_MAX {
        RootAt(values);
        WireOf(values);
      }
      ok, root, position := T.ParseTlvSpan(wire, |wire|, 0);
      if !ok || position != |wire| {
        status := Reject(InvalidResponse);
        return;
      }
      RootAt(values);
      assert wire[0..|wire|] == wire;
      status, plaintext := CollectPlaintext(wire, root.valueOffset, values);
      if status != Ok {
        status := Reject(status);
        return;
      }
      var actual := parseMetadata(plaintext);
      var match_ := f.expectedValid && actual.Some? && !actual.value.hasPolicyRules
        && actual.value.profileName == expected.profileName && actual.value.providerName == expected.providerName;
      f := f.(expectedValid := false);
      if !match_ {
        status := Reject(InvalidResponse);
      }
    }

    /** One segment of its own, from begin to end. */
    method Replay(data: seq<byte>) returns (status: Status)
      requires Honest() && g.approved && writer.Valid() && !writer.active && !g.begun && StartsElse(data)
      requires Flat(g.done) + [] + data <= g.input
      modifies `f, `g, session, writer, writer.pending
      ensures Honest() && g.input == old(g.input) && g.approved == old(g.approved) && g.begun == old(g.begun)
      ensures status != Ok ==> f.state == Failed
      ensures status == Ok ==>
        && writer.Valid() && !writer.active && writer.segment == []
        && f == SegmentCounted(old(f)) && g == Closed(old(g), [] + data)
      ensures Later()
      ensures status != Ok ==>
        session.faulty || session.answers > 0 || |data| > MAX_CARD_SEGMENT_BYTES || old(f.segmentCount) >= MAX_ELEMENTS
    {
      hide Flat, Transcript, Fitted, Early, Due, Wanted, Given, MetadataSegments, FirstSegments, Cleared,
        SegmentWriter.Valid, SegmentWriter.Traced, Sealed;
      status := BeginSegment();
      if status != Ok { return; }
      status := WriteOut(data);
      if status != Ok { return; }
      status := FinishSegment(false);
    }

    /** The next fragment of the replay, cut at the boundary that the TLV parser reports. */
    method ReplayFragment(wire: seq<byte>, position: nat, ghost done: seq<seq<byte>>, ghost values: seq<seq<byte>>,
      ghost i: nat)
      returns (status: Status, next: nat)
      requires Honest() && g.approved && writer.Valid() && !writer.active && !g.begun
      requires wire == Wire(values) && |wire| <= T.RESPONSE_MAX && i < |values| && position == Offset(values, i)
      requires g.done == done + MetadataSegments(values)[..i + 1] && Flat(done) + wire <= g.input
      modifies `f, `g, session, writer, writer.pending
      ensures Honest() && g.input == old(g.input) && g.approved == old(g.approved) && g.begun == old(g.begun)
      ensures position < next == Offset(values, i + 1) <= |wire|
      ensures status != Ok ==> f.state == Failed
      ensures status == Ok ==>
        && writer.Valid() && !writer.active && writer.segment == []
        && f == SegmentCounted(old(f)) && g == old(g).(done := done + MetadataSegments(values)[..i + 2])
      ensures Later()
      ensures status != Ok ==> session.faulty || session.answers > 0 || old(f.segmentCount) >= MAX_ELEMENTS
    {
      hide Flat, Transcript, Fitted, Early, Due, Wanted, Given, MetadataSegments, FirstSegments, Cleared,
        SegmentWriter.Valid, SegmentWriter.Traced, Sealed, Wire, Offset, Header, Elements, T.SpanAt;
      FragmentAt(values, i);
      var ok, fragment;
      ok, fragment, next := T.ParseTlvSpan(wire, |wire|, position);
      if !ok { assert false; }
      ReplayNext(done, values, i, g.input);
      ThreePieces(done, MetadataSegments(values)[..i + 1], [[] + Element(X88, values[i])]);
      MetadataStartsElse(0, values[i]);
      status := Replay(wire[fragment.offset..fragment.End()]);
    }

    /** Only after the check: hands the metadata to the card, fragment by fragment. */
    method ReplayMetadata(root: T.Span, ghost values: seq<seq<byte>>) returns (status: Status)
      requires Honest() && g.approved && writer.Valid() && !writer.active && !g.begun
      requires f.metadataWire == Wire(values) && |Wire(values)| <= T.RESPONSE_MAX
      requires root.valueOffset == Offset(values, 0)
      requires Flat(g.done) + Wire(values) <= g.input
      modifies `f, `g, session, writer, writer.pending
      ensures Honest() && g.input == old(g.input) && g.approved == old(g.approved) && g.begun == old(g.begun)
      ensures status != Ok ==> f.state == Failed
      ensures status == Ok ==>
        && writer.Valid() && !writer.active && writer.segment == []
        && f == old(f).(segmentCount := old(f.segmentCount) + 1 + |values|)
        && g == old(g).(done := old(g.done) + MetadataSegments(values))
      ensures Later()
      ensures status != Ok ==>
        session.faulty || session.answers > 0 || old(f.segmentCount) + 1 + |values| > MAX_ELEMENTS
    {
      hide Flat, Transcript, Fitted, Early, Due, Wanted, Given, MetadataSegments, FirstSegments, Cleared,
        SegmentWriter.Valid, SegmentWriter.Traced, Sealed, Wire, Offset, Header, Elements, T.SpanAt;
      ghost var done, input := g.done, g.input;
      var wire := f.metadataWire;
      ReplayStart(done, values, input);
      MetadataStartsElse(BodyBytes(values), []);
      status := Replay(wire[0..root.valueOffset]);
      var position := root.valueOffset;
      ghost var i := 0;
      while status == Ok && position < |wire|
        invariant i <= |values| && position == Offset(values, i) <= |wire|
        invariant Honest() && g.approved && g.input == input && !g.begun
        invariant status != Ok ==> f.state == Failed
        invariant Later()
        invariant status != Ok ==>
          session.faulty || session.answers > 0 || old(f.segmentCount) + 1 + |values| > MAX_ELEMENTS
        invariant status == Ok ==>
          && writer.Valid() && !writer.active && writer.segment == []
          && f == old(f).(segmentCount := old(f.segmentCount) + 1 + i)
          && g == old(g).(done := done + MetadataSegments(values)[..i + 1])
        decreases |wire| - position
      {
        WireOf(values);
        status, position := ReplayFragment(wire, position, done, values, i);
        i := i + 1;
      }
      if status == Ok { ReplayEnd(values, i); }
    }

    /** The metadata is complete: it is checked, and only then handed to the card. */
    method VerifyAndReplayMetadata() returns (status: Status)
      requires Core() && f.state == MetadataChild && f.sequenceRemaining == 0 && f.childCount > 0
      modifies `f, `g, session, writer, writer.pending
      ensures Honest() && g.input == old(g.input)
      ensures status != Ok ==> f.state == Failed
      ensures status == Ok ==>
        && writer.Valid() && !writer.active && writer.segment == []
        && f == old(f).(collectingMetadata := false, metadataWire := [], expectedValid := false,
                        segmentCount := old(f.segmentCount) + 1 + |g.package.metadata|)
        && g == old(g).(done := old(g.done) + MetadataSegments(g.package.metadata), approved := true)
      ensures Later()
      ensures status != Ok ==>
        || session.faulty || session.answers > 0 || old(f.segmentCount) + 1 + |old(g.package.metadata)| > MAX_ELEMENTS
        || !Cleared(old(g.package.metadata)) || !old(f.expectedValid)
        || |Flat(MetadataSegments(old(g.package.metadata)))| > T.RESPONSE_MAX
          || |Plaintext(old(g.package.metadata))| > MAX_OBJECT_BYTES
    {
      hide Agreed, Flat, Transcript, Fitted, Early, Due, Wanted, Given, MetadataSegments, FirstSegments, Cleared,
        SegmentWriter.Valid, SegmentWriter.Traced, Sealed, Offset, Plaintext;
      ghost var values := g.package.metadata;
      MetadataIsWire(f, g, writer.segment, writer.active);
      assert f.metadataWire == Wire(values);
      var root;
      status, root := CheckMetadata(values);
      if status != Ok { return; }
      f := f.(collectingMetadata := false);
      FlatAppend(g.done, MetadataSegments(values));
      g := g.(approved := true);
      status := ReplayMetadata(root, values);
      if status != Ok { return; }
      f := f.(metadataWire := []);
    }

    /** What the metadata must be for the card to get it. */
    ghost predicate MetadataFits(f: Fields, values: seq<seq<byte>>)
      requires forall v | v in values :: |v| > MAC_BYTES
    {
      && Cleared(values) && f.expectedValid && f.segmentCount + 1 + |values| <= MAX_ELEMENTS
      && |Flat(MetadataSegments(values))| <= T.RESPONSE_MAX && |Plaintext(values)| <= MAX_OBJECT_BYTES
    }

    /** The limits on every header, whatever it is. */
    method AdmitHeader(rawSize: nat, length: nat) returns (status: Status)
      modifies `f
      ensures status != Ok ==> f.state == Failed
      ensures status == Ok ==> f == old(f).(elementCount := old(f.elementCount) + 1)
      ensures status == Ok ==> f.elementCount <= MAX_ELEMENTS && f.segmentCount < MAX_ELEMENTS
      ensures status == Ok ==> f.decodedBytes + rawSize + length <= MAX_DECODED_BYTES
      ensures status != Ok ==>
        || rawSize == 0 || old(f.decodedBytes) + rawSize + length > MAX_DECODED_BYTES
        || old(f.elementCount) >= MAX_ELEMENTS || old(f.segmentCount) >= MAX_ELEMENTS
    {
      if rawSize == 0 || rawSize > MAX_DECODED_BYTES || length > MAX_DECODED_BYTES - rawSize {
        status := Reject(InvalidSize);
        return;
      }
      var declaredSize := rawSize + length;
      if f.decodedBytes > MAX_DECODED_BYTES || declaredSize > MAX_DECODED_BYTES - f.decodedBytes {
        status := Reject(InvalidSize);
        return;
      }
      f := f.(elementCount := f.elementCount + 1);
      if f.elementCount > MAX_ELEMENTS {
        status := Reject(InvalidSize);
        return;
      }
      if f.segmentCount >= MAX_ELEMENTS {
        status := Reject(InvalidSize);
        return;
      }
      return Ok;
    }

    method HandleHeader(raw: seq<byte>, tagBytes: nat, length: nat) returns (status: Status)
      requires Ready(raw, tagBytes, length) && OnTrack(0)
      requires f.state !in {InValue, Finished} && (f.state in {MetadataChild, ProfileChild} ==> f.sequenceRemaining > 0)
      modifies `f, `g, session, writer, writer.pending
      ensures Handled(status) && (if status == Ok then OnTrack(0) else Excused(g.input))
      ensures Later()
    {
      hide Agreed, ScanHeader, Flat, Transcript, Fitted, Early, Due, Wanted, Given, Encode, AddsUp, AtHeader,
        MetadataSegments, FirstSegments, Cleared, SegmentWriter.Valid, SegmentWriter.Traced, Sealed, HeaderFields,
        HeaderReading, HeaderSegment, HeaderFits;
      HeaderCounted(f, g, writer.segment, writer.active);
      if !Excused(g.input) {
        NotExcused();
        HeaderFacts(f, g, writer.segment, writer.active);
        MoreToCome(f, g, |writer.segment|, target, 0);
        HeaderAdmitted(f, g, |writer.segment|, target);
      }
      status := AdmitHeader(|raw|, length);
      if status != Ok { return; }
      if !Excused(g.input) {
        HeaderDue(f, g, writer.segment, writer.active, target, tagBytes, length);
        writer.BytesCounted();
      }
      status := HandleAdmitted(raw, tagBytes, length);
    }

    method HandleAdmitted(raw: seq<byte>, tagBytes: nat, length: nat) returns (status: Status)
      requires Ready(raw, tagBytes, length) && f.state !in {InValue, Finished}
      requires f.state == ProfileChild ==> f.sequenceRemaining > 0
      modifies `f, `g, session, writer, writer.pending
      ensures Handled(status) && HeaderStep(status, raw, tagBytes, length)
    {
      hide Agreed, ScanHeader, Flat, Transcript, Fitted, Early, Due, Wanted, Given, MetadataSegments, FirstSegments,
        Cleared, SegmentWriter.Valid, SegmentWriter.Traced, Sealed, HeaderFields, HeaderReading, HeaderSegment,
        HeaderFits;
      if f.state == ProfileChild && f.finalSegmentPending {
        FinalMeansFull(f, g, writer.segment, writer.active);
      }
      match f.state {
        case OuterHeader => status := HandleOuterHeader(raw, tagBytes, length);
        case OuterChild => status := HandleOuterChild(raw, tagBytes, length);
        case FirstSequenceHeader => status := HandleFirstSequenceHeader(raw, tagBytes, length);
        case FirstSequenceChild => status := HandleFirstSequenceChild(raw, tagBytes, length);
        case MetadataSequenceHeader => status := HandleMetadataSequenceHeader(raw, tagBytes, length);
        case MetadataChild => status := HandleMetadataChild(raw, tagBytes, length);
        case SecondSequenceOrProfile => status := HandleSecondSequenceOrProfile(raw, tagBytes, length);
        case SecondSequenceChild => status := HandleSecondSequenceChild(raw, tagBytes, length);
        case ProfileSequenceHeader => status := HandleProfileSequenceHeader(raw, tagBytes, length);
        case ProfileChild => status := HandleProfileChild(raw, tagBytes, length);
      }
    }

    /** A value is complete: its segment is closed, except that metadata and the final segment wait. */
    ghost predicate ValueRead()
      reads this, session, writer, writer.pending
    {
      Core() && f.state == InValue && f.valueRemaining == 0 && g.current != []
    }

    method EndOuterValue() returns (status: Status)
      requires ValueRead() && f.valueKind == OuterValue
      modifies `f, `g, session, writer, writer.pending
      ensures Handled(status)
      ensures ValueStep(status)
    {
      hide Agreed, Flat, Transcript, Fitted, Early, Due, Wanted, Given, MetadataSegments, FirstSegments, Cleared,
        SegmentWriter.Valid, SegmentWriter.Traced, Sealed;
      ValueIsOpen(f, g, writer.segment, writer.active);
      OuterValueRead(f, g, writer.segment);
      status := FinishSegment(false);
      if status != Ok { return; }
      g := g.(package := g.package.(configure := g.current));
      f := f.(state := FirstSequenceHeader);
    }

    method EndFirstValue() returns (status: Status)
      requires ValueRead() && f.valueKind == FirstValue
      modifies `f, `g, session, writer, writer.pending
      ensures Handled(status)
      ensures ValueStep(status)
    {
      hide Agreed, Flat, Transcript, Fitted, Early, Due, Wanted, Given, MetadataSegments, FirstSegments, Cleared,
        SegmentWriter.Valid, SegmentWriter.Traced, Sealed;
      if f.sequenceRemaining != 0 {
        status := Reject(InvalidResponse);
        return;
      }
      ValueIsOpen(f, g, writer.segment, writer.active);
      FirstValueRead(f, g, writer.segment);
      f := f.(sequenceActive := false);
      status := FinishSegment(false);
      if status != Ok { return; }
      g := g.(package := g.package.(first := g.current));
      f := f.(state := MetadataSequenceHeader);
    }

    method EndMetadataValue() returns (status: Status)
      requires ValueRead() && f.valueKind == MetadataValue
      modifies `f, `g
      ensures Handled(status)
      ensures ValueStep(status)
    {
      hide Agreed, Flat, Transcript, Fitted, Early, Due, Wanted, Given, MetadataSegments, FirstSegments, Cleared,
        SegmentWriter.Valid, SegmentWriter.Traced, Sealed;
      ValueIsOpen(f, g, writer.segment, writer.active);
      MetadataValueRead(f, g, writer.segment, writer.active);
      f := f.(childCount := f.childCount + 1);
      g := g.(package := g.package.(metadata := g.package.metadata + [g.current]));
      f := f.(state := MetadataChild);
      return Ok;
    }

    method EndSecondValue() returns (status: Status)
      requires ValueRead() && f.valueKind == SecondValue
      modifies `f, `g, session, writer, writer.pending
      ensures Handled(status)
      ensures ValueStep(status)
    {
      hide Agreed, Flat, Transcript, Fitted, Early, Due, Wanted, Given, MetadataSegments, FirstSegments, Cleared,
        SegmentWriter.Valid, SegmentWriter.Traced, Sealed;
      if f.sequenceRemaining != 0 {
        status := Reject(InvalidResponse);
        return;
      }
      ValueIsOpen(f, g, writer.segment, writer.active);
      SecondValueRead(f, g, writer.segment);
      f := f.(sequenceActive := false);
      status := FinishSegment(false);
      if status != Ok { return; }
      g := g.(package := g.package.(second := Some(g.current)));
      f := f.(state := ProfileSequenceHeader);
    }

    method EndProfileValue() returns (status: Status)
      requires ValueRead() && f.valueKind == ProfileValue
      modifies `f, `g, session, writer, writer.pending
      ensures Handled(status)
      ensures ValueStep(status)
    {
      hide Agreed, Flat, Transcript, Fitted, Early, Due, Wanted, Given, MetadataSegments, FirstSegments, Cleared,
        SegmentWriter.Valid, SegmentWriter.Traced, Sealed;
      if f.sequenceRemaining == 0 && f.outerRemaining == 0 {
        KeepFinalSegment();
        return Ok;
      }
      ValueIsOpen(f, g, writer.segment, writer.active);
      ProfileValueRead(f, g, writer.segment);
      status := FinishSegment(false);
      if status != Ok { return; }
      CountProfileChild();
    }

    /** The last block of the final segment stays here until the whole response has been accepted. */
    method KeepFinalSegment()
      requires ValueRead() && f.valueKind == ProfileValue && f.sequenceRemaining == 0 && f.outerRemaining == 0
      modifies `f, `g
      ensures Handled(Ok)
      ensures ValueStep(Ok)
    {
      hide Agreed, Flat, Transcript, Fitted, Early, Due, Wanted, Given, MetadataSegments, FirstSegments, Cleared,
        SegmentWriter.Valid, SegmentWriter.Traced, Sealed;
      ValueIsOpen(f, g, writer.segment, writer.active);
      FinalValueRead(f, g, writer.segment);
      f := f.(finalSegmentPending := true);
      CountProfileChild();
    }

    method CountProfileChild()
      modifies `f, `g
      ensures f == old(f).(childCount := old(f.childCount) + 1, state := ProfileChild) && g == ProfileGrown(old(g))
    {
      g := ProfileGrown(g);
      f := f.(childCount := f.childCount + 1);
      f := f.(state := ProfileChild);
    }

    method ConsumeValueByte(b: byte) returns (status: Status)
      requires Core() && OnTrack(0) && f.state == InValue && f.valueRemaining > 0
      modifies `f, `g, session, writer, writer.pending
      ensures Honest() && g.input == old(g.input) + [b]
      ensures if status == Ok then Core() && g.inHeader == [] && OnTrack(0)
        && (f.state == InValue ==> f.valueRemaining > 0)
              else f.state == Failed && Excused(g.input)
      ensures Later()
    {
      hide Agreed, Flat, Transcript, Fitted, Early, Due, Wanted, Given, MetadataSegments, FirstSegments, Cleared,
        SegmentWriter.Valid, SegmentWriter.Traced, Sealed;
      status := TakeByteOnTrack(b);
      if status != Ok || f.valueRemaining != 0 { return; }
      status := EndOnTrack();
    }

    method EndOnTrack() returns (status: Status)
      requires ValueRead() && OnTrack(0)
      modifies `f, `g, session, writer, writer.pending
      ensures Handled(status) && (if status == Ok then OnTrack(0) else Excused(g.input))
      ensures Later()
    {
      hide Agreed, Flat, Transcript, Fitted, Early, Due, Wanted, Given, Encode, Gate, Cleared, SegmentWriter.Valid,
        SegmentWriter.Traced, Sealed, EndedFields, EndedReading, EndedSegment, EndFits;
      if !Excused(g.input) { ValueEndDue(f, g, writer.segment, writer.active, target); }
      status := EndValue();
    }

    method EndValue() returns (status: Status)
      requires ValueRead()
      modifies `f, `g, session, writer, writer.pending
      ensures Handled(status) && ValueStep(status)
    {
      hide Agreed, Flat, Transcript, Fitted, Early, Due, Wanted, Given, Encode, Gate, Cleared, SegmentWriter.Valid,
        SegmentWriter.Traced, Sealed, EndedFields, EndedReading, EndedSegment, EndFits;
      match f.valueKind {
        case OuterValue => status := EndOuterValue();
        case FirstValue => status := EndFirstValue();
        case MetadataValue => status := EndMetadataValue();
        case SecondValue => status := EndSecondValue();
        case ProfileValue => status := EndProfileValue();
      }
    }

    /** The next byte of a value, and what it means for the package that must be taken. */
    method TakeByteOnTrack(b: byte) returns (status: Status)
      requires Core() && OnTrack(0) && f.state == InValue && f.valueRemaining > 0
      modifies `f, `g, session, writer, writer.pending
      ensures Honest() && g.input == old(g.input) + [b]
      ensures if status == Ok then Core() && f.state == InValue && g.inHeader == [] && g.current != [] && OnTrack(0)
              else f.state == Failed && Excused(g.input)
      ensures Later()
    {
      hide Agreed, Flat, Transcript, Fitted, Early, Due, Wanted, Given, MetadataSegments, FirstSegments, Cleared,
        SegmentWriter.Valid, SegmentWriter.Traced, Sealed, ByteFits;
      if !Excused(g.input + [b]) {
        if Excused(g.input) { ExcusedMore(g.input, [b]); }
        NotExcused();
        NextByteDue(f, g, writer.segment, writer.active, target, b);
      }
      if !f.collectingMetadata { ValueByteIsEarly(f, g, writer.segment, writer.active, b); }
      status := TakeValueByte(b);
    }

    method TakeValueByte(b: byte) returns (status: Status)
      requires Core() && f.state == InValue && (!f.collectingMetadata ==> MayFollow([b]))
      modifies `f, `g, session, writer, writer.pending
      ensures Honest() && g.input == old(g.input) + [b]
      ensures if status == Ok then Core() && f.state == InValue && g.inHeader == [] && g.current != []
        else f.state == Failed
      ensures Stepped(status, ValueByte(old(f), b), ValueReading(old(g), b), |WithByte(old(f), old(writer.segment), b)|,
        ByteFits(old(f), |old(writer.segment)|) && old(f.valueRemaining) > 0)
    {
      hide Agreed, Flat, Transcript, Fitted, Early, Due, Wanted, Given, MetadataSegments, FirstSegments, Cleared,
        SegmentWriter.Valid, SegmentWriter.Traced, Sealed;
      ghost var f0, g0 := f, g;
      ghost var segment, active := writer.segment, writer.active;
      ValueByteFits(f, g, segment, active, b);
      ValueIsOpen(f, g, segment, active);
      ValueByteGoesOut(f, g, segment, active, b);
      MoreInput(b);
      status := Emit([b]);
      if status != Ok { return; }
      if f.valueRemaining == 0 {
        status := Reject(InvalidResponse);
        return;
      }
      ValueByteRead(f0, g0, segment, active, b);
      f := f.(valueRemaining := f.valueRemaining - 1);
      g := g.(current := g.current + [b]);
    }

    /** One more byte of input, before anything is done with it. */
    ghost method MoreInput(b: byte)
      requires Honest()
      modifies `g
      ensures Honest() && g == InputByte(old(g), b)
    {
      hide Flat, Transcript, Fitted, Early, Due, Wanted, Given, MetadataSegments, FirstSegments, Cleared,
        SegmentWriter.Valid, SegmentWriter.Traced, Sealed;
      assert g.input <= g.input + [b];
      g := InputByte(g, b);
    }

    /** Outside a finished or failed parse, everything is in step. */
    ghost predicate Sound()
      reads this, session, writer, writer.pending, header, header.raw
    {
      Faithful() && (f.state != Failed && f.state != Finished ==> Valid())
    }

    lemma ValidIsSound()
      requires Valid()
      ensures Sound() && Withheld() && f.state !in {Finished, Failed}
    {
      hide Agreed, Flat, Transcript;
      NeverFinished(f, g, writer.segment, writer.active);
    }

    /** When the last metadata fragment has been read, the check comes before anything else. */
    method LeaveMetadata() returns (status: Status)
      requires Valid()
      modifies `f, `g, session, writer, writer.pending
      ensures Honest() && g.input == old(g.input)
      ensures if status == Ok then Valid() && !(f.state == MetadataChild && f.sequenceRemaining == 0)
              else f.state == Failed && Excused(g.input)
      ensures Later()
      ensures old(f.state) != MetadataChild ==>
        status == Ok && f == old(f) && g == old(g) && session.faulty == old(session.faulty)
          && session.answers == old(session.answers)
    {
      hide Agreed, Flat, Transcript, Fitted, Early, Due, Wanted, Given, MetadataSegments, FirstSegments, Cleared,
        SegmentWriter.Valid, SegmentWriter.Traced, Sealed;
      if f.state != MetadataChild || f.sequenceRemaining != 0 { return Ok; }
      if !Excused(g.input) { FullMetadataDue(); }
      if f.childCount == 0 {
        status := Reject(InvalidResponse);
        return;
      }
      status := LeaveFullMetadata();
    }

    /** With the last fragment of the package that is due, the check succeeds. */
    lemma FullMetadataDue()
      requires Valid() && f.state == MetadataChild && f.sequenceRemaining == 0 && !Excused(g.input)
      ensures f.childCount > 0 && (forall v | v in g.package.metadata :: |v| > MAC_BYTES)
      ensures MetadataFits(f, g.package.metadata)
      ensures Due(LeftFields(f, |g.package.metadata|), LeftReading(g), 0, target, 0)
    {
      hide Agreed, Flat, Transcript, Fitted, Early, Due, Given, Encode, MetadataSegments, FirstSegments, Cleared,
        SegmentWriter.Valid, SegmentWriter.Traced, Sealed, ScanHeader, AddsUp, AtHeader, WithinLimits, Complete, Gate,
        Plaintext;
      NotExcused();
      MetadataIsWire(f, g, writer.segment, writer.active);
      HeaderFacts(f, g, writer.segment, writer.active);
      MetadataDue(f, g, |writer.segment|, target);
    }

    method LeaveFullMetadata() returns (status: Status)
      requires Core() && f.state == MetadataChild && f.sequenceRemaining == 0 && f.childCount > 0
      modifies `f, `g, session, writer, writer.pending
      ensures Honest() && g.input == old(g.input)
      ensures if status == Ok then Core() && f.state == SecondSequenceOrProfile else f.state == Failed
      ensures var values := old(g.package.metadata);
        && (forall v | v in values :: |v| > MAC_BYTES)
        && Stepped(status, LeftFields(old(f), |values|), LeftReading(old(g)), 0, MetadataFits(old(f), values))
    {
      hide Agreed, Flat, Transcript, Fitted, Early, Due, Wanted, Given, MetadataSegments, FirstSegments, Cleared,
        SegmentWriter.Valid, SegmentWriter.Traced, Sealed;
      MetadataIsWire(f, g, writer.segment, writer.active);
      MetadataApproved(f, g, writer.segment, writer.active);
      status := VerifyAndReplayMetadata();
      if status != Ok { return; }
      f := f.(sequenceActive := false);
      f := f.(state := SecondSequenceOrProfile);
    }

    method ConsumeHeaderByte(b: byte) returns (status: Status)
      requires Valid() && f.state !in {InValue, Finished}
      requires f.state in {MetadataChild, ProfileChild} ==> f.sequenceRemaining > 0
      modifies `f, `g, session, writer, writer.pending, header, header.raw
      ensures Honest() && g.input == old(g.input) + [b]
      ensures if status == Ok then Valid() else f.state == Failed && Excused(g.input)
      ensures Later()
    {
      hide Agreed, Flat, Transcript, Fitted, Early, Due, Wanted, Given, Encode, MetadataSegments, FirstSegments,
        Cleared, SegmentWriter.Valid, SegmentWriter.Traced, Sealed, ScanHeader, Gate;
      status := TakeHeaderByte(b);
      if status != Ok || !header.complete { return; }
      var raw := header.raw[..header.rawSize];
      status := HandleHeader(raw, header.tagBytes, header.length);
      header.Reset();
    }

    method TakeHeaderByte(b: byte) returns (status: Status)
      requires Valid() && f.state !in {InValue, Finished}
      requires f.state in {MetadataChild, ProfileChild} ==> f.sequenceRemaining > 0
      modifies `f, `g, header, header.raw
      ensures Honest() && g.input == old(g.input) + [b]
      ensures if status == Ok then f == old(f) && Core() && header.Valid() && header.Raw() == g.inHeader && OnTrack(0)
              else f.state == Failed && Excused(g.input)
    {
      hide Agreed, Flat, Transcript, Fitted, Early, Due, Wanted, Given, Encode, MetadataSegments, FirstSegments,
        Cleared, SegmentWriter.Valid, SegmentWriter.Traced, Sealed, ScanHeader, AddsUp, AtHeader;
      HeaderByteRead(f, g, writer.segment, writer.active, b);
      NextIsTaken(b);
      MoreInput(b);
      var taken := header.Consume(b);
      if !taken {
        status := Reject(InvalidResponse);
        return;
      }
      g := g.(inHeader := g.inHeader + [b]);
      return Ok;
    }

    /** No byte of the header that is due is refused. */
    lemma NextIsTaken(b: byte)
      requires Valid() && f.state !in {InValue, Finished}
      requires f.state in {MetadataChild, ProfileChild} ==> f.sequenceRemaining > 0
      ensures !Excused(g.input + [b]) ==>
        && ScanHeader(g.inHeader + [b]) != Bad
        && Due(f, InputByte(g, b).(inHeader := g.inHeader + [b]), |writer.segment|, target, 0)
    {
      hide Agreed, Flat, Transcript, Fitted, Early, Due, Given, Encode, MetadataSegments, FirstSegments, Cleared,
        SegmentWriter.Valid, SegmentWriter.Traced, Sealed, ScanHeader, AddsUp, AtHeader, WithinLimits, Complete, Gate,
        Plaintext;
      if !Excused(g.input + [b]) {
        if Excused(g.input) { ExcusedMore(g.input, [b]); }
        NotExcused();
        DueAnyInput(f, g, |writer.segment|, target, 0, g.input + [b], g.inHeader + [b]);
        HeaderFacts(f, g, writer.segment, writer.active);
        MoreToCome(f, g, |writer.segment|, target, 0);
        ByteTaken(f, g, |writer.segment|, target, b);
      }
    }

    /** One byte of the stream. */
    method FeedByte(b: byte) returns (status: Status)
      requires Valid()
      modifies `f, `g, session, writer, writer.pending, header, header.raw
      ensures Honest() && (g.input == old(g.input) || g.input == old(g.input) + [b])
      ensures if status == Ok then Valid() && g.input == old(g.input) + [b]
        else f.state == Failed && Excused(old(g.input) + [b])
      ensures Later()
    {
      hide Agreed, Flat, Transcript, Fitted, Early, Due, Wanted, Given, MetadataSegments, FirstSegments, Cleared,
        SegmentWriter.Valid, SegmentWriter.Traced, Sealed, ScanHeader;
      if Excused(g.input) { ExcusedMore(g.input, [b]); }
      status := LeaveMetadata();
      if status != Ok {
        ExcusedMore(g.input, [b]);
        return;
      }
      // Nothing may follow the last child: every way on from here is a rejection.
      if f.state == ProfileChild && f.sequenceRemaining == 0 {
        if !Excused(g.input) {
          HeaderFacts(f, g, writer.segment, writer.active);
          NothingMoreDue(f, g, |writer.segment|, target, b);
        } else {
          ExcusedMore(g.input, [b]);
        }
        status := Reject(InvalidResponse);
        return;
      }
      assert f.state != Finished by { NeverFinished(f, g, writer.segment, writer.active); }
      if f.state == InValue {
        ValueIsOpen(f, g, writer.segment, writer.active);
        status := ConsumeValueByte(b);
      } else {
        status := ConsumeHeaderByte(b);
      }
    }

    /** A piece of the stream, of any size. */
    method Feed(data: seq<byte>) returns (status: Status)
      requires Sound()
      modifies `f, `g, session, writer, writer.pending, header, header.raw
      ensures Sound() && (old(Withheld()) ==> Withheld())
      ensures old(g.input) <= g.input <= old(g.input) + data
      ensures status == Ok ==> g.input == old(g.input) + data && f.state !in {Finished, Failed}
      ensures status != Ok ==> f.state == Failed && (old(f.state) in {Finished, Failed} || Excused(old(g.input) + data))
      ensures old(f.state) in {Finished, Failed} ==>
        status == InvalidState && g == old(g) && session.log == old(session.log)
      ensures Later()
    {
      hide Gate, Encode, Agreed, Flat, Transcript, Fitted, Early, Due, Wanted, Given, MetadataSegments, FirstSegments,
        Cleared, SegmentWriter.Valid, SegmentWriter.Traced, Sealed, ScanHeader;
      if f.state == Failed || f.state == Finished {
        status := Reject(InvalidState);
        return;
      }
      var i := 0;
      while i < |data|
        invariant 0 <= i <= |data| && Valid() && g.input == old(g.input) + data[..i]
        invariant f.state !in {Finished, Failed} && Later()
      {
        assert data[..i + 1] == data[..i] + [data[i]];
        status := FeedByte(data[i]);
        if status != Ok {
          assert old(g.input) + data == old(g.input) + data[..i] + [data[i]] + data[i + 1..];
          ExcusedMore(old(g.input) + data[..i] + [data[i]], data[i + 1..]);
          return;
        }
        assert f.state != Finished by { NeverFinished(f, g, writer.segment, writer.active); }
        i := i + 1;
      }
      assert data[..|data|] == data;
      return Ok;
    }

    /** At the end: a card call has failed, not exactly one block has been answered, or the input is something else. */
    ghost predicate Refusable()
      reads this, session
    {
      session.faulty || session.answers != 1 || !Wanted() || g.input != Encode(target)
    }

    /**
     * The end of the stream. Only here is the last block handed to the card, and success
     * means that the card has been handed exactly the segments of the package read, and that
     * its answer to that block, the only one that it gave, is the result.
     */
    method Finish() returns (status: Status, result: seq<byte>)
      requires Sound()
      modifies `f, `g, session, writer, writer.pending
      ensures Sound() && g.input == old(g.input) && f.state in {Finished, Failed}
      ensures status != Ok ==>
        f.state == Failed && (old(f.state) in {Finished, Failed} || old(session.answers) > 0 || Refusable())
      ensures status == Ok ==>
        && result != [] && f.state == Finished
        && Complete(g.package) && Cleared(g.package.metadata)
        && g.input == Encode(g.package) && session.log == Transcript(Segments(g.package))
        && InBlocks(Segments(g.package)) && session.Answered(result)
      ensures Later()
    {
      hide Cleared, FirstSegments, OnCard, Faithful, Withheld, OnTrack, InBlocks, Whole, Gate, Agreed, Flat, Transcript,
        Fitted, Due, Wanted, Given, MetadataSegments, SegmentWriter.Valid, SegmentWriter.Traced, Sealed, ScanHeader,
        Plaintext, Encode, Segments, Complete, CardSession.Answered;
      result := [];
      if f.state == Failed || f.state == Finished {
        status := Reject(InvalidResponse);
        return;
      }
      if session.answers == 0 && !session.faulty && Wanted() && g.input == Encode(target) { AllDue(); }
      status := LeaveMetadata();
      if status != Ok { return; }
      if f.state != ProfileChild || f.sequenceRemaining != 0 {
        status := Reject(InvalidResponse);
        return;
      }
      status, result := FinishPackage();
    }

    lemma ApprovedIsCleared()
      requires Faithful() && g.approved
      ensures Cleared(g.package.metadata) && g.package.metadata != []
      ensures forall v | v in g.package.metadata :: |v| > MAC_BYTES
    {
    }

    /** The package that is due is all there: only the last block is missing. */
    lemma AllDue()
      requires Valid() && f.state !in {Finished, Failed}
      requires session.answers == 0 && !session.faulty && Wanted() && g.input == Encode(target)
      ensures f.state == ProfileChild && f.sequenceRemaining == 0 && Whole(f, g)
    {
      hide Agreed, Flat, Transcript, Fitted, Early, Due, Given, Encode, MetadataSegments, FirstSegments, Cleared,
        SegmentWriter.Valid, SegmentWriter.Traced, Sealed, ScanHeader, AddsUp, AtHeader, WithinLimits, Complete, Gate,
        Plaintext;
      NotExcused();
      WholeDue(f, g, writer.segment, writer.active, target);
    }

    /** `Finish`, once the last sequence of the package is full. */
    method FinishPackage() returns (status: Status, result: seq<byte>)
      requires Valid() && f.state == ProfileChild && f.sequenceRemaining == 0
      modifies `f, `g, session, writer, writer.pending
      ensures Faithful() && g.input == old(g.input)
      ensures status != Ok ==>
        f.state == Failed && (session.faulty || session.answers != old(session.answers) + 1 || !Whole(old(f), old(g)))
      ensures Later()
      ensures status == Ok ==>
        && result != [] && f.state == Finished
        && Complete(g.package) && Cleared(g.package.metadata)
        && g.input == Encode(g.package) && session.log == Transcript(Segments(g.package))
        && InBlocks(Segments(g.package)) && session.Answered(result)
    {
      hide InBlocks, Cleared, FirstSegments, Gate, Agreed, Flat, Transcript, Fitted, Early, Due, Wanted, Given,
        MetadataSegments, SegmentWriter.Valid, SegmentWriter.Traced, Sealed, ScanHeader, Plaintext, Encode, Segments,
        Complete;
      result := [];
      if f.childCount == 0 || f.outerRemaining != 0 {
        status := Reject(InvalidResponse);
        return;
      }
      ProfileIsApproved(f, g, writer.segment, writer.active);
      var empty := header.IsEmpty();
      ApprovedIsCleared();
      if empty { PackageRead(f, g, writer.segment, writer.active); }
      status := CloseFinalSegment();
      if status != Ok { return; }
      f := f.(state := Finished);
      if !empty || f.installationResult == [] {
        status := Reject(InvalidResponse);
        return;
      }
      BlocksWellFormed(g.done);
      result := f.installationResult;
      f := f.(installationResult := []);
    }

    /** The last block of the final segment, if that segment is still open. */
    method CloseFinalSegment() returns (status: Status)
      requires Core() && f.state == ProfileChild
      modifies `f, `g, session, writer, writer.pending
      ensures Faithful() && g.input == old(g.input)
      ensures status != Ok ==>
        f.state == Failed && (session.faulty || old(f.segmentCount) >= MAX_ELEMENTS || old(f.installationResult) != [])
      ensures Later()
      ensures status == Ok && old(f.installationResult) == [] && old(f.finalSegmentPending) ==>
        session.answers == old(session.answers) + if f.installationResult != [] then 1 else 0
      ensures status == Ok ==>
        && !writer.active && f.state == ProfileChild && g.approved && session.log == writer.before
        && (f.installationResult != [] ==> session.Answered(f.installationResult))
        && g == old(g).(done := if old(f.finalSegmentPending) then old(g.done) + [old(writer.segment)] else old(g.done))
    {
      hide Agreed, Flat, Transcript, Fitted, Early, Due, Wanted, Given, MetadataSegments, FirstSegments, Cleared,
        SegmentWriter.Valid, SegmentWriter.Traced, Sealed, ScanHeader;
      ProfileIsApproved(f, g, writer.segment, writer.active);
      FinalIsOpen(f, g, writer.segment, writer.active);
      f := f.(sequenceActive := false);
      if f.finalSegmentPending {
        status := FinishSegment(true);
        if status != Ok { return; }
        f := f.(finalSegmentPending := false);
      } else {
        writer.NothingOpen();
      }
      return Ok;
    }
  }
}
