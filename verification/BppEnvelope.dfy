/**
 * The response that carries a Bound Profile Package: a JSON document, read as it comes
 * in, whose one package is decoded and handed to the card while it is being read.
 */
module BppEnvelope {
  import opened Bytes
  import opened BppCard
  import opened BppDocument
  import opened BppGate
  import opened BppFollow
  import opened BppSpelling
  import opened BppStrings
  import B = Base64
  import P = BppPackage
  import R = BppReading
  import opened BppStream
  import opened BppDecoder

  class Envelope {
    const der: DerStreamParser
    const decoder: Base64Decoder
    const expected: Option<seq<byte>>
    const hash: string -> nat
    var e: Fields
    var mode: StringMode
    var buffer: string
    var failed: bool
    var complete: bool

    /** The document as it has been read, and what there is of a string that has not ended. */
    ghost var d: Reading
    ghost var partial: string

    /** Any document: the reader does not refuse it if it is an envelope that it must take. */
    ghost const target: Json

    ghost function Parts(): set<object> { {this, decoder, decoder.quartet} + der.Parts() }

    ghost predicate Shape() {
      && decoder.parser == der && this !in der.Parts()
    }

    /** All that has been read. */
    ghost function Input(): seq<Item>
      reads `mode, `partial, `d
    {
      Spelled(d.tokens) + (if mode == NoString then [] else [Quote] + Chars(partial))
    }

    /** What has been decoded is the text of the package member, as far as there is one. */
    ghost predicate TextDecoded()
      reads this, decoder, der
    {
      if e.bppSeen then d.text == decoder.text == B.Encode(der.g.input) && der.g.input != []
      else decoder.text == if mode == PackageString then partial else []
    }

    /** A good envelope within the limits, around the package that the parser below must take. */
    ghost predicate Wanted() { MustTake(target, expected, decoder.Due(), hash) }

    /** The reader is not obliged to take this input. */
    ghost predicate Excused(items: seq<Item>)
      reads der.session
    {
      der.session.faulty || der.session.answers > 0 || !der.Wanted() || !Wanted() || !(items <= Spelled(Tokens(target)))
    }

    lemma ExcusedMore(items: seq<Item>, more: seq<Item>)
      requires Excused(items)
      ensures Excused(items + more)
    {
      hide Wanted, DerStreamParser.Wanted, Tokens, Spelled;
      assert items <= items + more;
    }

    ghost predicate OnTrack()
      reads this, der, der.session
    {
      Excused(Input()) || Follows(DocOf(e, d), target)
    }

    ghost predicate Running()
      reads this, decoder, decoder.quartet, der, der.Parts()
    {
      && !failed && !complete && Shape() && decoder.Valid() && der.Withheld()
      && InStep(e, d, expected, hash) && StringAgrees(mode, buffer, partial, e) && TextDecoded()
    }

    /** The whole document has been read, and it is good. */
    ghost predicate Accepted()
      reads this, der
    {
      && d.root.Some? && GoodEnvelope(d.root.value, expected, d.text) && Input() == Spelled(Tokens(d.root.value))
      && d.text == B.Encode(der.g.input)
    }

    ghost predicate Valid()
      reads this, decoder, decoder.quartet, der, der.Parts()
    {
      der.Sound() && Shape() && (!failed && !complete ==> Running() && OnTrack()) && (der.Withheld() || Accepted())
    }

    /** At any time: a card that has been handed the whole of a package has it from a good envelope. */
    lemma WholeMeansAccepted(p: P.Package)
      requires Valid() && P.Complete(p) && |P.Encode(p)| < 0x1_0000_0000
      requires der.session.log == Transcript(P.Segments(p))
      ensures Accepted()
    {
      hide P.Encode, P.Segments, P.Complete, Transcript, GoodEnvelope, Tokens, B.Encode, Running,
        DerStreamParser.Withheld;
      if der.Withheld() { der.NotWhole(p); }
    }

    constructor (der: DerStreamParser, transactionId: string, validMetadata: bool, hash: string -> nat,
      ghost target: Json)
      requires der.Valid() && der.g.input == []
      ensures Valid() && this.der == der && e == START_FIELDS && d == START_READING && Input() == [] && !failed
      ensures !complete
      ensures expected == if validMetadata then Transaction(transactionId) else None
      ensures fresh(decoder) && fresh(decoder.quartet) && this.target == target && this.hash == hash && OnTrack()
    {
      hide InStep, Transaction, B.Encode, DerStreamParser.Sound, DerStreamParser.Withheld, DerStreamParser.Valid,
        Base64Decoder.Decoding;
      der.ValidIsSound();
      var id := DecodeTransaction(transactionId);
      this.der := der;
      decoder := new Base64Decoder(der);
      expected := if validMetadata then id else None;
      this.hash, this.target := hash, target;
      e, d := START_FIELDS, START_READING;
      mode, buffer, partial := NoString, "", "";
      failed, complete := false, false;
      new;
      NothingRead(expected, hash);
    }

    /** At any time: all that the card has of the metadata has been approved. */
    lemma OnlyApproved()
      requires Valid()
      ensures Payload(der.session.log) <= der.g.input
      ensures der.MetadataWasApproved(der.g.input) || R.Early(Payload(der.session.log))
    {
      hide Running, OnTrack, Accepted, DerStreamParser.Withheld, DerStreamParser.Valid, R.Early, Payload;
      der.CardIsBehind();
    }

    // ----- keys -----

    /** The end of a key: it is taken exactly if it fits, and too many keys count before any other reason. */
    method AddKey(key: string) returns (status: Status)
      requires InStep(e, d, expected, hash) && KeyMayStart(e) && Ascii(key)
      modifies `e, `d
      ensures status == Ok <==> KeyFits(old(e), key, hash)
      ensures status == InvalidSize <==>
        |key| > MAX_KEY_BYTES || |old(e).frames[|old(e).frames| - 1].keys| >= MAX_MEMBERS
      ensures status in {Ok, InvalidSize, InvalidResponse}
      ensures status == Ok ==>
        && InStep(e, d, expected, hash) && d.tokens == old(d.tokens) + [Str(key)] && d.text == old(d.text)
        && e.bppSeen == old(e.bppSeen) && DocOf(e, d) == Named(old(DocOf(e, d)), key)
    {
      hide InStep, HeaderName, TransactionName;
      var frame := e.frames[|e.frames| - 1];
      if |frame.keys| >= MAX_MEMBERS || |key| > MAX_KEY_BYTES { return InvalidSize; }
      if |e.frames| == 1 && e.bppSeen {
        if key != HeaderName() && key != TransactionName() { return InvalidResponse; }
      }
      var record := KeyRecord(hash(key), |key|);
      var i := 0;
      while i < |frame.keys|
        invariant 0 <= i <= |frame.keys| && record !in frame.keys[..i]
      {
        if frame.keys[i] == record { return InvalidResponse; }
        i := i + 1;
      }
      MemberKeyRead(e, d, key, expected, hash);
      OpenToo(e, d, expected, hash);
      e := WithKey(e, key, record);
      d := KeySeen(d, key);
      return Ok;
    }

    // ----- values -----

    method NoteStart(rootHeader: bool, statusObject: bool)
      modifies `e
      ensures e == Noted(old(e), rootHeader, statusObject)
    {
      if rootHeader {
        e := e.(headerDepth := |e.frames|, functionStatusSeen := false, statusValueSeen := false);
      } else if statusObject {
        e := e.(statusDepth := |e.frames|, statusValueSeen := false);
      }
    }

    /** An object or an array starts as the next value. */
    method OpenContainer(isObject: bool, rootHeader: bool, statusObject: bool) returns (status: Status)
      requires InStep(e, d, expected, hash) && e.frames != [] && AwaitsValue(TopState(e.frames))
      requires rootHeader == RootMemberIs(e.frames, HeaderName())
      requires statusObject == HeaderMemberIs(e.frames, FunctionStatusName())
      requires rootHeader || statusObject ==> isObject
      requires !RootMemberIs(e.frames, TransactionName()) && !RootMemberIs(e.frames, PackageName())
      requires !StatusMemberIs(e.frames, StatusName())
      modifies `e, `d
      ensures status == Ok ==>
        && InStep(e, d, expected, hash) && d.text == old(d.text) && e.bppSeen == old(e.bppSeen)
        && d.tokens == old(d.tokens) + [if isObject then BeginObject else BeginArray]
      ensures status == Ok ==>
        DocOf(e, d) == BppFollow.Opened(old(DocOf(e, d)), if isObject then InObject([], "") else InArray([]))
      ensures status != Ok ==> |old(e).frames| >= MAX_DEPTH
    {
      hide InStep, RootMemberIs, HeaderMemberIs, StatusMemberIs, HeaderName, TransactionName, PackageName,
        FunctionStatusName, StatusName, Noted, Marked, DocOf, BppFollow.Opened, AwaitsValue;
      if |e.frames| >= MAX_DEPTH { return InvalidSize; }
      ghost var e0, d0 := e, d;
      var next := if e.frames[|e.frames| - 1].isObject then ObjectAfterValue else ArrayAfterValue;
      e := Marked(e, next);
      e := e.(frames := e.frames + [if isObject then NEW_OBJECT else NEW_ARRAY]);
      NoteStart(rootHeader, statusObject);
      d := ContainerTaken(e0, d0, isObject, next, rootHeader, statusObject, e, expected, hash);
      return Ok;
    }

    /** A string as the next value, other than the package. */
    method TakeString(ghost s: string) returns (status: Status)
      requires InStep(e, d, expected, hash) && e.frames != [] && AwaitsValue(TopState(e.frames))
      requires mode == ModeHere(e) && mode !in {KeyString, PackageString} && (Buffered(mode) ==> buffer == s)
      requires !RootMemberIs(e.frames, HeaderName()) && !HeaderMemberIs(e.frames, FunctionStatusName())
      modifies `e, `d
      ensures status == Ok ==>
        && InStep(e, d, expected, hash) && d.text == old(d.text) && e.bppSeen == old(e.bppSeen)
        && d.tokens == old(d.tokens) + [Str(s)]
      ensures status == Ok ==> DocOf(e, d) == Valued(old(DocOf(e, d)), Text(s))
      ensures status != Ok ==>
        || (mode == StatusString && s != Success())
        || (mode == TransactionString && !(expected.Some? && Transaction(s) == expected))
    {
      hide InStep, RootMemberIs, HeaderMemberIs, StatusMemberIs, HeaderName, TransactionName, PackageName,
        FunctionStatusName, StatusName, Success, Transaction, SetTop, DocOf, Valued;
      ghost var e0, d0 := e, d;
      OneName(e);
      var next := if e.frames[|e.frames| - 1].isObject then ObjectAfterValue else ArrayAfterValue;
      if mode == StatusString {
        if buffer != Success() { return InvalidResponse; }
        e := e.(statusValueSeen := true);
      } else if mode == TransactionString {
        var actual := DecodeTransaction(buffer);
        if actual.None? || expected.None? || actual != expected { return InvalidResponse; }
        e := e.(transactionSeen := true);
      }
      e := Marked(e, next);
      d := ScalarTaken(e0, d0, Text(s), Str(s), next, e, expected, hash);
      return Ok;
    }

    method TakePrimitive() returns (status: Status)
      requires InStep(e, d, expected, hash) && e.frames != [] && AwaitsValue(TopState(e.frames))
      requires !RootMemberIs(e.frames, PackageName()) && !RootMemberIs(e.frames, HeaderName())
      requires !RootMemberIs(e.frames, TransactionName())
      requires !HeaderMemberIs(e.frames, FunctionStatusName()) && !StatusMemberIs(e.frames, StatusName())
      modifies `e, `d
      ensures status == Ok ==>
        && InStep(e, d, expected, hash) && d.text == old(d.text) && e.bppSeen == old(e.bppSeen)
        && d.tokens == old(d.tokens) + [Primitive]
      ensures status == Ok && DocOf(e, d) == Valued(old(DocOf(e, d)), Other)
    {
      hide InStep, RootMemberIs, HeaderMemberIs, StatusMemberIs, HeaderName, TransactionName, PackageName,
        FunctionStatusName, StatusName, Success, SetTop, DocOf, Valued;
      ghost var e0, d0 := e, d;
      var next := if e.frames[|e.frames| - 1].isObject then ObjectAfterValue else ArrayAfterValue;
      e := Marked(e, next);
      d := ScalarTaken(e0, d0, Other, Primitive, next, e, expected, hash);
      return Ok;
    }

    /** The end of the status object, or of the header, is refused unless it said what it must. */
    method NoteEnd(depth: nat) returns (status: Status)
      requires depth == |e.frames|
      modifies `e
      ensures status == Ok ==>
        && (old(e.statusDepth) == depth ==> old(e.statusValueSeen))
        && (old(e.headerDepth) == depth ==> e.functionStatusSeen)
        && e == old(e).(
          statusDepth := if old(e.statusDepth) == depth then 0 else old(e.statusDepth),
          headerDepth := if old(e.headerDepth) == depth then 0 else old(e.headerDepth),
          functionStatusSeen := old(e.functionStatusSeen) || old(e.statusDepth) == depth,
          statusSeen := old(e.statusSeen) || old(e.headerDepth) == depth)
      ensures status != Ok ==> !EndFits(old(e))
    {
      if e.statusDepth == depth {
        if !e.statusValueSeen { return InvalidResponse; }
        e := e.(statusDepth := 0, functionStatusSeen := true);
      }
      if e.headerDepth == depth {
        if !e.functionStatusSeen || !e.statusValueSeen { return InvalidResponse; }
        e := e.(headerDepth := 0, statusSeen := true);
      }
      return Ok;
    }

    /** An object or an array ends. */
    method CloseContainer(isObject: bool) returns (status: Status)
      requires InStep(e, d, expected, hash) && e.frames != []
      modifies `e, `d
      ensures status == Ok ==>
        && InStep(e, d, expected, hash) && d.text == old(d.text) && e.bppSeen == old(e.bppSeen)
        && d.tokens == old(d.tokens) + [if isObject then EndObject else EndArray]
      ensures status == Ok ==> DocOf(e, d) == BppFollow.Closed(old(DocOf(e, d)))
      ensures status != Ok ==>
        !EndFits(old(e)) || isObject != Top(old(d).open).InObject? || !MayEnd(TopState(old(e).frames))
    {
      hide InStep, Tokens, SetTop, Fill, Whole, EndFits;
      OpenToo(e, d, expected, hash);
      TopKind(e, d, expected, hash);
      var frame := e.frames[|e.frames| - 1];
      if frame.isObject {
        if !isObject || (frame.state != ObjectKeyOrEnd && frame.state != ObjectAfterValue) { return InvalidResponse; }
      } else if isObject || (frame.state != ArrayValueOrEnd && frame.state != ArrayAfterValue) {
        return InvalidResponse;
      }
      status := PopFrame();
    }

    method PopFrame() returns (status: Status)
      requires InStep(e, d, expected, hash) && e.frames != [] && MayEnd(TopState(e.frames)) && d.open != []
      modifies `e, `d
      ensures status == Ok ==>
        && InStep(e, d, expected, hash) && d.text == old(d.text) && e.bppSeen == old(e.bppSeen)
        && d.tokens == old(d.tokens) + [EndToken(Top(old(d).open))]
      ensures status == Ok ==> DocOf(e, d) == BppFollow.Closed(old(DocOf(e, d)))
      ensures status != Ok ==> !EndFits(old(e))
    {
      hide InStep, Tokens, SetTop, Fill, Whole, EndFits;
      ghost var e0, d0 := e, d;
      OpenToo(e, d, expected, hash);
      TopKind(e, d, expected, hash);
      if |e.frames| >= 2 { StateBelow(e, d, expected, hash); }
      status := NoteEnd(|e.frames|);
      if status != Ok { return; }
      e := Popped(e);
      ghost var t := EndToken(Top(d0.open));
      if e.frames == [] {
        DocumentEnded(e0, d0, expected, hash);
        e := e.(rootDone := true);
        d := Seen(d0, t).(open := [], root := Some(Whole(Top(d0.open))));
      } else {
        ContainerEnded(e0, d0, e, expected, hash);
        d := Seen(d0, t).(open := Fill(d0.open, |d0.open| - 2, Whole(Top(d0.open))));
      }
      return Ok;
    }

    /** The end of the package: the only value that reaches the card. */
    method TakePackage(ghost s: string) returns (status: Status)
      requires Running() && mode == PackageString && s == partial
      modifies `e, `d
      ensures status == Ok ==>
        && InStep(e, d, expected, hash) && d.tokens == old(d.tokens) + [Str(s)]
        && e.bppSeen && d.text == s == B.Encode(der.g.input) && der.g.input != []
      ensures status == Ok ==> DocOf(e, d) == Valued(old(DocOf(e, d)), Text(s))
      ensures status != Ok ==> s != decoder.Due()
    {
      hide InStep, RootMemberIs, HeaderMemberIs, StatusMemberIs, HeaderName, TransactionName, PackageName,
        FunctionStatusName, StatusName, Success, DerStreamParser.Sound, DerStreamParser.Withheld, B.Encode, SetTop,
        DocOf, Valued, P.Encode, Base64Decoder.Decoding;
      OneName(e);
      OnePackage(e, d, expected, hash);
      decoder.DueIsText();
      assert s == decoder.Due() ==> decoder.text == B.Encode(P.Encode(decoder.parser.target));
      status := decoder.Finish();
      if status != Ok { return; }
      ghost var e0, d0 := e, d;
      InRoot(e, d, expected, hash);
      e := Marked(e.(bppSeen := true), ObjectAfterValue);
      d := ScalarTaken(e0, d0, Text(s), Str(s), ObjectAfterValue, e, expected, hash);
    }

    // ----- strings -----

    /** A quote where no string is in progress. */
    method StartString() returns (status: Status)
      requires Running() && mode == NoString
      modifies `mode, `buffer, `partial
      ensures status == Ok ==> Running() && mode != NoString && partial == ""
      ensures status != Ok ==> !StringMayStart(e)
    {
      hide InStep, RootMemberIs, HeaderMemberIs, StatusMemberIs, HeaderName, TransactionName, PackageName,
        FunctionStatusName, StatusName, DerStreamParser.Sound, DerStreamParser.Withheld, B.Encode, Base64Decoder.Valid;
      if e.frames == [] { return InvalidResponse; }
      var state := TopState(e.frames);
      if state in {ObjectKeyOrEnd, ObjectNeedKey} {
        mode := KeyString;
      } else if !AwaitsValue(state) || RootMemberIs(e.frames, HeaderName())
        || HeaderMemberIs(e.frames, FunctionStatusName()) {
        return InvalidResponse;
      } else if RootMemberIs(e.frames, TransactionName()) {
        mode := TransactionString;
      } else if StatusMemberIs(e.frames, StatusName()) {
        mode := StatusString;
      } else if RootMemberIs(e.frames, PackageName()) {
        OnePackage(e, d, expected, hash);
        mode := PackageString;
      } else {
        mode := UnknownString;
      }
      buffer, partial := "", "";
      return Ok;
    }

    /** One more character of a string: those of the package are decoded and handed on at once. */
    method AppendChar(c: char) returns (status: Status)
      requires Running() && mode != NoString
      modifies `buffer, `partial, decoder, decoder.quartet, der, der.Parts()
      ensures der.Sound() && Shape() && der.Withheld() && der.Later()
      ensures status == Ok ==> Running() && partial == old(partial) + [c]
      ensures status != Ok ==>
        || !CharFits(mode, old(partial), c)
        || (mode == PackageString && decoder.Excused(old(partial) + [c]))
    {
      hide InStep, RootMemberIs, HeaderMemberIs, StatusMemberIs, HeaderName, TransactionName, PackageName,
        FunctionStatusName, StatusName, DerStreamParser.Sound, DerStreamParser.Withheld, B.Encode, Base64Decoder.Valid,
        Base64Decoder.Excused, B.NoEncoding;
      decoder.Running();
      if mode == PackageString {
        OnePackage(e, d, expected, hash);
        status := decoder.Feed(c);
        if status != Ok { return; }
      } else if mode != UnknownString {
        if c >= 128 as char || |buffer| >= MAX_KEY_BYTES { return InvalidResponse; }
        buffer := buffer + [c];
      }
      partial := partial + [c];
      return Ok;
    }

    /** The quote at the end of a string. */
    method EndString() returns (status: Status)
      requires Running() && mode != NoString
      modifies `e, `d, `mode, `buffer, `partial
      ensures status == Ok ==> Running() && mode == NoString && d.tokens == old(d.tokens) + [Str(old(partial))]
      ensures status == Ok ==> DocOf(e, d) == DocStep(old(DocOf(e, d)), Str(old(partial)))
      ensures status != Ok ==>
        || !TokenFits(old(e), Str(old(partial)), expected, hash)
        || (old(mode) == PackageString && old(partial) != decoder.Due())
    {
      hide InStep, RootMemberIs, HeaderMemberIs, StatusMemberIs, HeaderName, TransactionName, PackageName,
        FunctionStatusName, StatusName, DerStreamParser.Sound, DerStreamParser.Withheld, B.Encode, Base64Decoder.Valid,
        Success, Transaction, KeyFits, Named, Valued;
      OpenToo(e, d, expected, hash);
      if mode == KeyString {
        status := AddKey(buffer);
      } else if mode == PackageString {
        status := TakePackage(partial);
      } else {
        status := TakeString(partial);
      }
      if status != Ok { return; }
      mode, buffer, partial := NoString, "", "";
    }

    // ----- everything else -----

    method StartValue(t: PlainToken) returns (status: Status)
      requires Running() && mode == NoString && e.frames != [] && AwaitsValue(TopState(e.frames))
      modifies `e, `d
      ensures status == Ok ==> Running() && d.tokens == old(d.tokens) + [t]
      ensures status == Ok ==> DocOf(e, d) == ValueStep(old(DocOf(e, d)), t)
      ensures status != Ok ==> !ValueFits(old(e), t, expected)
    {
      hide InStep, RootMemberIs, HeaderMemberIs, StatusMemberIs, HeaderName, TransactionName, PackageName,
        FunctionStatusName, StatusName, DerStreamParser.Sound, DerStreamParser.Withheld, B.Encode, Base64Decoder.Valid;
      var rootHeader := RootMemberIs(e.frames, HeaderName());
      var rootTransaction := RootMemberIs(e.frames, TransactionName());
      var rootBpp := RootMemberIs(e.frames, PackageName());
      var statusObject := HeaderMemberIs(e.frames, FunctionStatusName());
      var statusValue := StatusMemberIs(e.frames, StatusName());
      if (rootHeader || statusObject) && t != BeginObject { return InvalidResponse; }
      if rootTransaction || statusValue || rootBpp { return InvalidResponse; }
      if t == BeginObject || t == BeginArray {
        status := OpenContainer(t == BeginObject, rootHeader, statusObject);
      } else if t == Primitive {
        status := TakePrimitive();
      } else {
        return InvalidResponse;
      }
    }

    method Consume(t: PlainToken) returns (status: Status)
      requires Running() && mode == NoString
      modifies `e, `d
      ensures status == Ok ==> Running() && d.tokens == old(d.tokens) + [t]
      ensures status == Ok ==> DocOf(e, d) == DocStep(old(DocOf(e, d)), t)
      ensures status != Ok ==> !TokenFits(old(e), t, expected, hash)
    {
      hide InStep, DerStreamParser.Sound, DerStreamParser.Withheld, B.Encode, Base64Decoder.Valid, RootMemberIs;
      OpenToo(e, d, expected, hash);
      if e.frames == [] {
        if e.rootDone || t != BeginObject { return InvalidResponse; }
        RootOpened(e, d, expected, hash);
        e := e.(frames := [NEW_OBJECT]);
        d := Seen(d, BeginObject).(open := [InObject([], "")]);
        return Ok;
      }
      if TopState(e.frames) in {ArrayValueOrEnd, ArrayValue, ArrayAfterValue} {
        status := ConsumeInArray(t);
      } else {
        status := ConsumeInObject(t);
      }
    }

    method ConsumeKey(t: PlainToken) returns (status: Status)
      requires Running() && mode == NoString && e.frames != []
      requires TopState(e.frames) in {ObjectKeyOrEnd, ObjectNeedKey}
      modifies `e, `d
      ensures status == Ok ==> Running() && d.tokens == old(d.tokens) + [t]
      ensures status == Ok ==> DocOf(e, d) == DocStep(old(DocOf(e, d)), t)
      ensures status != Ok ==> !TokenFits(old(e), t, expected, hash)
    {
      hide Named, BppFollow.Closed, ValueStep, EndFits, KeyFits, ValueFits, MustTake, Follows, InStep,
        DerStreamParser.Sound, DerStreamParser.Withheld, B.Encode, Base64Decoder.Valid, RootMemberIs;
      TopKind(e, d, expected, hash);
      OpenToo(e, d, expected, hash);
      if t == EndObject && TopState(e.frames) == ObjectKeyOrEnd {
        status := CloseContainer(true);
      } else {
        status := InvalidResponse;
      }
    }

    method ConsumeInObject(t: PlainToken) returns (status: Status)
      requires Running() && mode == NoString && e.frames != []
      requires TopState(e.frames) !in {ArrayValueOrEnd, ArrayValue, ArrayAfterValue}
      modifies `e, `d
      ensures status == Ok ==> Running() && d.tokens == old(d.tokens) + [t]
      ensures status == Ok ==> DocOf(e, d) == DocStep(old(DocOf(e, d)), t)
      ensures status != Ok ==> !TokenFits(old(e), t, expected, hash)
    {
      hide Named, BppFollow.Closed, ValueStep, EndFits, KeyFits, ValueFits, MustTake, Follows, InStep,
        DerStreamParser.Sound, DerStreamParser.Withheld, B.Encode, Base64Decoder.Valid, RootMemberIs;
      TopKind(e, d, expected, hash);
      OpenToo(e, d, expected, hash);
      match TopState(e.frames) {
        case ObjectKeyOrEnd => status := ConsumeKey(t);
        case ObjectNeedKey => status := ConsumeKey(t);
        case ObjectColon => status := TakeMark(t, Colon, ObjectValue);
        case ObjectValue => status := StartValue(t);
        case ObjectAfterValue =>
          if t == EndObject { status := CloseContainer(true); } else { status := TakeMark(t, Comma, ObjectNeedKey); }
      }
    }

    method ConsumeInArray(t: PlainToken) returns (status: Status)
      requires Running() && mode == NoString && e.frames != []
      requires TopState(e.frames) in {ArrayValueOrEnd, ArrayValue, ArrayAfterValue}
      modifies `e, `d
      ensures status == Ok ==> Running() && d.tokens == old(d.tokens) + [t]
      ensures status == Ok ==> DocOf(e, d) == DocStep(old(DocOf(e, d)), t)
      ensures status != Ok ==> !TokenFits(old(e), t, expected, hash)
    {
      hide Named, BppFollow.Closed, ValueStep, EndFits, KeyFits, ValueFits, MustTake, Follows, InStep,
        DerStreamParser.Sound, DerStreamParser.Withheld, B.Encode, Base64Decoder.Valid, RootMemberIs;
      TopKind(e, d, expected, hash);
      OpenToo(e, d, expected, hash);
      match TopState(e.frames) {
        case ArrayValueOrEnd =>
          if t == EndArray { status := CloseContainer(false); } else { status := StartValue(t); }
        case ArrayValue => status := StartValue(t);
        case ArrayAfterValue =>
          if t == EndArray { status := CloseContainer(false); } else { status := TakeMark(t, Comma, ArrayValue); }
      }
    }

    /** A colon or a comma. */
    method TakeMark(t: PlainToken, wanted: Token, next: FrameState) returns (status: Status)
      requires InStep(e, d, expected, hash) && e.frames != []
      requires var s := TopState(e.frames);
            || (s == ObjectColon && wanted == Colon && next == ObjectValue)
            || (s == ObjectAfterValue && wanted == Comma && next == ObjectNeedKey)
            || (s == ArrayAfterValue && wanted == Comma && next == ArrayValue)
      modifies `e, `d
      ensures status == Ok ==>
        InStep(e, d, expected, hash) && d.tokens == old(d.tokens) + [t] && d.text == old(d.text)
          && e.bppSeen == old(e.bppSeen)
      ensures status == Ok ==> DocOf(e, d) == old(DocOf(e, d)).(state := next)
      ensures status != Ok ==> t != wanted
    {
      hide InStep;
      if t != wanted { return InvalidResponse; }
      MarkerRead(e, d, t, next, expected, hash);
      e := Marked(e, next);
      d := Seen(d, t);
      return Ok;
    }

    // ----- and what it means for the envelope that must be taken -----

    /** The string in progress, or the one that may start here, is one that passes. */
    lemma StringDue(p: string) returns (u: Token)
      requires Running() && OnTrack() && !Excused(Spelled(d.tokens) + ([Quote] + Chars(p)))
      requires Follows(DocOf(e, d), target)
      ensures u.Str? && p <= u.text && TokenFits(e, u, expected, hash)
      ensures AwaitsValue(TopState(e.frames)) && RootMemberIs(e.frames, PackageName()) ==> u == Str(decoder.Due())
    {
      hide InStep, DerStreamParser.Sound, DerStreamParser.Withheld, DerStreamParser.Wanted, B.Encode, P.Encode,
        Base64Decoder.Valid, RootMemberIs, TokenFits, DocStep, Follows, MustTake, Tokens, Spelled, Chars;
      u := NextString(d.tokens, Tokens(target), p);
      TokenTaken(e, d, expected, hash, target, decoder.Due(), u);
      OpenToo(e, d, expected, hash);
    }

    method StartOnTrack() returns (status: Status)
      requires Running() && OnTrack() && mode == NoString
      modifies `mode, `buffer, `partial
      ensures status == Ok ==> Running() && OnTrack() && Input() == old(Input()) + [Quote]
      ensures status != Ok ==> Excused(old(Input()) + [Quote])
    {
      hide InStep, DerStreamParser.Sound, DerStreamParser.Withheld, DerStreamParser.Wanted, B.Encode, P.Encode,
        Base64Decoder.Valid, RootMemberIs, TokenFits, DocStep, Follows, MustTake, Tokens, Spelled;
      ghost var input := Input();
      assert Spelled(d.tokens) + ([Quote] + Chars("")) == input + [Quote];
      if Excused(input) { ExcusedMore(input, [Quote]); }
      if !Excused(input + [Quote]) {
        ghost var u := StringDue("");
        StringStarts(e, u, expected, hash);
      }
      status := StartString();
    }

    method AppendOnTrack(c: char) returns (status: Status)
      requires Running() && OnTrack() && mode != NoString
      modifies `buffer, `partial, decoder, decoder.quartet, der, der.Parts()
      ensures der.Sound() && Shape() && der.Withheld() && der.Later()
      ensures status == Ok ==> Running() && OnTrack() && Input() == old(Input()) + [Char(c)]
      ensures status != Ok ==> Excused(old(Input()) + [Char(c)])
    {
      hide InStep, DerStreamParser.Sound, DerStreamParser.Withheld, DerStreamParser.Wanted, B.Encode, P.Encode,
        Base64Decoder.Valid, RootMemberIs, TokenFits, DocStep, Follows, MustTake, Tokens, Spelled, Chars;
      ghost var input := Input();
      CharsOn(partial, c);
      assert Spelled(d.tokens) + ([Quote] + Chars(partial + [c])) == input + [Char(c)];
      if Excused(input) { ExcusedMore(input, [Char(c)]); }
      if !Excused(input + [Char(c)]) {
        ghost var u := StringDue(partial + [c]);
        StringGoesOn(e, u, partial, c, expected, hash);
      }
      status := AppendChar(c);
    }

    method EndOnTrack() returns (status: Status)
      requires Running() && OnTrack() && mode != NoString
      modifies `e, `d, `mode, `buffer, `partial
      ensures status == Ok ==> Running() && OnTrack() && Input() == old(Input()) + [Quote]
      ensures status != Ok ==> Excused(old(Input()) + [Quote])
    {
      hide InStep, DerStreamParser.Sound, DerStreamParser.Withheld, DerStreamParser.Wanted, B.Encode, P.Encode,
        Base64Decoder.Valid, RootMemberIs, TokenFits, DocStep, Follows, MustTake, Tokens, Spelled, Chars;
      ghost var input, ts, p := Input(), d.tokens, partial;
      assert Spelled(ts) + ([Quote] + (Chars(p) + [Quote])) == input + [Quote];
      SpelledOn(ts, Str(p));
      assert Spell(Str(p)) == [Quote] + (Chars(p) + [Quote]);
      if Excused(input) { ExcusedMore(input, [Quote]); }
      if !Excused(input + [Quote]) {
        WholeString(ts, Tokens(target), p);
        TokenTaken(e, d, expected, hash, target, decoder.Due(), Str(p));
        OpenToo(e, d, expected, hash);
      }
      status := EndString();
    }

    method ConsumeOnTrack(t: PlainToken) returns (status: Status)
      requires Running() && OnTrack() && mode == NoString
      modifies `e, `d
      ensures status == Ok ==> Running() && OnTrack() && Input() == old(Input()) + [Mark(t)]
      ensures status != Ok ==> Excused(old(Input()) + [Mark(t)])
    {
      hide InStep, DerStreamParser.Sound, DerStreamParser.Withheld, DerStreamParser.Wanted, B.Encode, P.Encode,
        Base64Decoder.Valid, RootMemberIs, TokenFits, DocStep, Follows, MustTake, Tokens, Spelled;
      ghost var input, ts := Input(), d.tokens;
      assert input == Spelled(ts);
      SpelledOn(ts, t);
      MarkSpelled(t);
      if Excused(input) { ExcusedMore(input, [Mark(t)]); }
      if !Excused(input + [Mark(t)]) {
        NextMark(ts, Tokens(target), t);
        TokenTaken(e, d, expected, hash, target, decoder.Due(), t);
      }
      status := Consume(t);
    }

    /** A character of a string, or a token that is none, where it cannot be. */
    lemma OutOfPlace(i: Item)
      requires if mode == NoString then i.Char? else i.Mark?
      ensures Excused(Input() + [i])
    {
      hide DerStreamParser.Wanted, MustTake, Tokens, Spelled, Chars;
      if mode == NoString {
        NoCharNext(d.tokens, Tokens(target), i.c);
        assert Input() + [i] == Spelled(d.tokens) + [Char(i.c)];
      } else {
        NoMarkNext(d.tokens, Tokens(target), partial, i.token);
        assert Input() + [i] == Spelled(d.tokens) + ([Quote] + (Chars(partial) + [Mark(i.token)]));
      }
    }

    method ConsumeItem(i: Item) returns (status: Status)
      requires Running() && OnTrack()
      modifies `e, `d, `mode, `buffer, `partial, decoder, decoder.quartet, der, der.Parts()
      ensures der.Sound() && Shape() && der.Withheld() && der.Later()
      ensures status == Ok ==> Running() && OnTrack() && Input() == old(Input()) + [i]
      ensures status != Ok ==> Excused(old(Input()) + [i])
    {
      hide InStep, DerStreamParser.Sound, DerStreamParser.Withheld, Excused, StringAgrees, TextDecoded, OnTrack, Input,
        Base64Decoder.Valid;
      decoder.Running();
      if mode != NoString {
        if i.Quote? {
          status := EndOnTrack();
        } else if i.Char? {
          status := AppendOnTrack(i.c);
        } else {
          OutOfPlace(i);
          status := InvalidResponse;
        }
      } else if i.Quote? {
        status := StartOnTrack();
      } else if i.Mark? {
        status := ConsumeOnTrack(i.token);
      } else {
        OutOfPlace(i);
        status := InvalidResponse;
      }
    }

    /** A piece of the response, however it has been cut. */
    method Feed(items: seq<Item>) returns (status: Status)
      requires Valid()
      modifies this, decoder, decoder.quartet, der, der.Parts()
      ensures Valid()
      ensures status == Ok ==> Running() && Input() == old(Input()) + items
      ensures status != Ok ==> failed && (old(failed) || old(complete) || Excused(old(Input()) + items))
    {
      hide Excused, StringAgrees, TextDecoded, OnTrack, Input, InStep, DerStreamParser.Sound, DerStreamParser.Withheld,
        Base64Decoder.Valid;
      if failed || complete {
        failed, complete := true, false;
        return InvalidState;
      }
      var i := 0;
      while i < |items|
        invariant 0 <= i <= |items| && Running() && OnTrack() && der.Sound() && Input() == old(Input()) + items[..i]
      {
        status := ConsumeItem(items[i]);
        if status != Ok {
          failed := true;
          assert old(Input()) + items == old(Input()) + items[..i] + [items[i]] + items[i + 1..];
          ExcusedMore(old(Input()) + items[..i] + [items[i]], items[i + 1..]);
          return;
        }
        assert items[..i + 1] == items[..i] + [items[i]];
        i := i + 1;
      }
      assert items[..|items|] == items;
      return Ok;
    }

    /** At the end: a card call has failed, not exactly one block has been answered, or the document is another one. */
    ghost predicate Refusable()
      reads this, der.session
    {
      der.session.faulty || der.session.answers != 1 || !der.Wanted() || !Wanted() || Input() != Spelled(Tokens(target))
    }

    /** The envelope that must be taken has been read to its end. */
    lemma AllDue()
      requires Running() && OnTrack() && !Excused(Input()) && Input() == Spelled(Tokens(target))
      ensures mode == NoString && e.rootDone && e.frames == [] && expected.Some? && e.statusSeen && e.transactionSeen
      ensures e.bppSeen
      ensures der.g.input == P.Encode(der.target)
    {
      hide InStep, Tokens, Follows, GoodEnvelope, B.Encode, P.Encode, Base64Decoder.Valid, DerStreamParser.Withheld,
        DerStreamParser.Wanted, Allowed, Spelled, Chars;
      if mode != NoString { NotInString(d.tokens, Tokens(target), partial); }
      assert Input() == Spelled(d.tokens);
      WholeDocument(d.tokens, Tokens(target));
      AtEnd(e, d, expected, hash, target);
      AllTaken(e, d, expected, hash, target, decoder.Due());
      AllSeen(e, d, expected, hash);
      OneText(target, expected, d.text, decoder.Due());
      B.EncodeUnique(der.g.input, P.Encode(der.target));
    }

    /**
     * The end of the response. The card is handed more only if the document is a good
     * envelope, and success means that it has been handed exactly the segments of the
     * package that the envelope carries, and has answered the last block with the result.
     */
    method Finish() returns (status: Status, result: seq<byte>)
      requires Valid()
      modifies this, decoder, decoder.quartet, der, der.Parts()
      ensures Valid() && (status == Ok ==> complete) && (status != Ok ==> failed)
      ensures status != Ok ==> old(failed) || old(complete) || old(der.session.answers) > 0 || Refusable()
      ensures der.session.log != old(der.session.log) ==>
        && old(d.root).Some? && GoodEnvelope(old(d.root).value, expected, old(d.text))
        && old(Input()) == Spelled(Tokens(old(d.root).value)) && old(d.text) == B.Encode(der.g.input)
      ensures status == Ok ==>
        && old(d.root).Some? && GoodEnvelope(old(d.root).value, expected, old(d.text))
        && old(Input()) == Spelled(Tokens(old(d.root).value))
        && result != [] && P.Complete(der.g.package) && der.Cleared(der.g.package.metadata)
        && old(d.text) == B.Encode(P.Encode(der.g.package))
        && der.session.log == Transcript(P.Segments(der.g.package)) && der.session.Answered(result)
    {
      hide Follows, MustTake, DerStreamParser.Wanted, InStep, B.Encode, GoodEnvelope, Tokens, P.Encode, P.Segments,
        P.Complete, Transcript, DerStreamParser.Sound, DerStreamParser.Withheld, DerStreamParser.Cleared;
      result := [];
      if failed || complete {
        failed, complete := true, false;
        return InvalidState, [];
      }
      decoder.Running();
      if !Excused(Input()) && Input() == Spelled(Tokens(target)) { AllDue(); }
      if !e.rootDone || e.frames != [] || mode != NoString || expected.None? || !e.statusSeen || !e.transactionSeen
        || !e.bppSeen {
        failed := true;
        return InvalidResponse, [];
      }
      AllSeen(e, d, expected, hash);
      status, result := der.Finish();
      if status != Ok {
        failed := true;
        return status, [];
      }
      complete := true;
    }
  }

  lemma OnePackage(e: Fields, d: Reading, expected: Option<seq<byte>>, hash: string -> nat)
    requires InStep(e, d, expected, hash) && RootMemberIs(e.frames, PackageName()) && AwaitsValue(TopState(e.frames))
    ensures !e.bppSeen
  {
    hide HeaderName, TransactionName, PackageName, FunctionStatusName, StatusName, Success, Proper, Tokens, ReadAll,
      GoodMember;
    RootIsPending(e, d, hash);
    NamesDiffer();
    assert FrameAgrees(e.frames[0], d.open[0], true, hash);
  }

  lemma OpenToo(e: Fields, d: Reading, expected: Option<seq<byte>>, hash: string -> nat)
    requires InStep(e, d, expected, hash)
    ensures |d.open| == |e.frames| <= MAX_DEPTH && (e.rootDone ==> e.frames == [])
    ensures d.open != [] ==> d.open[0].InObject?
  {
  }

  function Noted(e: Fields, rootHeader: bool, statusObject: bool): Fields {
    if rootHeader then e.(headerDepth := |e.frames|, functionStatusSeen := false, statusValueSeen := false)
    else if statusObject then e.(statusDepth := |e.frames|, statusValueSeen := false)
    else e
  }

  /** An object or an array starts. */
  lemma ContainerTaken(
    e: Fields, d: Reading, isObject: bool, next: FrameState, rootHeader: bool, statusObject: bool, e1: Fields,
    expected: Option<seq<byte>>, hash: string -> nat) returns (d1: Reading)
    requires InStep(e, d, expected, hash) && e.frames != [] && AwaitsValue(TopState(e.frames)) && |e.frames| < MAX_DEPTH
    requires rootHeader == RootMemberIs(e.frames, HeaderName())
    requires statusObject == HeaderMemberIs(e.frames, FunctionStatusName())
    requires rootHeader || statusObject ==> isObject
    requires !RootMemberIs(e.frames, TransactionName()) && !RootMemberIs(e.frames, PackageName())
    requires !StatusMemberIs(e.frames, StatusName())
    requires next == if e.frames[|e.frames| - 1].isObject then ObjectAfterValue else ArrayAfterValue
    requires var m := Marked(e, next);
             e1 == Noted(m.(frames := m.frames + [if isObject then NEW_OBJECT else NEW_ARRAY]), rootHeader,
               statusObject)
    ensures InStep(e1, d1, expected, hash) && d1.text == d.text && e1.bppSeen == e.bppSeen
    ensures d1.tokens == d.tokens + [if isObject then BeginObject else BeginArray]
    ensures DocOf(e1, d1) == BppFollow.Opened(DocOf(e, d), if isObject then InObject([], "") else InArray([]))
  {
    hide InStep, RootMemberIs, HeaderMemberIs, StatusMemberIs, HeaderName, TransactionName, PackageName,
      FunctionStatusName, StatusName, InStatus, InHeader, SetTop;
    OpenToo(e, d, expected, hash);
    PathsAre(e, d, expected, hash);
    var f := if isObject then NEW_OBJECT else NEW_ARRAY;
    var c := if isObject then InObject([], "") else InArray([]);
    TopKind(e, d, expected, hash);
    PushedDepth(e, next, f);
    var t := if isObject then BeginObject else BeginArray;
    ContainerRead(e, d, f, c, t, e1, expected, hash);
    d1 := Seen(d, t).(open := d.open + [c]);
  }

  /** A string or a primitive is taken, as what the place where it is makes of it. */
  lemma ScalarTaken(
    e: Fields, d: Reading, v: Json, t: Token, next: FrameState, e1: Fields, expected: Option<seq<byte>>,
      hash: string -> nat)
    returns (d1: Reading)
    requires InStep(e, d, expected, hash) && e.frames != [] && AwaitsValue(TopState(e.frames))
    requires (v == Other && t == Primitive) || (v.Text? && t == Str(v.text))
    requires !RootMemberIs(e.frames, HeaderName()) && !HeaderMemberIs(e.frames, FunctionStatusName())
    requires RootMemberIs(e.frames, TransactionName()) ==> TransactionOk(v, expected)
    requires StatusMemberIs(e.frames, StatusName()) ==> v == Text(Success())
    requires RootMemberIs(e.frames, PackageName()) ==> v.Text?
    requires next == if e.frames[|e.frames| - 1].isObject then ObjectAfterValue else ArrayAfterValue
    requires e1 == Marked(e, next).(
      transactionSeen := e.transactionSeen || RootMemberIs(e.frames, TransactionName()),
      bppSeen := e.bppSeen || RootMemberIs(e.frames, PackageName()),
      statusValueSeen := e.statusValueSeen || StatusMemberIs(e.frames, StatusName()))
    ensures InStep(e1, d1, expected, hash) && d1.tokens == d.tokens + [t]
    ensures d1.text == if RootMemberIs(e.frames, PackageName()) then v.text else d.text
    ensures DocOf(e1, d1) == Valued(DocOf(e, d), v)
  {
    hide InStep, RootMemberIs, HeaderMemberIs, StatusMemberIs, HeaderName, TransactionName, PackageName,
      FunctionStatusName, StatusName, Success, Tokens, HeaderOk, InHeader, InStatus, SetTop, Fill, Matches,
      TransactionOk;
    OpenToo(e, d, expected, hash);
    PathsAre(e, d, expected, hash);
    TopKind(e, d, expected, hash);
    NamesDiffer();
    MarkedState(e, next);
    d1 := ValueSeen(d, v, t).(text := if RootMemberIs(e.frames, PackageName()) then v.text else d.text);
    ScalarRead(e, d, v, t, e1, d1, expected, hash);
  }

  /** The places that matter differ. */
  lemma OneName(e: Fields)
    ensures RootMemberIs(e.frames, PackageName()) || StatusMemberIs(e.frames, StatusName()) ==>
      !RootMemberIs(e.frames, TransactionName())
    ensures RootMemberIs(e.frames, PackageName()) ==>
      !RootMemberIs(e.frames, HeaderName()) && !HeaderMemberIs(e.frames, FunctionStatusName())
        && !StatusMemberIs(e.frames, StatusName())
  {
    NamesDiffer();
  }

  /** The package is a member of an object. */
  lemma InRoot(e: Fields, d: Reading, expected: Option<seq<byte>>, hash: string -> nat)
    requires InStep(e, d, expected, hash) && RootMemberIs(e.frames, PackageName())
    ensures e.frames[|e.frames| - 1].isObject
  {
    hide InStep, HeaderName, TransactionName, PackageName, FunctionStatusName, StatusName;
    PathsAre(e, d, expected, hash);
    TopKind(e, d, expected, hash);
  }

  lemma PushedDepth(e: Fields, next: FrameState, f: Frame)
    requires e.frames != []
    ensures |(Marked(e, next).frames + [f])| == |e.frames| + 1
  {
  }

  lemma TopKind(e: Fields, d: Reading, expected: Option<seq<byte>>, hash: string -> nat)
    requires InStep(e, d, expected, hash) && e.frames != []
    ensures d.open != [] && e.frames[|e.frames| - 1].isObject == Top(d.open).InObject?
    ensures Matches(Top(d.open), TopState(e.frames)) && (|d.open| == 1 ==> Top(d.open).InObject?)
  {
    TopAgrees(e, d, hash);
  }

  /** A transaction id in hexadecimal, digit by digit. */
  method DecodeTransaction(value: string) returns (r: Option<seq<byte>>)
    ensures r == Transaction(value)
  {
    if value == [] || |value| > 32 || |value| % 2 != 0 { return None; }
    var output := [];
    var i := 0;
    while i < |value|
      invariant 0 <= i <= |value| && i % 2 == 0
      invariant forall k :: 0 <= k < i ==> HexDigit(value[k]) >= 0
      invariant |output| == i / 2
      invariant forall k :: 0 <= k < i / 2 ==>
        output[k] == HexDigit(value[2 * k]) as int * 16 + HexDigit(value[2 * k + 1])
    {
      var first, second := HexDigit(value[i]), HexDigit(value[i + 1]);
      if first < 0 || second < 0 { return None; }
      output := output + [first * 16 + second];
      i := i + 2;
    }
    assert IsHex(value) by {
      assert forall c | c in value :: HexDigit(c) >= 0;
    }
    assert output == HexBytes(value);
    return Some(output);
  }
}
