/**
 * What the envelope of a Bound Profile Package must say, and how the flags of the
 * incremental reader follow it: one lemma for every kind of token.
 */
module BppGate {
  import opened Bytes
  import opened BppDocument

  const MAX_DEPTH := 8
  const MAX_MEMBERS := 32
  const MAX_KEY_BYTES := 64

  function HeaderName(): string { "header" }

  function TransactionName(): string { "transactionId" }

  function PackageName(): string { "boundProfilePackage" }

  function FunctionStatusName(): string { "functionExecutionStatus" }

  function StatusName(): string { "status" }

  function Success(): string { "Executed-Success" }

  lemma NamesDiffer()
    ensures HeaderName() != TransactionName() && HeaderName() != PackageName() && TransactionName() != PackageName()
  {
    assert |HeaderName()| == 6 && |TransactionName()| == 13 && |PackageName()| == 19;
  }

  // ----- what a good envelope is -----

  function HexDigit(c: char): (v: int)
    ensures -1 <= v < 16
  {
    if '0' <= c <= '9' then c as int - '0' as int
    else if 'A' <= c <= 'F' then c as int - 'A' as int + 10
    else if 'a' <= c <= 'f' then c as int - 'a' as int + 10
    else -1
  }

  predicate IsHex(s: string) { |s| % 2 == 0 && forall c | c in s :: HexDigit(c) >= 0 }

  function HexByte(s: string, i: nat): byte
    requires IsHex(s) && 2 * i + 1 < |s|
  {
    HexDigit(s[2 * i]) * 16 + HexDigit(s[2 * i + 1])
  }

  function HexBytes(s: string): seq<byte>
    requires IsHex(s)
  {
    seq(|s| / 2, i requires 0 <= i < |s| / 2 => HexByte(s, i))
  }

  /** A transaction id is 1 to 16 bytes in hexadecimal, in either case. */
  function Transaction(s: string): Option<seq<byte>> {
    if 0 < |s| <= 32 && IsHex(s) then Some(HexBytes(s)) else None
  }

  const HEX := "0123456789ABCDEF"

  function Upper(c: char): char { if 'a' <= c <= 'f' then 'A' + (c - 'a') else c }

  lemma HexMeans(c: char, v: nat)
    requires v < 16
    ensures HexDigit(c) == v <==> Upper(c) == HEX[v]
  {
  }

  predicate Spells(s: string, id: seq<byte>) {
    && |s| == 2 * |id|
    && forall i | 0 <= i < |id| :: Upper(s[2 * i]) == HEX[id[i] / 16] && Upper(s[2 * i + 1]) == HEX[id[i] % 16]
  }

  /** A text stands for an id if and only if it spells its 1 to 16 bytes in hexadecimal digits of any case. */
  lemma TransactionMeans(s: string, id: seq<byte>)
    ensures Transaction(s) == Some(id) <==> 0 < |id| <= 16 && Spells(s, id)
  {
    hide HexDigit, Upper, Spells, HexBytes;
    if Transaction(s) == Some(id) { ReadIsSpelled(s); }
    if 0 < |id| <= 16 && Spells(s, id) { SpelledIsRead(s, id); }
  }

  lemma ReadIsSpelled(s: string)
    requires IsHex(s)
    ensures Spells(s, HexBytes(s)) && |HexBytes(s)| == |s| / 2
  {
    hide HexDigit, Upper;
    var id := HexBytes(s);
    forall i | 0 <= i < |id| ensures Upper(s[2 * i]) == HEX[id[i] / 16] && Upper(s[2 * i + 1]) == HEX[id[i] % 16] {
      var x, y := s[2 * i], s[2 * i + 1];
      assert x in s && y in s;
      assert id[i] == HexDigit(x) * 16 + HexDigit(y);
      TwoDigits(HexDigit(x), HexDigit(y));
      HexMeans(x, HexDigit(x));
      HexMeans(y, HexDigit(y));
    }
  }

  lemma TwoDigits(a: int, b: int)
    requires 0 <= a < 16 && 0 <= b < 16
    ensures (a * 16 + b) / 16 == a && (a * 16 + b) % 16 == b
  {
  }

  lemma SpelledIsRead(s: string, id: seq<byte>)
    requires Spells(s, id)
    ensures IsHex(s) && HexBytes(s) == id && |s| == 2 * |id|
  {
    hide HexDigit, Upper;
    forall i | 0 <= i < |id| ensures HexDigit(s[2 * i]) == id[i] / 16 && HexDigit(s[2 * i + 1]) == id[i] % 16 {
      HexMeans(s[2 * i], id[i] / 16);
      HexMeans(s[2 * i + 1], id[i] % 16);
    }
    forall c | c in s ensures HexDigit(c) >= 0 {
      var k :| 0 <= k < |s| && s[k] == c;
      assert HexDigit(s[2 * (k / 2)]) >= 0 && HexDigit(s[2 * (k / 2) + 1]) >= 0;
      assert k == 2 * (k / 2) || k == 2 * (k / 2) + 1;
    }
    assert IsHex(s);
    assert HexBytes(s) == id;
  }

  ghost predicate StatusOk(v: Json) {
    v.Object? && exists m | m in v.members :: m.key == StatusName() && m.value == Text(Success())
  }

  ghost predicate HeaderOk(v: Json) {
    v.Object? && exists m | m in v.members :: m.key == FunctionStatusName() && StatusOk(m.value)
  }

  predicate TransactionOk(v: Json, expected: Option<seq<byte>>) {
    v.Text? && expected.Some? && Transaction(v.text) == expected
  }

  /** A member of the root says what it must, if it is one that matters. */
  ghost predicate GoodMember(m: Member, expected: Option<seq<byte>>, text: string) {
    && (m.key == HeaderName() ==> HeaderOk(m.value))
    && (m.key == TransactionName() ==> TransactionOk(m.value, expected))
    && (m.key == PackageName() ==> m.value == Text(text))
  }

  /** Only the header and the transaction id may follow the package. */
  predicate PackageNearlyLast(ms: seq<Member>) {
    forall i, k :: 0 <= i < k < |ms| && ms[i].key == PackageName() ==> ms[k].key in {HeaderName(), TransactionName()}
  }

  /**
   * A good envelope: no repeated keys, a header whose status is success, the expected
   * transaction id, and `text` as its one package. The members come in any order, except
   * that nothing else may follow the package.
   */
  ghost predicate GoodEnvelope(j: Json, expected: Option<seq<byte>>, text: string) {
    && j.Object? && Proper(j) && PackageNearlyLast(j.members)
    && (forall m | m in j.members :: GoodMember(m, expected, text))
    && HasKey(j.members, HeaderName()) && HasKey(j.members, TransactionName()) && HasKey(j.members, PackageName())
  }

  // ----- the state of the reader -----

  datatype KeyRecord = KeyRecord(hash: nat, length: nat)

  datatype Frame = Frame(isObject: bool, state: FrameState, key: string, keys: seq<KeyRecord>)

  datatype Fields = Fields(
    frames: seq<Frame>,
    headerDepth: nat,
    statusDepth: nat,
    rootDone: bool,
    statusSeen: bool,
    transactionSeen: bool,
    bppSeen: bool,
    functionStatusSeen: bool,
    statusValueSeen: bool)

  /** The document so far: the containers still open, or the finished root. */
  datatype Reading = Reading(open: seq<Context>, root: Option<Json>, tokens: seq<Token>, text: string)

  const NEW_OBJECT := Frame(true, ObjectKeyOrEnd, "", [])
  const NEW_ARRAY := Frame(false, ArrayValueOrEnd, "", [])

  function Recorded(ms: seq<Member>, hash: string -> nat): seq<KeyRecord> {
    seq(|ms|, i requires 0 <= i < |ms| => KeyRecord(hash(ms[i].key), |ms[i].key|))
  }

  /** A member has been started: its key is known, its value is not complete. */
  predicate Pending(state: FrameState, top: bool) { !top || state in {ObjectColon, ObjectValue} }

  function Keyed(c: Context, pending: bool): seq<Member>
    requires c.InObject?
  {
    if pending then c.members + [Member(c.key, Other)] else c.members
  }

  predicate FrameAgrees(f: Frame, c: Context, top: bool, hash: string -> nat) {
    && f.isObject == c.InObject? && ProperSoFar(c)
    && (if top then Matches(c, f.state) else f.state == AfterValue(c))
    && (if c.InObject? then
          && f.key == c.key && f.keys == Recorded(Keyed(c, Pending(f.state, top)), hash)
          && (Pending(f.state, top) ==> !HasKey(c.members, c.key))
        else f.key == "" && f.keys == [])
  }

  predicate StackAgrees(frames: seq<Frame>, open: seq<Context>, hash: string -> nat) {
    && |frames| == |open| <= MAX_DEPTH
    && (forall i :: 0 <= i < |open| ==> FrameAgrees(frames[i], open[i], i == |open| - 1, hash))
  }

  function TopState(frames: seq<Frame>): FrameState {
    if frames == [] then ObjectKeyOrEnd else frames[|frames| - 1].state
  }

  predicate TextAgrees(e: Fields, d: Reading) {
    && e.rootDone == d.root.Some?
    && (d.open != [] ==> d.open[0].InObject?)
    && (if d.root.Some? then d.open == [] && d.root.value.Object? && Proper(d.root.value)
      && d.tokens == Tokens(d.root.value)
        else d.tokens == ReadAll(d.open, TopState(e.frames)))
  }

  function RootMembers(d: Reading): seq<Member> {
    if d.root.Some? && d.root.value.Object? then d.root.value.members
    else if d.open != [] && d.open[0].InObject? then d.open[0].members else []
  }

  predicate InHeader(open: seq<Context>) { |open| >= 2 && open[0].InObject? && open[0].key == HeaderName() }

  predicate InStatus(open: seq<Context>) {
    InHeader(open) && |open| >= 3 && open[1].InObject? && open[1].key == FunctionStatusName()
  }

  predicate RootPending(e: Fields, d: Reading) {
    |d.open| == |e.frames| > 0 && Pending(e.frames[0].state, |d.open| == 1)
  }

  ghost predicate RootGate(e: Fields, d: Reading, expected: Option<seq<byte>>) {
    var ms := RootMembers(d);
    && (forall m | m in ms :: GoodMember(m, expected, d.text))
    && PackageNearlyLast(ms)
    && (e.statusSeen <==> HasKey(ms, HeaderName()))
    && (e.transactionSeen <==> HasKey(ms, TransactionName()))
    && (e.bppSeen <==> HasKey(ms, PackageName()))
    && (RootPending(e, d) && e.bppSeen && d.open[0].InObject? ==> d.open[0].key in {HeaderName(), TransactionName()})
    && (|d.open| >= 2 && d.open[0].InObject? ==> d.open[0].key !in {TransactionName(), PackageName()})
  }

  ghost predicate HeaderGate(e: Fields, open: seq<Context>) {
    && e.headerDepth == (if InHeader(open) then 2 else 0)
    && (InHeader(open) ==>
      && open[1].InObject?
      && (forall m | m in open[1].members :: m.key == FunctionStatusName() ==> StatusOk(m.value))
      && (e.functionStatusSeen <==> HasKey(open[1].members, FunctionStatusName()))
      && (e.functionStatusSeen && !InStatus(open) ==> e.statusValueSeen))
  }

  ghost predicate StatusGate(e: Fields, open: seq<Context>) {
    && e.statusDepth == (if InStatus(open) then 3 else 0)
    && (InStatus(open) ==>
      && open[2].InObject?
      && (forall m | m in open[2].members :: m.key == StatusName() ==> m.value == Text(Success()))
      && (e.statusValueSeen <==> HasKey(open[2].members, StatusName()))
      && (|open| >= 4 ==> open[2].key != StatusName()))
  }

  ghost predicate InStep(e: Fields, d: Reading, expected: Option<seq<byte>>, hash: string -> nat) {
    && StackAgrees(e.frames, d.open, hash) && TextAgrees(e, d)
    && RootGate(e, d, expected) && HeaderGate(e, d.open) && StatusGate(e, d.open)
  }

  const START_FIELDS := Fields([], 0, 0, false, false, false, false, false, false)
  const START_READING := Reading([], None, [], "")

  lemma NothingRead(expected: Option<seq<byte>>, hash: string -> nat)
    ensures InStep(START_FIELDS, START_READING, expected, hash)
  {
  }

  /** With the root closed and every flag set, the document is a good envelope. */
  lemma AllSeen(e: Fields, d: Reading, expected: Option<seq<byte>>, hash: string -> nat)
    requires InStep(e, d, expected, hash) && e.rootDone && e.statusSeen && e.transactionSeen && e.bppSeen
    ensures d.root.Some? && GoodEnvelope(d.root.value, expected, d.text) && d.tokens == Tokens(d.root.value)
  {
  }

  // ----- one lemma for every token -----

  function SetTop<T>(s: seq<T>, x: T): seq<T>
    requires s != []
  {
    s[..|s| - 1] + [x]
  }

  function WithState(f: Frame, s: FrameState): Frame { f.(state := s) }

  function Marked(e: Fields, next: FrameState): Fields
    requires e.frames != []
  {
    e.(frames := SetTop(e.frames, WithState(e.frames[|e.frames| - 1], next)))
  }

  function Seen(d: Reading, t: Token): Reading { d.(tokens := d.tokens + [t]) }

  lemma RootOpened(e: Fields, d: Reading, expected: Option<seq<byte>>, hash: string -> nat)
    requires InStep(e, d, expected, hash) && e.frames == [] && !e.rootDone
    ensures InStep(e.(frames := [NEW_OBJECT]), Seen(d, BeginObject).(open := [InObject([], "")]), expected, hash)
  {
    hide HeaderName, TransactionName, PackageName, FunctionStatusName, StatusName, Success, Tokens, HeaderOk, StatusOk,
      TransactionOk;
    RootText(e, d, hash);
  }

  lemma RootText(e: Fields, d: Reading, hash: string -> nat)
    requires StackAgrees(e.frames, d.open, hash) && TextAgrees(e, d) && e.frames == [] && !e.rootDone
    ensures StackAgrees([NEW_OBJECT], [InObject([], "")], hash)
    ensures TextAgrees(e.(frames := [NEW_OBJECT]), Seen(d, BeginObject).(open := [InObject([], "")]))
  {
    hide Tokens;
    ContainerOpened([], ObjectKeyOrEnd, InObject([], ""), ObjectKeyOrEnd, BeginObject);
    assert [] + [InObject([], "")] == [InObject([], "")];
    assert Recorded([], hash) == [];
  }

  lemma StackTop(frames: seq<Frame>, open: seq<Context>, f: Frame, c: Context, hash: string -> nat)
    requires StackAgrees(frames, open, hash) && open != [] && FrameAgrees(f, c, true, hash)
    ensures StackAgrees(SetTop(frames, f), SetTop(open, c), hash)
  {
    hide FrameAgrees;
    var fs, cs := SetTop(frames, f), SetTop(open, c);
    forall i | 0 <= i < |cs| ensures FrameAgrees(fs[i], cs[i], i == |cs| - 1, hash) {
      assert i < |cs| - 1 ==> FrameAgrees(frames[i], open[i], i == |open| - 1, hash);
    }
  }

  lemma StackPush(frames: seq<Frame>, open: seq<Context>, f: Frame, new_: Frame, c: Context, hash: string -> nat)
    requires StackAgrees(frames, open, hash) && 0 < |open| < MAX_DEPTH
    requires FrameAgrees(f, Top(open), false, hash) && FrameAgrees(new_, c, true, hash)
    ensures StackAgrees(SetTop(frames, f) + [new_], open + [c], hash)
  {
    hide FrameAgrees;
    var fs, cs := SetTop(frames, f) + [new_], open + [c];
    forall i | 0 <= i < |cs| ensures FrameAgrees(fs[i], cs[i], i == |cs| - 1, hash) {
      assert i < |open| ==> FrameAgrees(frames[i], open[i], i == |open| - 1, hash);
    }
  }

  lemma StackPop(frames: seq<Frame>, open: seq<Context>, c: Context, hash: string -> nat)
    requires StackAgrees(frames, open, hash) && |open| >= 2
    requires FrameAgrees(frames[|open| - 2], c, true, hash)
    ensures StackAgrees(frames[..|frames| - 1], SetTop(Under(open), c), hash)
  {
    hide FrameAgrees;
    var fs, cs := frames[..|frames| - 1], SetTop(Under(open), c);
    forall i | 0 <= i < |cs| ensures FrameAgrees(fs[i], cs[i], i == |cs| - 1, hash) {
      assert i < |cs| - 1 ==> FrameAgrees(frames[i], open[i], i == |open| - 1, hash);
    }
  }

  lemma SameDepth(e: Fields, d: Reading, hash: string -> nat)
    requires StackAgrees(e.frames, d.open, hash)
    ensures |e.frames| == |d.open|
  {
  }

  lemma TopAgrees(e: Fields, d: Reading, hash: string -> nat)
    requires StackAgrees(e.frames, d.open, hash) && d.open != []
    ensures FrameAgrees(e.frames[|e.frames| - 1], Top(d.open), true, hash)
  {
  }

  lemma UnderIsSetTop(cs: seq<Context>, c: Context)
    requires cs != []
    ensures Under(cs) + [c] == SetTop(cs, c)
    ensures c == Top(cs) ==> SetTop(cs, c) == cs
  {
  }

  // Colons and commas.

  /** The same flags and containers, apart from the key of the innermost one. */
  predicate SameMembers(open: seq<Context>, c: Context) {
    open != [] && (c == Top(open) || (c.InObject? && Top(open).InObject? && c.members == Top(open).members))
  }

  lemma HeaderStays(e: Fields, open: seq<Context>, e1: Fields, c: Context)
    requires HeaderGate(e, open) && SameMembers(open, c) && e1 == e.(frames := e1.frames)
    ensures HeaderGate(e1, SetTop(open, c))
  {
    hide HeaderName, FunctionStatusName, StatusOk, HasKey;
  }

  lemma StatusStays(e: Fields, open: seq<Context>, e1: Fields, c: Context)
    requires StatusGate(e, open) && SameMembers(open, c) && e1 == e.(frames := e1.frames)
    ensures StatusGate(e1, SetTop(open, c))
  {
    hide HeaderName, FunctionStatusName, StatusName, Success, HasKey;
  }

  lemma RootStays(e: Fields, d: Reading, e1: Fields, c: Context, d1: Reading, expected: Option<seq<byte>>)
    requires RootGate(e, d, expected) && SameMembers(d.open, c) && e1 == e.(frames := e1.frames) && d.root.None?
    requires |e1.frames| == |e.frames| == |d.open| && e.frames[..|e.frames| - 1] == e1.frames[..|e.frames| - 1]
    requires d1 == d.(open := SetTop(d.open, c), tokens := d1.tokens)
    requires |d.open| == 1 && e.bppSeen && Pending(e1.frames[0].state, true) && c.InObject? ==>
      c.key in {HeaderName(), TransactionName()}
    ensures RootGate(e1, d1, expected)
  {
    hide HeaderName, TransactionName, PackageName, HasKey, GoodMember, PackageNearlyLast;
    assert RootMembers(d1) == RootMembers(d);
    assert |d.open| >= 2 ==> d1.open[0] == d.open[0] && e1.frames[0] == e.frames[..|e.frames| - 1][0] == e.frames[0];
  }

  lemma MarkerRead(e: Fields, d: Reading, t: Token, next: FrameState, expected: Option<seq<byte>>, hash: string -> nat)
    requires InStep(e, d, expected, hash) && e.frames != []
    requires var s := TopState(e.frames);
          || (s == ObjectColon && t == Colon && next == ObjectValue)
          || (s == ObjectAfterValue && t == Comma && next == ObjectNeedKey)
          || (s == ArrayAfterValue && t == Comma && next == ArrayValue)
    ensures InStep(Marked(e, next), Seen(d, t), expected, hash)
  {
    hide HeaderName, TransactionName, PackageName, Tokens, ReadAll, ProperSoFar,
      RootGate, HeaderGate, StatusGate, HasKey;
    TopAgrees(e, d, hash);
    var top, e1, d1 := Top(d.open), Marked(e, next), Seen(d, t);
    MarkRead(d.open, TopState(e.frames), t, next);
    UnderIsSetTop(d.open, top);
    StackTop(e.frames, d.open, WithState(e.frames[|e.frames| - 1], next), top, hash);
    PendingKey(e, d, expected);
    RootStays(e, d, e1, top, d1, expected);
    HeaderStays(e, d.open, e1, top);
    StatusStays(e, d.open, e1, top);
  }

  lemma PendingKey(e: Fields, d: Reading, expected: Option<seq<byte>>)
    requires RootGate(e, d, expected) && |d.open| == |e.frames| > 0
    ensures e.bppSeen && Pending(e.frames[0].state, |d.open| == 1) && d.open[0].InObject? ==>
      d.open[0].key in {HeaderName(), TransactionName()}
  {
  }

  // Keys.

  function WithKey(e: Fields, key: string, record: KeyRecord): Fields
    requires e.frames != []
  {
    var f := e.frames[|e.frames| - 1];
    e.(frames := SetTop(e.frames, f.(keys := f.keys + [record], key := key, state := ObjectColon)))
  }

  function KeySeen(d: Reading, key: string): Reading
    requires d.open != []
  {
    Seen(d, Str(key)).(open := SetTop(d.open, if Top(d.open).InObject? then Top(d.open).(key := key) else Top(d.open)))
  }

  lemma NewKey(ms: seq<Member>, key: string, hash: string -> nat)
    requires forall i :: 0 <= i < |ms| ==> Recorded(ms, hash)[i] != KeyRecord(hash(key), |key|)
    ensures !HasKey(ms, key)
    ensures Recorded(ms + [Member(key, Other)], hash) == Recorded(ms, hash) + [KeyRecord(hash(key), |key|)]
  {
    forall i | 0 <= i < |ms| ensures ms[i].key != key {
      assert Recorded(ms, hash)[i] == KeyRecord(hash(ms[i].key), |ms[i].key|);
    }
  }

  lemma KeyAgrees(f: Frame, c: Context, key: string, hash: string -> nat)
    requires FrameAgrees(f, c, true, hash) && f.state in {ObjectKeyOrEnd, ObjectNeedKey}
    requires KeyRecord(hash(key), |key|) !in f.keys
    ensures c.InObject?
    ensures FrameAgrees(f.(keys := f.keys + [KeyRecord(hash(key), |key|)], key := key, state := ObjectColon),
                        c.(key := key), true, hash)
  {
    hide Proper;
    NewKey(c.members, key, hash);
  }

  lemma MemberKeyRead(e: Fields, d: Reading, key: string, expected: Option<seq<byte>>, hash: string -> nat)
    requires InStep(e, d, expected, hash) && e.frames != [] && TopState(e.frames) in {ObjectKeyOrEnd, ObjectNeedKey}
    requires KeyRecord(hash(key), |key|) !in e.frames[|e.frames| - 1].keys
    requires |e.frames| == 1 && e.bppSeen ==> key in {HeaderName(), TransactionName()}
    ensures InStep(WithKey(e, key, KeyRecord(hash(key), |key|)), KeySeen(d, key), expected, hash)
  {
    hide HeaderName, TransactionName, PackageName, Tokens, ReadAll, ProperSoFar,
      RootGate, HeaderGate, StatusGate, HasKey;
    TopAgrees(e, d, hash);
    KeyAgrees(e.frames[|e.frames| - 1], Top(d.open), key, hash);
    KeyRead(d.open, TopState(e.frames), key);
    var top, e1, d1 := Top(d.open).(key := key), WithKey(e, key, KeyRecord(hash(key), |key|)), KeySeen(d, key);
    UnderIsSetTop(d.open, top);
    StackTop(e.frames, d.open, e1.frames[|e1.frames| - 1], top, hash);
    RootStays(e, d, e1, top, d1, expected);
    HeaderStays(e, d.open, e1, top);
    StatusStays(e, d.open, e1, top);
  }

  // Values.

  /** The containers after value `v` has completed the member or element in progress in container `k`. */
  function Fill(open: seq<Context>, k: nat, v: Json): (r: seq<Context>)
    requires k < |open|
    ensures |r| == k + 1
  {
    open[..k] + [Filled(open[k], v)]
  }

  predicate KeyIs(c: Context, name: string) { c.InObject? && c.key == name }

  lemma HasKeyGrown(ms: seq<Member>, m: Member, key: string)
    ensures HasKey(ms + [m], key) <==> HasKey(ms, key) || m.key == key
  {
    if HasKey(ms, key) {
      var i :| 0 <= i < |ms| && ms[i].key == key;
      assert (ms + [m])[i].key == key;
    }
    if m.key == key { assert (ms + [m])[|ms|].key == key; }
  }

  lemma NearlyLastGrown(ms: seq<Member>, m: Member)
    requires PackageNearlyLast(ms)
    requires HasKey(ms, PackageName()) ==> m.key in {HeaderName(), TransactionName()}
    ensures PackageNearlyLast(ms + [m])
  {
    hide HeaderName, TransactionName, PackageName;
    var grown := ms + [m];
    forall i, k | 0 <= i < k < |grown| && grown[i].key == PackageName()
      ensures grown[k].key in {HeaderName(), TransactionName()}
    {
      if k == |ms| { assert HasKey(ms, PackageName()); }
    }
  }

  lemma GoodWithNewText(ms: seq<Member>, expected: Option<seq<byte>>, text: string, text1: string)
    requires forall m | m in ms :: GoodMember(m, expected, text)
    requires text1 == text || !HasKey(ms, PackageName())
    ensures forall m | m in ms :: GoodMember(m, expected, text1)
  {
    hide HeaderName, TransactionName, PackageName;
    forall m | m in ms ensures GoodMember(m, expected, text1) {
      var i :| 0 <= i < |ms| && ms[i] == m;
      assert GoodMember(m, expected, text);
      assert m.key == PackageName() ==> HasKey(ms, PackageName());
    }
  }

  /** A member of the root is complete. */
  lemma RootFilled(e: Fields, d: Reading, e1: Fields, d1: Reading, v: Json, expected: Option<seq<byte>>)
    requires RootGate(e, d, expected) && d.root.None? && RootPending(e, d) && d.open[0].InObject?
    requires var c := d.open[0]; !HasKey(c.members, c.key) && GoodMember(Member(c.key, v), expected, d1.text)
    requires d1.text == d.text || d.open[0].key == PackageName()
    requires d1.root.None? && d1.open == [Filled(d.open[0], v)]
    requires |e1.frames| == 1 && e1.frames[0].state == ObjectAfterValue
    requires e1.bppSeen == (e.bppSeen || d.open[0].key == PackageName())
    requires e1.transactionSeen <==> e.transactionSeen || d.open[0].key == TransactionName()
    requires e1.statusSeen <==> e.statusSeen || d.open[0].key == HeaderName()
    ensures RootGate(e1, d1, expected)
  {
    hide HeaderName, TransactionName, PackageName, HasKey, GoodMember, PackageNearlyLast;
    var c := d.open[0];
    var m := Member(c.key, v);
    HasKeyGrown(c.members, m, HeaderName());
    HasKeyGrown(c.members, m, TransactionName());
    HasKeyGrown(c.members, m, PackageName());
    NearlyLastGrown(c.members, m);
    GoodWithNewText(c.members, expected, d.text, d1.text);
    assert RootMembers(d1) == c.members + [m];
  }

  /** A value deeper down leaves the root as it is. */
  lemma RootDeeper(e: Fields, d: Reading, e1: Fields, d1: Reading, expected: Option<seq<byte>>)
    requires RootGate(e, d, expected) && d.root.None? && |d.open| >= 1 && |e.frames| == |d.open|
    requires d1.root.None? && |d1.open| >= 2 && d1.open[0] == d.open[0] && d1.text == d.text
    requires |e1.frames| == |d1.open| && RootPending(e, d)
    requires e1 == e.(frames := e1.frames, headerDepth := e1.headerDepth, statusDepth := e1.statusDepth,
                      functionStatusSeen := e1.functionStatusSeen, statusValueSeen := e1.statusValueSeen)
    requires |d.open| == 1 && d.open[0].InObject? ==> d.open[0].key !in {TransactionName(), PackageName()}
    ensures RootGate(e1, d1, expected)
  {
    hide HeaderName, TransactionName, PackageName, HasKey, GoodMember, PackageNearlyLast;
    assert RootMembers(d1) == RootMembers(d);
  }

  lemma HeaderFilled(e: Fields, open: seq<Context>, e1: Fields, k: nat, v: Json)
    requires HeaderGate(e, open) && k < |open|
    requires e1.headerDepth == if k == 0 then 0 else e.headerDepth
    requires k == 1 && InHeader(open) && KeyIs(open[1], FunctionStatusName()) ==> StatusOk(v)
    requires k >= 1 && InHeader(open) ==>
      (e1.functionStatusSeen <==> e.functionStatusSeen || (k == 1 && KeyIs(open[1], FunctionStatusName())))
    requires k >= 1 && InHeader(open) && e1.functionStatusSeen && (k == 1 || !InStatus(open)) ==> e1.statusValueSeen
    ensures HeaderGate(e1, Fill(open, k, v))
  {
    hide HeaderName, FunctionStatusName, StatusOk, HasKey;
    if k == 1 && InHeader(open) {
      HasKeyGrown(open[1].members, Member(open[1].key, v), FunctionStatusName());
    }
  }

  lemma StatusFilled(e: Fields, open: seq<Context>, e1: Fields, k: nat, v: Json)
    requires StatusGate(e, open) && k < |open|
    requires e1.statusDepth == if k <= 1 then 0 else e.statusDepth
    requires k == 2 && InStatus(open) && KeyIs(open[2], StatusName()) ==> v == Text(Success())
    requires e1.statusValueSeen <==>
      e.statusValueSeen || (k == 2 && InStatus(open) && KeyIs(open[2], StatusName()))
    ensures StatusGate(e1, Fill(open, k, v))
  {
    hide HeaderName, FunctionStatusName, StatusName, Success, HasKey;
    if k == 2 && InStatus(open) {
      HasKeyGrown(open[2].members, Member(open[2].key, v), StatusName());
    }
  }

  lemma FilledAgrees(f: Frame, c: Context, v: Json, hash: string -> nat)
    requires FrameAgrees(f, c, true, hash) && AwaitsValue(f.state) && Proper(v)
    ensures FrameAgrees(WithState(f, AfterValue(c)), Filled(c, v), true, hash)
  {
    hide Proper, HasKey;
    FilledIsProper(c, v);
    FillTokens(c, v);
    if c.InObject? {
      assert Recorded(Keyed(c, true), hash) == Recorded(c.members + [Member(c.key, v)], hash);
    }
  }

  /** The same, when the value was a container that has just been closed above it. */
  lemma UncoveredAgrees(f: Frame, c: Context, v: Json, hash: string -> nat)
    requires FrameAgrees(f, c, false, hash) && Proper(v)
    ensures FrameAgrees(f, Filled(c, v), true, hash)
  {
    hide Proper, HasKey;
    FilledIsProper(c, v);
    FillTokens(c, v);
    if c.InObject? {
      assert Recorded(Keyed(c, true), hash) == Recorded(c.members + [Member(c.key, v)], hash);
    }
  }

  lemma CoveredAgrees(f: Frame, c: Context, hash: string -> nat)
    requires FrameAgrees(f, c, true, hash) && AwaitsValue(f.state)
    ensures FrameAgrees(WithState(f, AfterValue(c)), c, false, hash)
  {
    hide Proper, HasKey;
  }

  function ValueSeen(d: Reading, v: Json, t: Token): Reading
    requires d.open != []
  {
    Seen(d, t).(open := Fill(d.open, |d.open| - 1, v))
  }

  lemma ScalarText(e: Fields, d: Reading, v: Json, t: Token, hash: string -> nat)
    requires StackAgrees(e.frames, d.open, hash) && TextAgrees(e, d) && e.frames != []
    requires AwaitsValue(TopState(e.frames))
    requires (v == Other && t == Primitive) || (v.Text? && t == Str(v.text))
    ensures var e1, d1 := Marked(e, AfterValue(Top(d.open))), ValueSeen(d, v, t);
            StackAgrees(e1.frames, d1.open, hash) && TextAgrees(e1, d1)
  {
    hide ReadAll, ProperSoFar, HasKey;
    var n, c := |d.open|, Top(d.open);
    TopAgrees(e, d, hash);
    FilledAgrees(e.frames[n - 1], c, v, hash);
    StackTop(e.frames, d.open, WithState(e.frames[n - 1], AfterValue(c)), Filled(c, v), hash);
    ValueRead(d.open, TopState(e.frames), v);
    assert Fill(d.open, n - 1, v) == Under(d.open) + [Filled(c, v)];
  }

  /** The innermost container takes a value that is a single token. */
  lemma ScalarRead(e: Fields, d: Reading, v: Json, t: Token, e1: Fields, d1: Reading, expected: Option<seq<byte>>,
    hash: string -> nat)
    requires InStep(e, d, expected, hash) && e.frames != [] && AwaitsValue(TopState(e.frames))
    requires (v == Other && t == Primitive) || (v.Text? && t == Str(v.text))
    requires e1 == Marked(e, AfterValue(Top(d.open))).(
      transactionSeen := e1.transactionSeen, bppSeen := e1.bppSeen, statusValueSeen := e1.statusValueSeen)
    requires d1 == ValueSeen(d, v, t).(text := d1.text)
    requires var c := Top(d.open); |d.open| == 1 ==>
      && GoodMember(Member(c.key, v), expected, d1.text) && (d1.text == d.text || c.key == PackageName())
      && e1.bppSeen == (e.bppSeen || c.key == PackageName())
      && (e1.transactionSeen <==> e.transactionSeen || c.key == TransactionName())
      && c.key != HeaderName()
    requires |d.open| > 1 ==> d1.text == d.text && e1.bppSeen == e.bppSeen && e1.transactionSeen == e.transactionSeen
    requires |d.open| == 2 && InHeader(d.open) ==> !KeyIs(d.open[1], FunctionStatusName())
    requires |d.open| == 3 && InStatus(d.open) && KeyIs(d.open[2], StatusName()) ==> v == Text(Success())
    requires e1.statusValueSeen <==>
      e.statusValueSeen || (|d.open| == 3 && InStatus(d.open) && KeyIs(d.open[2], StatusName()))
    ensures InStep(e1, d1, expected, hash)
  {
    hide HeaderName, TransactionName, PackageName, FunctionStatusName, StatusName, Success, ReadAll, ProperSoFar,
      RootGate, HeaderGate, StatusGate, HasKey, GoodMember, StatusOk, StackAgrees, Tokens;
    SameDepth(e, d, hash);
    var n := |d.open|;
    ScalarText(e, d, v, t, hash);
    RootIsPending(e, d, hash);
    HeaderFilled(e, d.open, e1, n - 1, v) by { HeaderClosed(e, d.open); }
    StatusFilled(e, d.open, e1, n - 1, v) by { StatusClosed(e, d.open); }
    if n == 1 {
      RootFilled(e, d, e1, d1, v, expected);
    } else {
      RootDeeper(e, d, e1, d1, expected);
    }
  }

  lemma HeaderClosed(e: Fields, open: seq<Context>)
    requires HeaderGate(e, open)
    ensures |open| <= 1 ==> e.headerDepth == 0
    ensures InHeader(open) && e.functionStatusSeen && !InStatus(open) ==> e.statusValueSeen
  {
  }

  lemma StatusClosed(e: Fields, open: seq<Context>)
    requires StatusGate(e, open)
    ensures |open| <= 2 ==> e.statusDepth == 0
  {
  }

  // Containers.

  lemma RootPushed(e: Fields, d: Reading, e1: Fields, d1: Reading, c: Context, expected: Option<seq<byte>>)
    requires RootGate(e, d, expected) && RootPending(e, d) && |e.frames| == |d.open|
    requires d1 == d.(open := d.open + [c], tokens := d1.tokens) && d.root.None?
    requires |e1.frames| == |d1.open|
    requires e1 == e.(frames := e1.frames, headerDepth := e1.headerDepth, statusDepth := e1.statusDepth,
                      functionStatusSeen := e1.functionStatusSeen, statusValueSeen := e1.statusValueSeen)
    requires |d.open| == 1 && d.open[0].InObject? ==> d.open[0].key !in {TransactionName(), PackageName()}
    ensures RootGate(e1, d1, expected)
  {
    hide HeaderName, TransactionName, PackageName, HasKey, GoodMember, PackageNearlyLast;
    RootDeeper(e, d, e1, d1, expected);
  }

  lemma HeaderPushed(e: Fields, open: seq<Context>, e1: Fields, c: Context)
    requires HeaderGate(e, open) && open != []
    requires if |open| == 1 && KeyIs(open[0], HeaderName()) then c == InObject([], "") && e1.headerDepth == 2
      && !e1.functionStatusSeen
             else e1.headerDepth == e.headerDepth && e1.functionStatusSeen == e.functionStatusSeen
    requires e1.statusValueSeen == e.statusValueSeen || (|open| == 1 && KeyIs(open[0], HeaderName()))
      || (|open| == 2 && InHeader(open) && KeyIs(open[1], FunctionStatusName()))
    ensures HeaderGate(e1, open + [c])
  {
    hide HeaderName, FunctionStatusName, StatusOk;
    assert forall key :: !HasKey([], key);
  }

  lemma StatusPushed(e: Fields, open: seq<Context>, e1: Fields, c: Context)
    requires StatusGate(e, open) && open != []
    requires if |open| == 2 && InHeader(open) && KeyIs(open[1], FunctionStatusName())
             then c == InObject([], "") && e1.statusDepth == 3 && !e1.statusValueSeen
             else e1.statusDepth == e.statusDepth && (|open| >= 3 ==> e1.statusValueSeen == e.statusValueSeen)
    requires |open| == 3 && InStatus(open) ==> !KeyIs(open[2], StatusName())
    ensures StatusGate(e1, open + [c])
  {
    hide HeaderName, FunctionStatusName, StatusName, Success;
    assert forall key :: !HasKey([], key);
  }

  function Pushed(e: Fields, c: Context, f: Frame): Fields
    requires e.frames != []
  {
    var m := Marked(e, AfterValue(c));
    m.(frames := m.frames + [f])
  }

  lemma PushText(e: Fields, d: Reading, f: Frame, c: Context, t: Token, hash: string -> nat)
    requires StackAgrees(e.frames, d.open, hash) && TextAgrees(e, d) && e.frames != []
    requires AwaitsValue(TopState(e.frames))
    requires |e.frames| < MAX_DEPTH
    requires (f == NEW_OBJECT && c == InObject([], "") && t == BeginObject)
      || (f == NEW_ARRAY && c == InArray([]) && t == BeginArray)
    ensures var e1, d1 := Pushed(e, Top(d.open), f), Seen(d, t).(open := d.open + [c]);
            StackAgrees(e1.frames, d1.open, hash) && TextAgrees(e1, d1)
  {
    hide ReadAll, HasKey;
    var n := |d.open|;
    TopAgrees(e, d, hash);
    CoveredAgrees(e.frames[n - 1], Top(d.open), hash);
    ContainerOpened(d.open, TopState(e.frames), c, f.state, t);
    assert c.InObject? ==> Recorded([], hash) == [];
    StackPush(e.frames, d.open, WithState(e.frames[n - 1], AfterValue(Top(d.open))), f, c, hash);
  }

  /** A container is opened as the next value. */
  lemma ContainerRead(e: Fields, d: Reading, f: Frame, c: Context, t: Token, e1: Fields, expected: Option<seq<byte>>,
    hash: string -> nat)
    requires InStep(e, d, expected, hash) && e.frames != [] && AwaitsValue(TopState(e.frames)) && |e.frames| < MAX_DEPTH
    requires (f == NEW_OBJECT && c == InObject([], "") && t == BeginObject)
      || (f == NEW_ARRAY && c == InArray([]) && t == BeginArray)
    requires e1 == Pushed(e, Top(d.open), f).(
      headerDepth := e1.headerDepth, statusDepth := e1.statusDepth,
      functionStatusSeen := e1.functionStatusSeen, statusValueSeen := e1.statusValueSeen)
    requires |d.open| == 1 && d.open[0].InObject? ==> d.open[0].key !in {TransactionName(), PackageName()}
    requires |d.open| == 3 && InStatus(d.open) ==> !KeyIs(d.open[2], StatusName())
    requires if |d.open| == 1 && KeyIs(d.open[0], HeaderName()) then c.InObject? && e1.headerDepth == 2
      && !e1.functionStatusSeen
             else e1.headerDepth == e.headerDepth && e1.functionStatusSeen == e.functionStatusSeen
    requires if |d.open| == 2 && InHeader(d.open) && KeyIs(d.open[1], FunctionStatusName())
             then c.InObject? && e1.statusDepth == 3 && !e1.statusValueSeen
             else (e1.statusDepth == e.statusDepth
               && (e1.statusValueSeen == e.statusValueSeen
                 || (|d.open| == 1 && KeyIs(d.open[0], HeaderName()) && !e1.statusValueSeen)))
    ensures InStep(e1, Seen(d, t).(open := d.open + [c]), expected, hash)
  {
    hide HeaderName, TransactionName, PackageName, FunctionStatusName, StatusName, Success, ReadAll, ProperSoFar,
      RootGate, HeaderGate, StatusGate, HasKey, GoodMember, StatusOk, StackAgrees, Tokens;
    SameDepth(e, d, hash);
    PushText(e, d, f, c, t, hash);
    RootIsPending(e, d, hash);
    RootPushed(e, d, e1, Seen(d, t).(open := d.open + [c]), c, expected);
    HeaderPushed(e, d.open, e1, c);
    StatusPushed(e, d.open, e1, c);
  }

  lemma RootIsPending(e: Fields, d: Reading, hash: string -> nat)
    requires StackAgrees(e.frames, d.open, hash) && TextAgrees(e, d) && d.open != []
    requires |d.open| > 1 || AwaitsValue(TopState(e.frames))
    ensures RootPending(e, d) && |e.frames| == |d.open|
    ensures !HasKey(d.open[0].members, d.open[0].key)
  {
    hide Proper, HasKey;
    assert FrameAgrees(e.frames[0], d.open[0], 0 == |d.open| - 1, hash);
  }

  function Popped(e: Fields): Fields
    requires e.frames != []
  {
    e.(frames := e.frames[..|e.frames| - 1])
  }

  lemma PopText(e: Fields, d: Reading, hash: string -> nat)
    requires StackAgrees(e.frames, d.open, hash) && TextAgrees(e, d) && |d.open| >= 2 && MayEnd(TopState(e.frames))
    ensures var v, t := Whole(Top(d.open)), EndToken(Top(d.open));
            var e1, d1 := Popped(e), Seen(d, t).(open := Fill(d.open, |d.open| - 2, v));
            && StackAgrees(e1.frames, d1.open, hash) && TextAgrees(e1, d1)
            && TopState(e1.frames) == AfterValue(d.open[|d.open| - 2])
  {
    hide ReadAll, HasKey, Proper;
    var n := |d.open|;
    var v, p := Whole(Top(d.open)), d.open[n - 2];
    TopAgrees(e, d, hash);
    assert FrameAgrees(e.frames[n - 2], d.open[n - 2], false, hash);
    UncoveredAgrees(e.frames[n - 2], p, v, hash);
    StackPop(e.frames, d.open, Filled(p, v), hash);
    ContainerClosed(d.open, TopState(e.frames));
    assert Fill(d.open, n - 2, v) == SetTop(Under(d.open), Filled(p, v)) == Under(Under(d.open)) + [Filled(p, v)];
    assert TopState(Popped(e).frames) == AfterValue(p);
  }

  /** The innermost container ends, and is a complete value of the one around it. */
  lemma ContainerEnded(e: Fields, d: Reading, e1: Fields, expected: Option<seq<byte>>, hash: string -> nat)
    requires InStep(e, d, expected, hash) && |e.frames| >= 2 && MayEnd(TopState(e.frames))
    requires e1 == Popped(e).(
      headerDepth := e1.headerDepth, statusDepth := e1.statusDepth, functionStatusSeen := e1.functionStatusSeen,
        statusSeen := e1.statusSeen)
    requires e1.statusDepth == (if e.statusDepth == |e.frames| then 0 else e.statusDepth)
    requires e1.headerDepth == (if e.headerDepth == |e.frames| then 0 else e.headerDepth)
    requires e1.functionStatusSeen == (e.functionStatusSeen || e.statusDepth == |e.frames|)
    requires e.statusDepth == |e.frames| ==> e.statusValueSeen
    requires e1.statusSeen == (e.statusSeen || e.headerDepth == |e.frames|)
    requires e.headerDepth == |e.frames| ==> e1.functionStatusSeen
    ensures InStep(e1, Seen(d, EndToken(Top(d.open))).(open := Fill(d.open, |d.open| - 2, Whole(Top(d.open)))),
      expected, hash)
  {
    hide HeaderName, TransactionName, PackageName, FunctionStatusName, StatusName, Success, ReadAll, ProperSoFar,
      RootGate, HeaderGate, StatusGate, HasKey, GoodMember, StatusOk, StackAgrees, Tokens;
    SameDepth(e, d, hash);
    var n, v := |d.open|, Whole(Top(d.open));
    var d1 := Seen(d, EndToken(Top(d.open))).(open := Fill(d.open, n - 2, v));
    PopText(e, d, hash);
    SameDepth(e1, d1, hash);
    RootIsPending(e, d, hash);
    Depths(e, d.open);
    HeaderEnded(e, d.open, e1, v);
    StatusEnded(e, d.open, e1, v);
    if n == 2 {
      RootEnded(e, d, e1, d1, v, expected);
    } else {
      RootDeeper(e, d, e1, d1, expected);
    }
  }

  lemma Depths(e: Fields, open: seq<Context>)
    requires HeaderGate(e, open) && StatusGate(e, open)
    ensures e.headerDepth in {0, 2} && e.statusDepth in {0, 3}
  {
  }

  lemma HeaderEnded(e: Fields, open: seq<Context>, e1: Fields, v: Json)
    requires HeaderGate(e, open) && StatusGate(e, open) && |open| >= 2 && v == Whole(Top(open))
    requires e1.headerDepth == (if e.headerDepth == |open| then 0 else e.headerDepth)
    requires e1.functionStatusSeen == (e.functionStatusSeen || e.statusDepth == |open|)
    requires e1.statusValueSeen == e.statusValueSeen
    requires e.statusDepth == |open| ==> e.statusValueSeen
    ensures HeaderGate(e1, Fill(open, |open| - 2, v))
  {
    hide HeaderName, FunctionStatusName, StatusName, Success, HasKey;
    var k := |open| - 2;
    if k == 1 && InHeader(open) && KeyIs(open[1], FunctionStatusName()) {
      StatusIsGood(e, open);
    }
    HeaderFilled(e, open, e1, k, v);
  }

  lemma StatusIsGood(e: Fields, open: seq<Context>)
    requires StatusGate(e, open) && InStatus(open) && e.statusValueSeen
    ensures StatusOk(Whole(open[2]))
  {
    hide HeaderName, FunctionStatusName, StatusName, Success;
    var i :| 0 <= i < |open[2].members| && open[2].members[i].key == StatusName();
    assert open[2].members[i] in open[2].members;
  }

  lemma HeaderIsGood(e: Fields, open: seq<Context>)
    requires HeaderGate(e, open) && InHeader(open) && e.functionStatusSeen
    ensures HeaderOk(Whole(open[1]))
  {
    hide HeaderName, FunctionStatusName, StatusOk;
    var i :| 0 <= i < |open[1].members| && open[1].members[i].key == FunctionStatusName();
    assert open[1].members[i] in open[1].members;
  }

  lemma StatusEnded(e: Fields, open: seq<Context>, e1: Fields, v: Json)
    requires StatusGate(e, open) && |open| >= 2 && v == Whole(Top(open))
    requires e1.statusDepth == (if e.statusDepth == |open| then 0 else e.statusDepth)
    requires e1.statusValueSeen == e.statusValueSeen
    ensures StatusGate(e1, Fill(open, |open| - 2, v))
  {
    hide HeaderName, FunctionStatusName, StatusName, Success, HasKey;
    StatusFilled(e, open, e1, |open| - 2, v);
  }

  /** The value of a root member that is an object or an array is complete. */
  lemma RootEnded(e: Fields, d: Reading, e1: Fields, d1: Reading, v: Json, expected: Option<seq<byte>>)
    requires RootGate(e, d, expected) && HeaderGate(e, d.open) && d.root.None? && RootPending(e, d) && |d.open| == 2
    requires d.open[0].InObject? && !HasKey(d.open[0].members, d.open[0].key) && v == Whole(d.open[1])
    requires d1 == d.(open := [Filled(d.open[0], v)], tokens := d1.tokens)
    requires |e1.frames| == 1 && e1.frames[0].state == ObjectAfterValue
    requires e1.bppSeen == e.bppSeen && e1.transactionSeen == e.transactionSeen
    requires e1.statusSeen == (e.statusSeen || e.headerDepth == 2)
    requires e.headerDepth == 2 ==> e.functionStatusSeen
    ensures RootGate(e1, d1, expected)
  {
    hide TransactionName, PackageName, HasKey, PackageNearlyLast, HeaderOk, TransactionOk;
    if InHeader(d.open) { HeaderIsGood(e, d.open); }
    RootFilled(e, d, e1, d1, v, expected);
  }

  /** The root object ends: the document is complete. */
  lemma DocumentEnded(e: Fields, d: Reading, expected: Option<seq<byte>>, hash: string -> nat)
    requires InStep(e, d, expected, hash) && |e.frames| == 1 && TopState(e.frames) in {ObjectKeyOrEnd, ObjectAfterValue}
    ensures e.headerDepth == 0 == e.statusDepth
    ensures InStep(Popped(e).(rootDone := true), Seen(d, EndObject).(open := [], root := Some(Whole(Top(d.open)))),
      expected, hash)
  {
    hide HeaderName, TransactionName, PackageName, FunctionStatusName, StatusName, Success, ReadAll, Proper, Tokens,
      HasKey, GoodMember, StatusOk;
    TopAgrees(e, d, hash);
    ContainerClosed(d.open, TopState(e.frames));
    var d1 := Seen(d, EndObject).(open := [], root := Some(Whole(Top(d.open))));
    assert RootMembers(d1) == RootMembers(d);
  }

  // Where the firmware looks a member up by its path.

  predicate RootMemberIs(frames: seq<Frame>, name: string) { |frames| == 1 && frames[0].key == name }

  predicate HeaderMemberIs(frames: seq<Frame>, name: string) {
    |frames| == 2 && frames[0].key == HeaderName() && frames[1].key == name
  }

  predicate StatusMemberIs(frames: seq<Frame>, name: string) {
    |frames| == 3 && frames[0].key == HeaderName() && frames[1].key == FunctionStatusName() && frames[2].key == name
  }

  /** The keys in the frames name the path to the value in progress. */
  lemma PathIs(e: Fields, d: Reading, expected: Option<seq<byte>>, hash: string -> nat, name: string)
    requires InStep(e, d, expected, hash) && name != ""
    ensures RootMemberIs(e.frames, name) <==> |d.open| == 1 && KeyIs(d.open[0], name)
    ensures HeaderMemberIs(e.frames, name) <==> |d.open| == 2 && InHeader(d.open) && KeyIs(d.open[1], name)
    ensures StatusMemberIs(e.frames, name) <==> |d.open| == 3 && InStatus(d.open) && KeyIs(d.open[2], name)
  {
    hide HeaderName, FunctionStatusName, StatusName, Success, Proper, HasKey, RootGate, StatusOk, Tokens, ReadAll;
    forall i | 0 <= i < |d.open|
      ensures e.frames[i].key == if d.open[i].InObject? then d.open[i].key else ""
    {
      assert FrameAgrees(e.frames[i], d.open[i], i == |d.open| - 1, hash);
    }
  }

  lemma NamesAreNames()
    ensures HeaderName() != "" && TransactionName() != "" && PackageName() != ""
    ensures FunctionStatusName() != "" && StatusName() != ""
  {
    assert |HeaderName()| > 0 && |TransactionName()| > 0 && |PackageName()| > 0;
    assert |FunctionStatusName()| > 0 && |StatusName()| > 0;
  }

  /** The five members that the firmware looks for, and where it is when it finds one. */
  lemma PathsAre(e: Fields, d: Reading, expected: Option<seq<byte>>, hash: string -> nat)
    requires InStep(e, d, expected, hash)
    ensures |e.frames| == |d.open|
    ensures RootMemberIs(e.frames, HeaderName()) <==> |d.open| == 1 && KeyIs(d.open[0], HeaderName())
    ensures RootMemberIs(e.frames, TransactionName()) <==> |d.open| == 1 && KeyIs(d.open[0], TransactionName())
    ensures RootMemberIs(e.frames, PackageName()) <==> |d.open| == 1 && KeyIs(d.open[0], PackageName())
    ensures HeaderMemberIs(e.frames, FunctionStatusName()) <==>
      |d.open| == 2 && InHeader(d.open) && KeyIs(d.open[1], FunctionStatusName())
    ensures StatusMemberIs(e.frames, StatusName()) <==>
      |d.open| == 3 && InStatus(d.open) && KeyIs(d.open[2], StatusName())
  {
    NamesAreNames();
    SameDepth(e, d, hash);
    hide InStep, RootMemberIs, HeaderMemberIs, StatusMemberIs, HeaderName, TransactionName, PackageName,
      FunctionStatusName, StatusName;
    PathIs(e, d, expected, hash, HeaderName());
    PathIs(e, d, expected, hash, TransactionName());
    PathIs(e, d, expected, hash, PackageName());
    PathIs(e, d, expected, hash, FunctionStatusName());
    PathIs(e, d, expected, hash, StatusName());
  }
}
