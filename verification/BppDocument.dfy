/** JSON documents as trees, their token sequences, and documents that are still being read. */
module BppDocument {

  datatype Json = Object(members: seq<Member>) | Array(elements: seq<Json>) | Text(text: string) | Other

  datatype Member = Member(key: string, value: Json)

  datatype Token = BeginObject | EndObject | BeginArray | EndArray | Colon | Comma | Str(text: string) | Primitive

  function Tokens(j: Json): (r: seq<Token>)
    decreases j
  {
    match j
    case Object(ms) => [BeginObject] + MemberTokens(ms) + [EndObject]
    case Array(es) => [BeginArray] + ElementTokens(es) + [EndArray]
    case Text(s) => [Str(s)]
    case Other => [Primitive]
  }

  function MemberTokens(ms: seq<Member>): (r: seq<Token>)
    decreases ms
  {
    if ms == [] then [] else
      var n := |ms| - 1;
      (if n == 0 then [] else MemberTokens(ms[..n]) + [Comma]) + [Str(ms[n].key), Colon] + Tokens(ms[n].value)
  }

  function ElementTokens(es: seq<Json>): (r: seq<Token>)
    decreases es
  {
    if es == [] then [] else
      var n := |es| - 1;
      (if n == 0 then [] else ElementTokens(es[..n]) + [Comma]) + Tokens(es[n])
  }

  /** Where an open object or array is, as the firmware's frames record it. */
  datatype FrameState =
    | ObjectKeyOrEnd | ObjectNeedKey | ObjectColon | ObjectValue | ObjectAfterValue
    | ArrayValueOrEnd | ArrayValue | ArrayAfterValue

  /** An object or array that is still open: what it holds, and the key of the member in progress. */
  datatype Context = InObject(members: seq<Member>, key: string) | InArray(elements: seq<Json>)

  function Lead(ms: seq<Member>): seq<Token> { if ms == [] then [] else MemberTokens(ms) + [Comma] }

  function LeadElements(es: seq<Json>): seq<Token> { if es == [] then [] else ElementTokens(es) + [Comma] }

  /** The tokens of an open container whose next value has not been completed. */
  function Waiting(c: Context): seq<Token> {
    match c
    case InObject(ms, key) => [BeginObject] + Lead(ms) + [Str(key), Colon]
    case InArray(es) => [BeginArray] + LeadElements(es)
  }

  /** The tokens of the innermost open container. */
  function Read(c: Context, s: FrameState): seq<Token> {
    match c
    case InObject(ms, key) => (
      match s
      case ObjectColon => [BeginObject] + Lead(ms) + [Str(key)]
      case ObjectValue => Waiting(c)
      case ObjectNeedKey => [BeginObject] + MemberTokens(ms) + [Comma]
      case _ => [BeginObject] + MemberTokens(ms))
    case InArray(es) => (
      match s
      case ArrayValue => [BeginArray] + ElementTokens(es) + [Comma]
      case _ => [BeginArray] + ElementTokens(es))
  }

  predicate Matches(c: Context, s: FrameState) {
    match s
    case ObjectKeyOrEnd => c.InObject? && c.members == []
    case ObjectNeedKey => c.InObject? && c.members != []
    case ObjectColon => c.InObject?
    case ObjectValue => c.InObject?
    case ObjectAfterValue => c.InObject? && c.members != []
    case ArrayValueOrEnd => c.InArray? && c.elements == []
    case ArrayValue => c.InArray? && c.elements != []
    case ArrayAfterValue => c.InArray? && c.elements != []
  }

  function Waits(cs: seq<Context>): seq<Token> {
    if cs == [] then [] else Waits(cs[..|cs| - 1]) + Waiting(cs[|cs| - 1])
  }

  /** Everything read while containers are open. */
  function ReadAll(cs: seq<Context>, s: FrameState): seq<Token> {
    if cs == [] then [] else Waits(cs[..|cs| - 1]) + Read(cs[|cs| - 1], s)
  }

  function Filled(c: Context, v: Json): Context {
    match c
    case InObject(ms, key) => InObject(ms + [Member(key, v)], key)
    case InArray(es) => InArray(es + [v])
  }

  function AfterValue(c: Context): FrameState { if c.InObject? then ObjectAfterValue else ArrayAfterValue }

  function Whole(c: Context): Json {
    match c
    case InObject(ms, _) => Object(ms)
    case InArray(es) => Array(es)
  }

  function EndToken(c: Context): Token { if c.InObject? then EndObject else EndArray }

  predicate AwaitsValue(s: FrameState) { s in {ObjectValue, ArrayValueOrEnd, ArrayValue} }

  predicate MayEnd(s: FrameState) { s in {ObjectKeyOrEnd, ObjectAfterValue, ArrayValueOrEnd, ArrayAfterValue} }

  function Top(cs: seq<Context>): Context
    requires cs != []
  {
    cs[|cs| - 1]
  }

  function Under(cs: seq<Context>): seq<Context>
    requires cs != []
  {
    cs[..|cs| - 1]
  }

  lemma MembersGrow(ms: seq<Member>, key: string, v: Json)
    ensures MemberTokens(ms + [Member(key, v)]) == Lead(ms) + [Str(key), Colon] + Tokens(v)
  {
    hide Tokens;
    assert (ms + [Member(key, v)])[..|ms|] == ms;
  }

  lemma ElementsGrow(es: seq<Json>, v: Json)
    ensures ElementTokens(es + [v]) == LeadElements(es) + Tokens(v)
  {
    hide Tokens;
    assert (es + [v])[..|es|] == es;
  }

  lemma FillTokens(c: Context, v: Json)
    ensures Read(Filled(c, v), AfterValue(c)) == Waiting(c) + Tokens(v)
    ensures Matches(Filled(c, v), AfterValue(c))
  {
    hide Tokens, MemberTokens, ElementTokens, Lead, LeadElements;
    match c
    case InObject(ms, key) =>
      MembersGrow(ms, key, v);
      assert [BeginObject] + Lead(ms) + [Str(key), Colon] + Tokens(v)
          == [BeginObject] + (Lead(ms) + [Str(key), Colon] + Tokens(v));
    case InArray(es) =>
      ElementsGrow(es, v);
      assert [BeginArray] + LeadElements(es) + Tokens(v) == [BeginArray] + (LeadElements(es) + Tokens(v));
  }

  lemma WaitingIsRead(c: Context, s: FrameState)
    requires Matches(c, s) && AwaitsValue(s)
    ensures Waiting(c) == Read(c, s)
  {
    hide Tokens;
  }

  /** A value that is one token completes the member or element it belongs to. */
  lemma ValueRead(cs: seq<Context>, s: FrameState, v: Json)
    requires cs != [] && Matches(Top(cs), s) && AwaitsValue(s)
    ensures ReadAll(Under(cs) + [Filled(Top(cs), v)], AfterValue(Top(cs))) == ReadAll(cs, s) + Tokens(v)
    ensures Matches(Filled(Top(cs), v), AfterValue(Top(cs)))
  {
    hide Tokens, Read, Waiting;
    FillTokens(Top(cs), v);
    WaitingIsRead(Top(cs), s);
    var ds := Under(cs) + [Filled(Top(cs), v)];
    assert ds[..|ds| - 1] == Under(cs);
    assert Waits(Under(cs)) + (Read(Top(cs), s) + Tokens(v)) == ReadAll(cs, s) + Tokens(v);
  }

  lemma KeyRead(cs: seq<Context>, s: FrameState, key: string)
    requires cs != [] && Matches(Top(cs), s) && s in {ObjectKeyOrEnd, ObjectNeedKey}
    ensures ReadAll(Under(cs) + [Top(cs).(key := key)], ObjectColon) == ReadAll(cs, s) + [Str(key)]
  {
    hide Tokens;
    var c := Top(cs).(key := key);
    var ds := Under(cs) + [c];
    assert ds[..|ds| - 1] == Under(cs);
    assert Read(c, ObjectColon) == Read(Top(cs), s) + [Str(key)];
    assert Waits(Under(cs)) + (Read(Top(cs), s) + [Str(key)]) == ReadAll(cs, s) + [Str(key)];
  }

  /** A colon, or a comma, moves the innermost container on. */
  lemma MarkRead(cs: seq<Context>, s: FrameState, t: Token, next: FrameState)
    requires cs != [] && Matches(Top(cs), s)
    requires (s == ObjectColon && t == Colon && next == ObjectValue)
          || (s == ObjectAfterValue && t == Comma && next == ObjectNeedKey)
          || (s == ArrayAfterValue && t == Comma && next == ArrayValue)
    ensures ReadAll(cs, next) == ReadAll(cs, s) + [t] && Matches(Top(cs), next)
  {
    hide Tokens, MemberTokens, ElementTokens;
    assert Read(Top(cs), next) == Read(Top(cs), s) + [t];
    assert Waits(Under(cs)) + (Read(Top(cs), s) + [t]) == ReadAll(cs, s) + [t];
  }

  lemma ContainerOpened(cs: seq<Context>, s: FrameState, c: Context, next: FrameState, t: Token)
    requires cs != [] ==> Matches(Top(cs), s) && AwaitsValue(s)
    requires (c == InObject([], "") && next == ObjectKeyOrEnd && t == BeginObject)
          || (c == InArray([]) && next == ArrayValueOrEnd && t == BeginArray)
    ensures ReadAll(cs + [c], next) == ReadAll(cs, s) + [t] && Matches(c, next)
  {
    hide Tokens, Waiting;
    var ds := cs + [c];
    assert ds[..|ds| - 1] == cs;
    assert Read(c, next) == [t];
    if cs != [] { WaitingIsRead(Top(cs), s); }
  }

  lemma ContainerClosed(cs: seq<Context>, s: FrameState)
    requires cs != [] && Matches(Top(cs), s) && MayEnd(s)
    ensures |cs| == 1 ==> Tokens(Whole(Top(cs))) == ReadAll(cs, s) + [EndToken(Top(cs))]
    ensures |cs| > 1 ==>
      var p := Top(Under(cs));
      && ReadAll(Under(Under(cs)) + [Filled(p, Whole(Top(cs)))], AfterValue(p)) == ReadAll(cs, s) + [EndToken(Top(cs))]
      && Matches(Filled(p, Whole(Top(cs))), AfterValue(p))
  {
    hide MemberTokens, ElementTokens, Waiting;
    var c := Top(cs);
    assert Tokens(Whole(c)) == Read(c, s) + [EndToken(c)] by { WholeTokens(c, s); }
    if |cs| > 1 {
      var p := Top(Under(cs));
      FillTokens(p, Whole(c));
      var ds := Under(Under(cs)) + [Filled(p, Whole(c))];
      assert ds[..|ds| - 1] == Under(Under(cs));
      assert Waits(Under(cs)) == Waits(Under(Under(cs))) + Waiting(p);
      Regroup(Waits(Under(Under(cs))), Waiting(p), Read(c, s), [EndToken(c)]);
    } else {
      assert Waits(Under(cs)) + Read(c, s) == Read(c, s);
    }
  }

  lemma WholeTokens(c: Context, s: FrameState)
    requires Matches(c, s) && MayEnd(s)
    ensures Tokens(Whole(c)) == Read(c, s) + [EndToken(c)]
  {
    hide MemberTokens, ElementTokens, Waiting;
  }

  lemma Regroup<T>(a: seq<T>, b: seq<T>, c: seq<T>, d: seq<T>)
    ensures a + (b + (c + d)) == (a + b) + c + d
  {
  }

  // ----- keys -----

  predicate HasKey(ms: seq<Member>, key: string) { exists i :: 0 <= i < |ms| && ms[i].key == key }

  predicate DistinctKeys(ms: seq<Member>) {
    forall i, k :: 0 <= i < k < |ms| ==> ms[i].key != ms[k].key
  }

  /** No object in the document, at any depth, repeats a key. */
  predicate Proper(j: Json)
    decreases j
  {
    match j
    case Object(ms) => DistinctKeys(ms) && forall m | m in ms :: Proper(m.value)
    case Array(es) => forall e | e in es :: Proper(e)
    case _ => true
  }

  predicate ProperSoFar(c: Context) { Proper(Whole(c)) }

  lemma FilledIsProper(c: Context, v: Json)
    requires ProperSoFar(c) && Proper(v) && (c.InObject? ==> !HasKey(c.members, c.key))
    ensures ProperSoFar(Filled(c, v))
  {
    match c
    case InObject(ms, key) =>
      var grown := ms + [Member(key, v)];
      forall i, k | 0 <= i < k < |grown| ensures grown[i].key != grown[k].key {
        if k == |ms| { assert !HasKey(ms, key); }
      }
    case InArray(es) =>
  }
}
