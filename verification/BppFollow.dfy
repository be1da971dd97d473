/**
 * An envelope that is still to come, for a reader that is fed the tokens of one that it must take: the invariant
 * behind the promise that no such envelope is refused.
 */
module BppFollow {
  import opened Bytes
  import opened BppDocument
  import opened BppGate

  // ----- the document reader, without its checks -----

  /** The containers that are open, where the innermost one is, and the root once it is complete. */
  datatype Doc = Doc(open: seq<Context>, state: FrameState, root: Option<Json>)

  function DocOf(e: Fields, d: Reading): Doc { Doc(d.open, TopState(e.frames), d.root) }

  function Opened(doc: Doc, c: Context): Doc {
    doc.(open := doc.open + [c], state := if c.InObject? then ObjectKeyOrEnd else ArrayValueOrEnd)
  }

  function Valued(doc: Doc, v: Json): Doc
    requires doc.open != []
  {
    doc.(open := Fill(doc.open, |doc.open| - 1, v), state := AfterValue(Top(doc.open)))
  }

  function Closed(doc: Doc): Doc
    requires doc.open != []
  {
    var v, n := Whole(Top(doc.open)), |doc.open|;
    if n == 1 then Doc([], ObjectKeyOrEnd, Some(v))
    else doc.(open := Fill(doc.open, n - 2, v), state := AfterValue(doc.open[n - 2]))
  }

  function Named(doc: Doc, key: string): Doc
    requires doc.open != []
  {
    doc.(open := SetTop(doc.open, if Top(doc.open).InObject? then Top(doc.open).(key := key) else Top(doc.open)),
      state := ObjectColon)
  }

  function ValueStep(doc: Doc, t: Token): Doc
    requires doc.open != []
  {
    match t
    case BeginObject => Opened(doc, InObject([], ""))
    case BeginArray => Opened(doc, InArray([]))
    case Str(s) => Valued(doc, Text(s))
    case _ => Valued(doc, Other)
  }

  /** One token, if it is one that may come here. */
  function DocStep(doc: Doc, t: Token): Doc {
    if doc.open == [] then Opened(doc, InObject([], "")) else
      match doc.state
      case ObjectKeyOrEnd => if t.Str? then Named(doc, t.text) else Closed(doc)
      case ObjectNeedKey => if t.Str? then Named(doc, t.text) else doc
      case ObjectColon => doc.(state := ObjectValue)
      case ObjectValue => ValueStep(doc, t)
      case ObjectAfterValue => if t == EndObject then Closed(doc) else doc.(state := ObjectNeedKey)
      case ArrayValueOrEnd => if t == EndArray then Closed(doc) else ValueStep(doc, t)
      case ArrayValue => ValueStep(doc, t)
      case ArrayAfterValue => if t == EndArray then Closed(doc) else doc.(state := ArrayValue)
  }

  // ----- a document in progress, inside the whole one -----

  /** The container holds a start of the value. */
  predicate Begun(c: Context, v: Json) {
    match c
    case InObject(ms, _) => v.Object? && ms <= v.members
    case InArray(es) => v.Array? && es <= v.elements
  }

  /** And the member or element in progress is the next one of the value. */
  predicate Within(c: Context, v: Json) {
    match c
    case InObject(ms, key) => v.Object? && ms < v.members && v.members[|ms|].key == key
    case InArray(es) => v.Array? && es < v.elements
  }

  /** That member's or element's value. */
  function Child(c: Context, v: Json): Json {
    match c
    case InObject(ms, _) => if v.Object? && |ms| < |v.members| then v.members[|ms|].value else Other
    case InArray(es) => if v.Array? && |es| < |v.elements| then v.elements[|es|] else Other
  }

  /** What the container at place `i` becomes, in a document that becomes `j`. */
  function Goal(open: seq<Context>, i: nat, j: Json): Json
    requires i <= |open|
  {
    if i == 0 then j else Child(open[i - 1], Goal(open, i - 1, j))
  }

  predicate TopWithin(c: Context, s: FrameState, v: Json) {
    && Begun(c, v) && Matches(c, s)
    && (s == ObjectNeedKey ==> v.Object? && |c.members| < |v.members|)
    && (s == ArrayValue ==> v.Array? && |c.elements| < |v.elements|)
    && (s in {ObjectColon, ObjectValue} ==> Within(c, v))
  }

  predicate Inside(open: seq<Context>, s: FrameState, j: Json) {
    && open != [] && (forall i | 0 <= i < |open| - 1 :: Within(open[i], Goal(open, i, j)))
    && TopWithin(Top(open), s, Goal(open, |open| - 1, j))
  }

  predicate Follows(doc: Doc, j: Json) {
    if doc.root.Some? then doc.root.value == j && doc.open == [] else doc.open == [] || Inside(doc.open, doc.state, j)
  }

  lemma GoalOf(a: seq<Context>, b: seq<Context>, i: nat, j: Json)
    requires i <= |a| && i <= |b| && a[..i] == b[..i]
    ensures Goal(a, i, j) == Goal(b, i, j)
  {
    if i > 0 {
      assert a[..i][i - 1] == b[..i][i - 1] && a[..i - 1] == a[..i][..i - 1] && b[..i - 1] == b[..i][..i - 1];
      GoalOf(a, b, i - 1, j);
    }
  }

  /** Another innermost container. */
  lemma InsideTop(a: seq<Context>, b: seq<Context>, s: FrameState, t: FrameState, j: Json)
    requires Inside(a, s, j) && b != [] && |b| <= |a| && b[..|b| - 1] == a[..|b| - 1]
    requires TopWithin(Top(b), t, Goal(b, |b| - 1, j))
    ensures Inside(b, t, j)
  {
    hide Within, TopWithin;
    forall i | 0 <= i < |b| - 1 ensures Within(b[i], Goal(b, i, j)) {
      assert b[i] == b[..|b| - 1][i] == a[i] && b[..i] == b[..|b| - 1][..i] && a[..i] == a[..|b| - 1][..i];
      GoalOf(a, b, i, j);
    }
  }

  // ----- the next token -----

  function FirstOf(v: Json): Token {
    match v
    case Object(_) => BeginObject
    case Array(_) => BeginArray
    case Text(s) => Str(s)
    case Other => Primitive
  }

  /** The token that comes next in the innermost container. */
  function NextOf(c: Context, s: FrameState, v: Json): Token {
    match c
    case InObject(ms, _) => (
      var more := v.Object? && |ms| < |v.members|;
      match s
      case ObjectColon => Colon
      case ObjectValue => FirstOf(Child(c, v))
      case ObjectAfterValue => if more then Comma else EndObject
      case _ => if more then Str(v.members[|ms|].key) else EndObject)
    case InArray(es) => (
      var more := v.Array? && |es| < |v.elements|;
      match s
      case ArrayAfterValue => if more then Comma else EndArray
      case _ => if more then FirstOf(Child(c, v)) else EndArray)
  }

  lemma FirstToken(v: Json) returns (rest: seq<Token>)
    ensures Tokens(v) == [FirstOf(v)] + rest
  {
    rest := Tokens(v)[1..];
  }

  /** What is left of the members after the first `k` of them. */
  lemma {:induction false} MembersFrom(ms: seq<Member>, k: nat) returns (rest: seq<Token>)
    requires k <= |ms|
    ensures if k == |ms| then rest == [] && MemberTokens(ms) == MemberTokens(ms[..k])
            else MemberTokens(ms) == Lead(ms[..k]) + [Str(ms[k].key), Colon] + Tokens(ms[k].value) + rest
  {
    hide Tokens;
    var n := |ms| - 1;
    if k == |ms| {
      assert ms[..k] == ms;
      rest := [];
    } else if k == n {
      rest := [];
      assert Lead(ms[..k]) + [Str(ms[k].key), Colon] + Tokens(ms[k].value) + [] == MemberTokens(ms);
    } else {
      assert ms[..n][..k] == ms[..k];
      var more := MembersFrom(ms[..n], k);
      rest := more + [Comma] + [Str(ms[n].key), Colon] + Tokens(ms[n].value);
      assert MemberTokens(ms) == Lead(ms[..k]) + [Str(ms[k].key), Colon] + Tokens(ms[k].value) + rest;
    }
  }

  lemma {:induction false} ElementsFrom(es: seq<Json>, k: nat) returns (rest: seq<Token>)
    requires k <= |es|
    ensures if k == |es| then rest == [] && ElementTokens(es) == ElementTokens(es[..k])
            else ElementTokens(es) == LeadElements(es[..k]) + Tokens(es[k]) + rest
  {
    hide Tokens;
    var n := |es| - 1;
    if k == |es| {
      assert es[..k] == es;
      rest := [];
    } else if k == n {
      rest := [];
      assert LeadElements(es[..k]) + Tokens(es[k]) + [] == ElementTokens(es);
    } else {
      assert es[..n][..k] == es[..k];
      var more := ElementsFrom(es[..n], k);
      rest := more + [Comma] + Tokens(es[n]);
      assert ElementTokens(es) == LeadElements(es[..k]) + Tokens(es[k]) + rest;
    }
  }

  /** The innermost value, from the place where the reader is. */
  lemma TopRest(c: Context, s: FrameState, v: Json) returns (rest: seq<Token>)
    requires TopWithin(c, s, v)
    ensures Tokens(v) == Read(c, s) + [NextOf(c, s, v)] + rest
  {
    hide Tokens, MemberTokens, ElementTokens;
    if c.InObject? { rest := ObjectRest(c, s, v); } else { rest := ArrayRest(c, s, v); }
  }

  lemma ObjectRest(c: Context, s: FrameState, v: Json) returns (rest: seq<Token>)
    requires TopWithin(c, s, v) && c.InObject?
    ensures Tokens(v) == Read(c, s) + [NextOf(c, s, v)] + rest
  {
    hide MemberTokens;
    var all, k := v.members, |c.members|;
    assert c.members == all[..k];
    if k == |all| {
      var tail := MembersFrom(all, k);
      rest := [];
      assert Tokens(v) == [BeginObject] + MemberTokens(all) + [EndObject];
    } else {
      rest := MemberRest(c, s, v);
    }
  }

  lemma MemberRest(c: Context, s: FrameState, v: Json) returns (rest: seq<Token>)
    requires TopWithin(c, s, v) && c.InObject? && |c.members| < |v.members|
    ensures Tokens(v) == Read(c, s) + [NextOf(c, s, v)] + rest
  {
    hide MemberTokens, Tokens;
    var all, k := v.members, |c.members|;
    assert Within(c, v) ==> all[k].key == c.key;
    var lead, key, value := [BeginObject] + Lead(c.members), [Str(all[k].key)], Tokens(all[k].value);
    var later := ObjectFrom(c, v);
    if c.members == [] { NoMembers(); }
    if s == ObjectColon {
      rest := value + later;
      assert (lead + key) + [Colon] + rest == lead + key + [Colon] + value + later;
    } else if s == ObjectValue {
      var inner := FirstToken(all[k].value);
      rest := inner + later;
      assert lead + key + [Colon] + ([FirstOf(all[k].value)] + inner) + later
          == (lead + key + [Colon]) + [FirstOf(all[k].value)] + rest;
      assert lead + [Str(all[k].key), Colon] == lead + key + [Colon];
    } else if s == ObjectAfterValue {
      rest := key + [Colon] + value + later;
      assert lead == [BeginObject] + MemberTokens(c.members) + [Comma];
      assert lead + rest == lead + key + [Colon] + value + later;
    } else {
      rest := [Colon] + value + later;
      assert Read(c, s) == lead;
      assert lead + key + rest == lead + key + [Colon] + value + later;
    }
  }

  lemma ObjectFrom(c: Context, v: Json) returns (rest: seq<Token>)
    requires Begun(c, v) && c.InObject? && |c.members| < |v.members|
    ensures var m := v.members[|c.members|];
            Tokens(v) == ([BeginObject] + Lead(c.members)) + [Str(m.key)] + [Colon] + Tokens(m.value) + rest
  {
    hide MemberTokens, Lead;
    var all, k := v.members, |c.members|;
    assert c.members == all[..k];
    var tail := MembersFrom(all, k);
    rest := tail + [EndObject];
    var l, h, t := Lead(c.members), [Str(all[k].key), Colon], Tokens(all[k].value);
    assert Tokens(v) == [BeginObject] + (l + h + t + tail) + [EndObject];
    assert h == [Str(all[k].key)] + [Colon];
    assert [BeginObject] + (l + h + t + tail) + [EndObject]
        == ([BeginObject] + l) + [Str(all[k].key)] + [Colon] + t + (tail + [EndObject]);
  }

  lemma NoMembers()
    ensures MemberTokens([]) == [] && ElementTokens([]) == []
  {
  }

  lemma ArrayRest(c: Context, s: FrameState, v: Json) returns (rest: seq<Token>)
    requires TopWithin(c, s, v) && c.InArray?
    ensures Tokens(v) == Read(c, s) + [NextOf(c, s, v)] + rest
  {
    hide ElementTokens;
    var all, k := v.elements, |c.elements|;
    assert c.elements == all[..k];
    var tail := ElementsFrom(all, k);
    assert Tokens(v) == [BeginArray] + ElementTokens(all) + [EndArray];
    assert k == 0 ==> ElementTokens(all[..k]) == [] by { NoMembers(); }
    if k == |all| {
      rest := [];
    } else if s == ArrayAfterValue {
      rest := Tokens(all[k]) + tail + [EndArray];
    } else {
      var inner := FirstToken(all[k]);
      rest := inner + tail + [EndArray];
    }
  }

  lemma WithinRest(c: Context, v: Json) returns (rest: seq<Token>)
    requires Within(c, v)
    ensures Tokens(v) == Waiting(c) + Tokens(Child(c, v)) + rest
  {
    hide MemberTokens, ElementTokens;
    if c.InObject? {
      assert c.members == v.members[..|c.members|];
      var tail := MembersFrom(v.members, |c.members|);
      rest := tail + [EndObject];
    } else {
      assert c.elements == v.elements[..|c.elements|];
      var tail := ElementsFrom(v.elements, |c.elements|);
      rest := tail + [EndArray];
    }
  }

  lemma Outermost(open: seq<Context>, j: Json)
    ensures Goal(open, 0, j) == j && Waits(open[..0]) == []
  {
  }

  lemma OneDeeper(open: seq<Context>, i: nat, j: Json)
    requires 0 < i <= |open|
    ensures Goal(open, i, j) == Child(open[i - 1], Goal(open, i - 1, j))
    ensures Waits(open[..i]) == Waits(open[..i - 1]) + Waiting(open[i - 1])
  {
    assert open[..i][..i - 1] == open[..i - 1];
  }

  lemma Nested<T>(w: seq<T>, c: seq<T>, g: seq<T>, inner: seq<T>, outer: seq<T>)
    ensures w + (c + g + inner) + outer == (w + c) + g + (inner + outer)
  {
  }

  /** The whole document, from the container at place `i` on. */
  lemma {:induction false} Unwound(open: seq<Context>, i: nat, j: Json) returns (rest: seq<Token>)
    requires i <= |open| && forall k | 0 <= k < i :: Within(open[k], Goal(open, k, j))
    ensures Tokens(j) == Waits(open[..i]) + Tokens(Goal(open, i, j)) + rest
  {
    hide Tokens, Waiting, Within, Goal, Waits;
    Outermost(open, j);
    if i == 0 {
      rest := [];
      assert [] + Tokens(j) + [] == Tokens(j);
    } else {
      var outer := Unwound(open, i - 1, j);
      var inner := WithinRest(open[i - 1], Goal(open, i - 1, j));
      OneDeeper(open, i, j);
      rest := inner + outer;
      Nested(Waits(open[..i - 1]), Waiting(open[i - 1]), Tokens(Goal(open, i, j)), inner, outer);
    }
  }

  /** The next token is the one that the whole document has here. */
  lemma NextIs(open: seq<Context>, s: FrameState, j: Json, t: Token)
    requires Inside(open, s, j) && ReadAll(open, s) + [t] <= Tokens(j)
    ensures t == NextOf(Top(open), s, Goal(open, |open| - 1, j))
  {
    hide Tokens, Read, Within, TopWithin, NextOf, Goal;
    var n := |open| - 1;
    var outer := Unwound(open, n, j);
    var v := Goal(open, n, j);
    var inner := TopRest(Top(open), s, v);
    var w, r, x := Waits(open[..n]), Read(Top(open), s), NextOf(Top(open), s, v);
    assert Tokens(j) == w + (r + [x] + inner) + outer;
    assert Tokens(j)[|w + r|] == x;
  }

  // ----- every token keeps the reader inside the document -----

  /** Where the next token leaves the reader: still inside, or at the end of the whole document. */
  lemma StepInside(doc: Doc, j: Json, t: Token)
    requires doc.root.None? && Inside(doc.open, doc.state, j) && ReadAll(doc.open, doc.state) + [t] <= Tokens(j)
    ensures t == NextOf(Top(doc.open), doc.state, Goal(doc.open, |doc.open| - 1, j))
    ensures Follows(DocStep(doc, t), j)
  {
    hide Tokens, Read, ReadAll, Goal, Within, TopWithin, Inside, NextOf, DocStep;
    TopIsWithin(doc, j);
    NextIs(doc.open, doc.state, j, t);
    if doc.state in {ObjectKeyOrEnd, ObjectNeedKey} && t.Str? {
      NameInside(doc, j, t);
    } else if t in {EndObject, EndArray} {
      EndInside(doc, j, t);
    } else if t in {Colon, Comma} {
      MarkInside(doc, j, t);
    } else {
      ValueInside(doc, j, t);
    }
  }

  lemma TopIsWithin(doc: Doc, j: Json)
    requires Inside(doc.open, doc.state, j)
    ensures doc.open != [] && TopWithin(Top(doc.open), doc.state, Goal(doc.open, |doc.open| - 1, j))
  {
  }

  lemma NameInside(doc: Doc, j: Json, t: Token)
    requires doc.root.None? && Inside(doc.open, doc.state, j)
    requires doc.state in {ObjectKeyOrEnd, ObjectNeedKey} && t.Str?
    requires t == NextOf(Top(doc.open), doc.state, Goal(doc.open, |doc.open| - 1, j))
    ensures Follows(DocStep(doc, t), j)
  {
    hide Goal, Inside;
    TopIsWithin(doc, j);
    var d1 := DocStep(doc, t);
    var n := |doc.open| - 1;
    GoalOf(doc.open, d1.open, n, j);
    InsideTop(doc.open, d1.open, doc.state, ObjectColon, j);
  }

  lemma MarkInside(doc: Doc, j: Json, t: Token)
    requires doc.root.None? && Inside(doc.open, doc.state, j) && t in {Colon, Comma}
    requires t == NextOf(Top(doc.open), doc.state, Goal(doc.open, |doc.open| - 1, j))
    ensures Follows(DocStep(doc, t), j)
  {
    hide Goal, Inside;
    TopIsWithin(doc, j);
    InsideTop(doc.open, doc.open, doc.state, DocStep(doc, t).state, j);
  }

  lemma FilledWithin(c: Context, v: Json)
    requires Within(c, v)
    ensures TopWithin(Filled(c, Child(c, v)), AfterValue(c), v)
  {
    match c
    case InObject(ms, key) => assert ms + [Member(key, Child(c, v))] == v.members[..|ms| + 1];
    case InArray(es) => assert es + [Child(c, v)] == v.elements[..|es| + 1];
  }

  lemma ValueInside(doc: Doc, j: Json, t: Token)
    requires doc.root.None? && Inside(doc.open, doc.state, j) && t !in {Colon, Comma, EndObject, EndArray}
    requires !(doc.state in {ObjectKeyOrEnd, ObjectNeedKey} && t.Str?)
    requires t == NextOf(Top(doc.open), doc.state, Goal(doc.open, |doc.open| - 1, j))
    ensures Follows(DocStep(doc, t), j)
  {
    hide Goal, Inside;
    TopIsWithin(doc, j);
    var n := |doc.open| - 1;
    var c, v := Top(doc.open), Goal(doc.open, n, j);
    assert AwaitsValue(doc.state) && Within(c, v) && t == FirstOf(Child(c, v));
    if t in {BeginObject, BeginArray} {
      PushInside(doc, j, if t == BeginObject then InObject([], "") else InArray([]));
    } else {
      FilledWithin(c, v);
      var d1 := Valued(doc, Child(c, v));
      GoalOf(doc.open, d1.open, n, j);
      InsideTop(doc.open, d1.open, doc.state, d1.state, j);
    }
  }

  lemma PushInside(doc: Doc, j: Json, c: Context)
    requires doc.root.None? && Inside(doc.open, doc.state, j) && c in {InObject([], ""), InArray([])}
    requires var v := Goal(doc.open, |doc.open| - 1, j);
             Within(Top(doc.open), v)
               && (if c.InObject? then Child(Top(doc.open), v).Object? else Child(Top(doc.open), v).Array?)
    ensures Follows(Opened(doc, c), j)
  {
    hide Within, TopWithin, Goal;
    var d1 := Opened(doc, c);
    var n := |doc.open|;
    forall i | 0 <= i < n ensures Within(d1.open[i], Goal(d1.open, i, j)) {
      assert d1.open[..i] == doc.open[..i] && d1.open[i] == doc.open[i];
      GoalOf(d1.open, doc.open, i, j);
    }
    GoalOf(d1.open, doc.open, n - 1, j) by { assert d1.open[..n - 1] == doc.open[..n - 1]; }
    OneDeeper(d1.open, n, j);
    FreshWithin(c, Goal(d1.open, n, j));
  }

  lemma FreshWithin(c: Context, v: Json)
    requires (c == InObject([], "") && v.Object?) || (c == InArray([]) && v.Array?)
    ensures TopWithin(c, if c.InObject? then ObjectKeyOrEnd else ArrayValueOrEnd, v)
  {
  }

  /** A container ends when all of it is there. */
  lemma EndInside(doc: Doc, j: Json, t: Token)
    requires doc.root.None? && Inside(doc.open, doc.state, j) && t in {EndObject, EndArray}
    requires t == NextOf(Top(doc.open), doc.state, Goal(doc.open, |doc.open| - 1, j))
    ensures Whole(Top(doc.open)) == Goal(doc.open, |doc.open| - 1, j)
    ensures DocStep(doc, t) == Closed(doc) && Follows(Closed(doc), j)
  {
    hide Inside;
    TopIsWithin(doc, j);
    var n := |doc.open|;
    var c, v := Top(doc.open), Goal(doc.open, n - 1, j);
    assert Whole(c) == v;
    if n > 1 {
      var p, w := doc.open[n - 2], Goal(doc.open, n - 2, j);
      assert Within(p, w) by { UnderWithin(doc, j); }
      FilledWithin(p, w);
      var d1 := Closed(doc);
      GoalOf(doc.open, d1.open, n - 2, j);
      InsideTop(doc.open, d1.open, doc.state, d1.state, j);
    }
  }

  lemma UnderWithin(doc: Doc, j: Json)
    requires Inside(doc.open, doc.state, j) && |doc.open| > 1
    ensures Within(doc.open[|doc.open| - 2], Goal(doc.open, |doc.open| - 2, j))
  {
  }

  // ----- the envelopes that must be taken -----

  predicate DistinctRecords(ms: seq<Member>, hash: string -> nat) {
    forall i, k :: 0 <= i < k < |ms| ==> Recorded(ms, hash)[i] != Recorded(ms, hash)[k]
  }

  predicate Ascii(s: string) { forall c | c in s :: c < 128 as char }

  /**
   * The keys and sizes that the firmware allows; it takes two keys of one object with the same hash and length for a
   * repeated one.
   */
  predicate Allowed(v: Json, depth: nat, hash: string -> nat)
    decreases v
  {
    match v
    case Object(ms) =>
      && depth > 0 && |ms| <= MAX_MEMBERS && DistinctRecords(ms, hash)
      && (forall m | m in ms :: |m.key| <= MAX_KEY_BYTES && Ascii(m.key) && Allowed(m.value, depth - 1, hash))
    case Array(es) => depth > 0 && forall x | x in es :: Allowed(x, depth - 1, hash)
    case _ => true
  }

  ghost predicate MustTake(j: Json, expected: Option<seq<byte>>, text: string, hash: string -> nat) {
    GoodEnvelope(j, expected, text) && Allowed(j, MAX_DEPTH, hash)
  }

  lemma {:induction false} GoalAllowed(open: seq<Context>, i: nat, j: Json, hash: string -> nat)
    requires i <= |open| && i <= MAX_DEPTH && (forall k | 0 <= k < i :: Within(open[k], Goal(open, k, j)))
    requires Proper(j) && Allowed(j, MAX_DEPTH, hash)
    ensures Proper(Goal(open, i, j)) && Allowed(Goal(open, i, j), MAX_DEPTH - i, hash)
  {
    if i > 0 {
      GoalAllowed(open, i - 1, j, hash);
      var c, v := open[i - 1], Goal(open, i - 1, j);
      assert Within(c, v);
      if c.InObject? {
        assert v.members[|c.members|] in v.members;
      } else {
        assert v.elements[|c.elements|] in v.elements;
      }
    }
  }

  lemma OneMember(ms: seq<Member>, i: nat, m: Member)
    requires DistinctKeys(ms) && i < |ms| && m in ms && m.key == ms[i].key
    ensures m == ms[i]
  {
    var k :| 0 <= k < |ms| && ms[k] == m;
    assert k < i || k == i || i < k;
  }

  // ----- the checks of the reader -----

  predicate KeyFits(e: Fields, key: string, hash: string -> nat)
    requires e.frames != []
  {
    var keys := e.frames[|e.frames| - 1].keys;
    && |key| <= MAX_KEY_BYTES && Ascii(key) && |keys| < MAX_MEMBERS && KeyRecord(hash(key), |key|) !in keys
    && (|e.frames| == 1 && e.bppSeen ==> key in {HeaderName(), TransactionName()})
  }

  predicate ValueFits(e: Fields, t: Token, expected: Option<seq<byte>>) {
    && (RootMemberIs(e.frames, HeaderName()) || HeaderMemberIs(e.frames, FunctionStatusName()) ==> t == BeginObject)
    && (RootMemberIs(e.frames, TransactionName()) ==>
      t.Str? && expected.Some? && Transaction(t.text) == expected)
    && (StatusMemberIs(e.frames, StatusName()) ==> t == Str(Success()))
    && (RootMemberIs(e.frames, PackageName()) ==> t.Str?)
    && (t in {BeginObject, BeginArray} ==> |e.frames| < MAX_DEPTH)
    && (t in {BeginObject, BeginArray, Primitive} || t.Str?)
  }

  predicate EndFits(e: Fields) {
    && (e.statusDepth == |e.frames| ==> e.statusValueSeen)
    && (e.headerDepth == |e.frames| ==> (e.functionStatusSeen || e.statusDepth == |e.frames|) && e.statusValueSeen)
  }

  lemma KeyTaken(e: Fields, d: Reading, expected: Option<seq<byte>>, hash: string -> nat, j: Json, text: string)
    requires InStep(e, d, expected, hash) && Inside(d.open, TopState(e.frames), j) && MustTake(j, expected, text, hash)
    requires TopState(e.frames) in {ObjectKeyOrEnd, ObjectNeedKey}
    requires var v := Goal(d.open, |d.open| - 1, j); v.Object? && |Top(d.open).members| < |v.members|
    ensures e.frames != [] && KeyFits(e, Goal(d.open, |d.open| - 1, j).members[|Top(d.open).members|].key, hash)
  {
    hide HeaderName, TransactionName, PackageName, InStep, GoodMember, PackageNearlyLast, HasKey, DistinctRecords,
      Proper, Recorded, Goal;
    var n := |d.open| - 1;
    KeysAre(e, d, expected, hash);
    GoalAllowed(d.open, n, j, hash);
    var c, v := Top(d.open), Goal(d.open, n, j);
    var k := |c.members|;
    assert v.members[k] in v.members;
    assert c.members == v.members[..k];
    NewRecord(v.members, k, hash);
    if n == 0 && e.bppSeen {
      WholeGoal(d.open, j);
      AfterPackage(d, j, k);
    }
  }

  lemma KeysAre(e: Fields, d: Reading, expected: Option<seq<byte>>, hash: string -> nat)
    requires InStep(e, d, expected, hash) && d.open != [] && TopState(e.frames) in {ObjectKeyOrEnd, ObjectNeedKey}
    ensures 0 < |d.open| == |e.frames| <= MAX_DEPTH && d.root.None? && Top(d.open).InObject?
    ensures e.frames[|e.frames| - 1].keys == Recorded(Top(d.open).members, hash)
    ensures e.bppSeen ==> HasKey(RootMembers(d), PackageName())
  {
    hide HeaderName, TransactionName, PackageName, Tokens, ReadAll, HeaderGate, StatusGate, GoodMember,
      PackageNearlyLast, HasKey, Proper, Recorded;
    TopAgrees(e, d, hash);
  }

  lemma WholeGoal(open: seq<Context>, j: Json)
    ensures Goal(open, 0, j) == j
  {
  }

  lemma NewRecord(ms: seq<Member>, k: nat, hash: string -> nat)
    requires k < |ms| && DistinctRecords(ms, hash)
    ensures KeyRecord(hash(ms[k].key), |ms[k].key|) !in Recorded(ms[..k], hash) && |Recorded(ms[..k], hash)| == k
  {
    forall i | 0 <= i < k ensures Recorded(ms[..k], hash)[i] != KeyRecord(hash(ms[k].key), |ms[k].key|) {
      assert Recorded(ms, hash)[i] != Recorded(ms, hash)[k];
    }
  }

  lemma AfterPackage(d: Reading, j: Json, k: nat)
    requires j.Object? && PackageNearlyLast(j.members) && |d.open| == 1 && d.open[0].InObject? && d.root.None?
    requires d.open[0].members <= j.members && k == |d.open[0].members| < |j.members|
    requires HasKey(RootMembers(d), PackageName())
    ensures j.members[k].key in {HeaderName(), TransactionName()}
  {
    hide HeaderName, TransactionName, PackageName;
    var i :| 0 <= i < k && d.open[0].members[i].key == PackageName();
    assert j.members[i].key == PackageName();
  }

  /** A member of the root that matters is the one that a good envelope has. */
  lemma RootChild(open: seq<Context>, s: FrameState, j: Json, expected: Option<seq<byte>>, text: string)
    requires Inside(open, s, j) && AwaitsValue(s) && Within(Top(open), Goal(open, |open| - 1, j))
    requires GoodEnvelope(j, expected, text) && |open| == 1 && open[0].InObject?
    ensures GoodMember(Member(open[0].key, Child(open[0], j)), expected, text)
  {
    hide HeaderName, TransactionName, PackageName, GoodMember, Proper, PackageNearlyLast, HasKey;
    WholeGoal(open, j);
    var k := |open[0].members|;
    assert j.members[k] in j.members && j.members[k] == Member(open[0].key, Child(open[0], j));
  }

  /** Inside the header of a good envelope. */
  lemma HeaderGoal(open: seq<Context>, s: FrameState, j: Json, expected: Option<seq<byte>>, text: string)
    requires Inside(open, s, j) && GoodEnvelope(j, expected, text) && InHeader(open)
    ensures HeaderOk(Goal(open, 1, j)) && Proper(Goal(open, 1, j))
  {
    hide TransactionName, PackageName, FunctionStatusName, PackageNearlyLast, HasKey, HeaderOk;
    WholeGoal(open, j);
    assert Within(open[0], Goal(open, 0, j));
    var k := |open[0].members|;
    assert j.members[k] in j.members && Goal(open, 1, j) == j.members[k].value;
  }

  /** Inside the status of its header. */
  lemma StatusGoal(open: seq<Context>, s: FrameState, j: Json, expected: Option<seq<byte>>, text: string)
    requires Inside(open, s, j) && GoodEnvelope(j, expected, text) && InStatus(open)
    ensures StatusOk(Goal(open, 2, j)) && Proper(Goal(open, 2, j))
  {
    hide HeaderName, TransactionName, PackageName, StatusName, PackageNearlyLast, HasKey, GoodEnvelope, StatusOk;
    HeaderGoal(open, s, j, expected, text);
    assert Within(open[1], Goal(open, 1, j));
    StatusIn(open[1], Goal(open, 1, j));
  }

  lemma StatusIn(c: Context, v: Json)
    requires HeaderOk(v) && Proper(v) && Within(c, v) && KeyIs(c, FunctionStatusName())
    ensures StatusOk(Child(c, v)) && Proper(Child(c, v))
  {
    hide FunctionStatusName, StatusOk;
    var m :| m in v.members && m.key == FunctionStatusName() && StatusOk(m.value);
    OneMember(v.members, |c.members|, m);
  }

  lemma SuccessIn(c: Context, v: Json)
    requires StatusOk(v) && Proper(v) && Within(c, v) && KeyIs(c, StatusName())
    ensures Child(c, v) == Text(Success())
  {
    hide StatusName, Success;
    var m :| m in v.members && m.key == StatusName() && m.value == Text(Success());
    OneMember(v.members, |c.members|, m);
  }

  /** The values that matter are what they must be. */
  predicate Suits(open: seq<Context>, v: Json, expected: Option<seq<byte>>, text: string) {
    && (|open| == 1 && KeyIs(open[0], HeaderName()) ==> v.Object?)
    && (|open| == 1 && KeyIs(open[0], TransactionName()) ==> TransactionOk(v, expected))
    && (|open| == 1 && KeyIs(open[0], PackageName()) ==> v == Text(text))
    && (|open| == 2 && InHeader(open) && KeyIs(open[1], FunctionStatusName()) ==> v.Object?)
    && (|open| == 3 && InStatus(open) && KeyIs(open[2], StatusName()) ==> v == Text(Success()))
  }

  lemma ChildSuits(open: seq<Context>, s: FrameState, j: Json, expected: Option<seq<byte>>, text: string)
    requires Inside(open, s, j) && AwaitsValue(s) && Within(Top(open), Goal(open, |open| - 1, j))
    requires GoodEnvelope(j, expected, text)
    ensures Suits(open, Child(Top(open), Goal(open, |open| - 1, j)), expected, text)
  {
    hide HeaderName, TransactionName, PackageName, FunctionStatusName, StatusName, Success, GoodEnvelope, Inside,
      Within, Goal, Proper, TransactionOk;
    if |open| == 1 && open[0].InObject? {
      WholeGoal(open, j);
      RootChild(open, s, j, expected, text);
    } else if |open| == 2 && InHeader(open) && KeyIs(open[1], FunctionStatusName()) {
      HeaderGoal(open, s, j, expected, text);
      StatusIn(open[1], Goal(open, 1, j));
    } else if |open| == 3 && InStatus(open) && KeyIs(open[2], StatusName()) {
      StatusGoal(open, s, j, expected, text);
      SuccessIn(open[2], Goal(open, 2, j));
    }
  }

  lemma ValueTaken(e: Fields, d: Reading, expected: Option<seq<byte>>, hash: string -> nat, j: Json, text: string,
    t: Token)
    requires InStep(e, d, expected, hash) && Inside(d.open, TopState(e.frames), j) && MustTake(j, expected, text, hash)
    requires AwaitsValue(TopState(e.frames)) && Within(Top(d.open), Goal(d.open, |d.open| - 1, j))
    requires t == FirstOf(Child(Top(d.open), Goal(d.open, |d.open| - 1, j)))
    ensures ValueFits(e, t, expected) && (RootMemberIs(e.frames, PackageName()) ==> t == Str(text))
  {
    hide HeaderName, TransactionName, PackageName, FunctionStatusName, StatusName, Success, Tokens, ReadAll, HeaderGate,
      StatusGate, RootGate, GoodMember, GoodEnvelope, Within, Goal, Proper, RootMemberIs, HeaderMemberIs,
      StatusMemberIs, InStatus, InHeader, InStep, Transaction;
    PathsAre(e, d, expected, hash);
    ChildSuits(d.open, TopState(e.frames), j, expected, text);
    ValueShallow(d, j, TopState(e.frames), hash)
      by { EnvelopeProper(j, expected, text, hash); AtMostDeep(e, d, expected, hash); }
  }

  lemma EnvelopeProper(j: Json, expected: Option<seq<byte>>, text: string, hash: string -> nat)
    requires MustTake(j, expected, text, hash)
    ensures Proper(j) && Allowed(j, MAX_DEPTH, hash)
  {
  }

  lemma AtMostDeep(e: Fields, d: Reading, expected: Option<seq<byte>>, hash: string -> nat)
    requires InStep(e, d, expected, hash)
    ensures |d.open| == |e.frames| <= MAX_DEPTH
  {
  }

  lemma ValueShallow(d: Reading, j: Json, s: FrameState, hash: string -> nat)
    requires Inside(d.open, s, j) && Within(Top(d.open), Goal(d.open, |d.open| - 1, j)) && |d.open| <= MAX_DEPTH
    requires Proper(j) && Allowed(j, MAX_DEPTH, hash)
    ensures var v := Child(Top(d.open), Goal(d.open, |d.open| - 1, j)); v.Object? || v.Array? ==> |d.open| < MAX_DEPTH
  {
    hide Proper, Within, DistinctRecords;
    GoalAllowed(d.open, |d.open|, j, hash);
  }

  /** A container that matters ends with everything that it must say. */
  lemma EndTaken(e: Fields, d: Reading, expected: Option<seq<byte>>, hash: string -> nat, j: Json, text: string)
    requires InStep(e, d, expected, hash) && Inside(d.open, TopState(e.frames), j) && GoodEnvelope(j, expected, text)
    requires Whole(Top(d.open)) == Goal(d.open, |d.open| - 1, j)
    ensures EndFits(e)
  {
    hide HeaderName, TransactionName, PackageName, FunctionStatusName, StatusName, Success, Tokens, ReadAll, RootGate,
      GoodEnvelope, Goal, Proper, Inside, HasKey, StatusOk;
    AtMostDeep(e, d, expected, hash);
    TopIsWithin(DocOf(e, d), j);
    if e.statusDepth == |e.frames| {
      StatusGoal(d.open, TopState(e.frames), j, expected, text);
      SaysStatus(Whole(d.open[2]));
    }
    if e.headerDepth == |e.frames| {
      HeaderGoal(d.open, TopState(e.frames), j, expected, text);
      SaysHeader(Whole(d.open[1]));
    }
  }

  lemma SaysStatus(v: Json)
    requires StatusOk(v)
    ensures v.Object? && HasKey(v.members, StatusName())
  {
    hide StatusName, Success;
    var m :| m in v.members && m.key == StatusName() && m.value == Text(Success());
    var i :| 0 <= i < |v.members| && v.members[i] == m;
  }

  lemma SaysHeader(v: Json)
    requires HeaderOk(v)
    ensures v.Object? && HasKey(v.members, FunctionStatusName())
  {
    hide FunctionStatusName, StatusOk;
    var m :| m in v.members && m.key == FunctionStatusName() && StatusOk(m.value);
    var i :| 0 <= i < |v.members| && v.members[i] == m;
  }

  /** At the end of the document, everything has been seen. */
  lemma AllTaken(e: Fields, d: Reading, expected: Option<seq<byte>>, hash: string -> nat, j: Json, text: string)
    requires InStep(e, d, expected, hash) && d.root == Some(j) && GoodEnvelope(j, expected, text)
    ensures e.rootDone && e.frames == [] && expected.Some? && e.statusSeen && e.transactionSeen && e.bppSeen
  {
    hide HeaderName, PackageName, Tokens, ReadAll, HeaderOk;
    var i :| 0 <= i < |j.members| && j.members[i].key == TransactionName();
    assert j.members[i] in j.members && GoodMember(j.members[i], expected, text);
  }

  // ----- one token -----

  /** The checks on the next token, wherever it is. */
  predicate TokenFits(e: Fields, t: Token, expected: Option<seq<byte>>, hash: string -> nat) {
    if e.frames == [] then !e.rootDone && t == BeginObject else
      match TopState(e.frames)
      case ObjectKeyOrEnd => if t == EndObject then EndFits(e) else t.Str? && KeyFits(e, t.text, hash)
      case ObjectNeedKey => t.Str? && KeyFits(e, t.text, hash)
      case ObjectColon => t == Colon
      case ObjectValue => ValueFits(e, t, expected)
      case ObjectAfterValue => if t == EndObject then EndFits(e) else t == Comma
      case ArrayValueOrEnd => if t == EndArray then EndFits(e) else ValueFits(e, t, expected)
      case ArrayValue => ValueFits(e, t, expected)
      case ArrayAfterValue => if t == EndArray then EndFits(e) else t == Comma
  }

  /** The next token of an envelope that must be taken passes, and the package in it is the one that is due. */
  lemma TokenTaken(e: Fields, d: Reading, expected: Option<seq<byte>>, hash: string -> nat, j: Json, text: string,
    t: Token)
    requires InStep(e, d, expected, hash) && Follows(DocOf(e, d), j) && MustTake(j, expected, text, hash)
    requires d.tokens + [t] <= Tokens(j)
    ensures TokenFits(e, t, expected, hash) && Follows(DocStep(DocOf(e, d), t), j)
    ensures d.open != [] && AwaitsValue(TopState(e.frames)) && RootMemberIs(e.frames, PackageName()) && t.Str? ==>
      t == Str(text)
  {
    hide Tokens, ReadAll, HeaderName, TransactionName, PackageName, FunctionStatusName, StatusName, Success, RootGate,
      HeaderGate, StatusGate, GoodEnvelope, Allowed, Goal, Inside, RootMemberIs, KeyFits, ValueFits, EndFits, DocStep,
      StackAgrees, Proper;
    var doc := DocOf(e, d);
    AtMostDeep(e, d, expected, hash);
    if doc.open == [] {
      FirstIn(e, d, expected, hash, j, text, t);
    } else {
      OpenIsInside(e, d, expected, hash, j);
      StepInside(doc, j, t);
      TopIsWithin(doc, j);
      OpenTaken(e, d, expected, hash, j, text, t);
    }
  }

  lemma OpenIsInside(e: Fields, d: Reading, expected: Option<seq<byte>>, hash: string -> nat, j: Json)
    requires InStep(e, d, expected, hash) && Follows(DocOf(e, d), j) && d.open != []
    ensures d.root.None? && Inside(d.open, TopState(e.frames), j) && d.tokens == ReadAll(d.open, TopState(e.frames))
  {
    hide Tokens, ReadAll, RootGate, HeaderGate, StatusGate, Inside, StackAgrees;
  }

  lemma NothingFollows<T>(s: seq<T>, t: T)
    ensures !(s + [t] <= s)
  {
  }

  lemma FirstIn(e: Fields, d: Reading, expected: Option<seq<byte>>, hash: string -> nat, j: Json, text: string,
    t: Token)
    requires InStep(e, d, expected, hash) && Follows(DocOf(e, d), j) && GoodEnvelope(j, expected, text)
    requires d.open == [] && d.tokens + [t] <= Tokens(j)
    ensures TokenFits(e, t, expected, hash) && Follows(DocStep(DocOf(e, d), t), j) && e.frames == []
  {
    hide RootGate, HeaderGate, StatusGate, HeaderName, TransactionName, PackageName, GoodMember, HasKey, Proper,
      MemberTokens;
    if d.root.Some? {
      NothingFollows(d.tokens, t);
    } else {
      assert (d.tokens + [t])[0] == t == Tokens(j)[0] by { assert d.tokens == []; }
      FreshWithin(InObject([], ""), j);
      var d1 := DocStep(DocOf(e, d), t);
      assert d1.open == [InObject([], "")] && Goal(d1.open, 0, j) == j;
    }
  }

  lemma OpenTaken(e: Fields, d: Reading, expected: Option<seq<byte>>, hash: string -> nat, j: Json, text: string,
    t: Token)
    requires InStep(e, d, expected, hash) && Inside(d.open, TopState(e.frames), j) && MustTake(j, expected, text, hash)
    requires d.open != []
    requires TopWithin(Top(d.open), TopState(e.frames), Goal(d.open, |d.open| - 1, j))
    requires t == NextOf(Top(d.open), TopState(e.frames), Goal(d.open, |d.open| - 1, j))
    ensures TokenFits(e, t, expected, hash)
    ensures AwaitsValue(TopState(e.frames)) && RootMemberIs(e.frames, PackageName()) && t.Str? ==> t == Str(text)
  {
    hide Tokens, ReadAll, HeaderName, TransactionName, PackageName, FunctionStatusName, StatusName, Success, RootGate,
      HeaderGate, StatusGate, GoodEnvelope, Allowed, Goal, Inside, RootMemberIs, KeyFits, ValueFits, EndFits,
      StackAgrees, Proper, InStep;
    AtMostDeep(e, d, expected, hash);
    var c, s, v := Top(d.open), TopState(e.frames), Goal(d.open, |d.open| - 1, j);
    if t in {EndObject, EndArray} {
      assert Whole(c) == v;
      EndTaken(e, d, expected, hash, j, text);
    } else if s in {ObjectKeyOrEnd, ObjectNeedKey} {
      KeyTaken(e, d, expected, hash, j, text);
    } else if AwaitsValue(s) {
      ValueTaken(e, d, expected, hash, j, text, t);
    }
  }

  /** Below a container that ends is one that waits for its value. */
  lemma StateBelow(e: Fields, d: Reading, expected: Option<seq<byte>>, hash: string -> nat)
    requires InStep(e, d, expected, hash) && |d.open| >= 2
    ensures |e.frames| == |d.open| && TopState(e.frames[..|e.frames| - 1]) == AfterValue(d.open[|d.open| - 2])
    ensures d.root.None?
  {
    hide Tokens, ReadAll, RootGate, HeaderGate, StatusGate, ProperSoFar, HasKey;
    assert FrameAgrees(e.frames[|d.open| - 2], d.open[|d.open| - 2], false, hash);
  }

  lemma MarkedState(e: Fields, next: FrameState)
    requires e.frames != []
    ensures TopState(Marked(e, next).frames) == next
  {
  }

  // ----- the end -----

  /** Inside a document, something is still to come. */
  lemma NotAtEnd(open: seq<Context>, s: FrameState, j: Json)
    requires Inside(open, s, j)
    ensures ReadAll(open, s) != Tokens(j)
  {
    hide Tokens, Read, Within, TopWithin, NextOf, Goal;
    var n := |open| - 1;
    var outer := Unwound(open, n, j);
    var inner := TopRest(Top(open), s, Goal(open, n, j));
    assert |Tokens(j)| > |Waits(open[..n]) + Read(Top(open), s)|;
  }

  lemma AtEnd(e: Fields, d: Reading, expected: Option<seq<byte>>, hash: string -> nat, j: Json)
    requires InStep(e, d, expected, hash) && Follows(DocOf(e, d), j) && d.tokens == Tokens(j)
    ensures d.root == Some(j)
  {
    hide RootGate, HeaderGate, StatusGate, Inside, StackAgrees, Proper;
    if d.open != [] { NotAtEnd(d.open, TopState(e.frames), j); }
  }

  /** A good envelope carries one package. */
  lemma OneText(j: Json, expected: Option<seq<byte>>, a: string, b: string)
    requires GoodEnvelope(j, expected, a) && GoodEnvelope(j, expected, b)
    ensures a == b
  {
    hide HeaderName, TransactionName, PackageName, Proper, PackageNearlyLast;
    var i :| 0 <= i < |j.members| && j.members[i].key == PackageName();
    assert j.members[i] in j.members;
    assert GoodMember(j.members[i], expected, a) && GoodMember(j.members[i], expected, b);
  }
}
