/** The text form of the settings: lines of keys and escaped values, exported and imported. */
module ConfigText {
  import opened Bytes
  import opened ConfigTypes
  import opened Decimals
  import opened TextFields

  const BACKSLASH: byte := '\\' as int
  const NEWLINE: byte := 10
  const RETURN: byte := 13
  const EQUALS: byte := '=' as int
  const REDACTED: string := "__REDACTED__"
  const KEEPALIVE_DEFAULT_URL: string := "http://gg.incrafttime.top/api/payload?size=64342"

  // ----- escaping -----

  function EscapedByte(b: byte): seq<byte> {
    if b == BACKSLASH then [BACKSLASH, BACKSLASH]
    else if b == NEWLINE then [BACKSLASH, 'n' as int]
    else if b == RETURN then [BACKSLASH, 'r' as int]
    else [b]
  }

  function Escaped(s: text): text { if s == [] then [] else EscapedByte(s[0]) + Escaped(s[1..]) }

  function Unescaped(s: text): text {
    if s == [] then []
    else if s[0] == BACKSLASH && |s| > 1 && s[1] in {'n' as int, 'r' as int, BACKSLASH} then
      [if s[1] == 'n' as int then NEWLINE else if s[1] == 'r' as int then RETURN else BACKSLASH] + Unescaped(s[2..])
    else [s[0]] + Unescaped(s[1..])
  }

  predicate EscapeAt(s: text, i: nat) {
    i + 1 < |s| && s[i] == BACKSLASH && s[i + 1] in {'n' as int, 'r' as int, BACKSLASH}
  }

  function Plainly(b: byte): byte { if b == 'n' as int then NEWLINE else if b == 'r' as int then RETURN else BACKSLASH }

  lemma UnescapedAt(s: text, i: nat)
    requires i < |s|
    ensures EscapeAt(s, i) ==> Unescaped(s[i..]) == [Plainly(s[i + 1])] + Unescaped(s[i + 2..])
    ensures !EscapeAt(s, i) ==> Unescaped(s[i..]) == [s[i]] + Unescaped(s[i + 1..])
  {
    var rest := s[i..];
    assert rest[1..] == s[i + 1..] && rest[0] == s[i];
    if i + 1 < |s| { assert rest[2..] == s[i + 2..] && rest[1] == s[i + 1]; }
  }

  lemma EscapedStep(b: byte, rest: text)
    ensures Unescaped(EscapedByte(b) + rest) == [b] + Unescaped(rest)
  {
    hide Unescaped;
    var e := EscapedByte(b);
    var s := e + rest;
    assert s[0..] == s && s[|e|..] == rest && s[0] == e[0] && (|e| > 1 ==> s[1] == e[1]);
    UnescapedAt(s, 0);
  }

  /** Escaping is undone by unescaping, and an escaped value has no line break in it. */
  lemma {:induction false} EscapedBack(s: text)
    ensures Unescaped(Escaped(s)) == s && NEWLINE !in Escaped(s) && RETURN !in Escaped(s)
  {
    hide Unescaped;
    if s == [] {
      NothingUnescaped();
    } else {
      EscapedBack(s[1..]);
      EscapedStep(s[0], Escaped(s[1..]));
    }
  }

  method CfgEscape(value: text) returns (out: text)
    ensures out == Escaped(value)
  {
    out := [];
    assert value[0..] == value;
    for i := 0 to |value|
      invariant out + Escaped(value[i..]) == Escaped(value)
    {
      assert value[i..][1..] == value[i + 1..];
      var e := EscapedByte(value[i]);
      assert out + (e + Escaped(value[i + 1..])) == (out + e) + Escaped(value[i + 1..]);
      out := out + e;
    }
    assert value[|value|..] == [] && out + [] == out;
  }

  lemma OneLeft(out: text, b: byte, rest: text)
    ensures out + ([b] + rest) == (out + [b]) + rest
  {
  }

  method CfgUnescape(value: text) returns (out: text)
    ensures out == Unescaped(value)
  {
    hide Unescaped;
    out := [];
    var i := 0;
    assert value[0..] == value && [] + Unescaped(value) == Unescaped(value);
    while i < |value|
      invariant 0 <= i <= |value| && out + Unescaped(value[i..]) == Unescaped(value)
    {
      UnescapedAt(value, i);
      if EscapeAt(value, i) {
        var plain := Plainly(value[i + 1]);
        OneLeft(out, plain, Unescaped(value[i + 2..]));
        out := out + [plain];
        i := i + 2;
      } else {
        OneLeft(out, value[i], Unescaped(value[i + 1..]));
        out := out + [value[i]];
        i := i + 1;
      }
    }
    NothingUnescaped();
    assert value[|value|..] == [] && out + [] == out;
  }

  lemma NothingUnescaped()
    ensures Unescaped([]) == []
  {
  }

  // ----- values -----

  datatype Value = T(text: text) | N(number: int) | B(yes: bool)

  type Settings = map<Field, Value>

  ghost predicate Complete(s: Settings) { forall f | FieldOk(f) :: f in s }

  predicate Blank(s: text) { forall b | b in s :: b in {0x20, 9, RETURN, NEWLINE} }

  predicate IsRedacted(s: text) { s == Ascii(REDACTED) }

  predicate TextIsYes(s: text) { s in {Ascii("1"), Ascii("true"), Ascii("on"), Ascii("yes")} }

  function DefaultName(i: nat): text { Ascii("Channel ") + Printed(i + 1) }

  /** A value has the type of its setting. */
  predicate Fits(f: Field, v: Value) {
    match KindOf(f)
    case Yes => v.B?
    case Small => v.N? && 0 <= v.number <= 0xFF
    case Whole => v.N? && -0x8000_0000 <= v.number <= 0x7FFF_FFFF
    case Word => v.N? && 0 <= v.number <= 0xFFFF_FFFF
    case _ => v.T?
  }

  /** What an export writes for a value; secrets only in a full one. */
  function Shown(f: Field, v: Value, full: bool): text
    requires Fits(f, v)
  {
    match v
    case B(yes) => if yes then Ascii("1") else Ascii("0")
    case N(n) => PrintedInt(n)
    case T(t) => if KindOf(f) in {Secret, AccountSecret} && !full && t != [] then Ascii(REDACTED) else t
  }

  /** What an import makes of a value for a setting that has `now`. */
  function Accepted(f: Field, value: text, now: Value): Value {
    match KindOf(f)
    case Plain => T(value)
    case Secret => if IsRedacted(value) then now else T(value)
    case AccountText => if Blank(value) then now else T(value)
    case AccountSecret => if Blank(value) || IsRedacted(value) then now else T(value)
    case Address => T(if value == [] then Ascii(KEEPALIVE_DEFAULT_URL) else value)
    case ChannelName => T(if value != [] then value else DefaultName(if f.PushField? then f.i else 0))
    case Yes => B(TextIsYes(value))
    case Small => (match ParseInt(value) case Some(n) => if 0 <= n <= 255 then N(n) else now case None => now)
    case Whole => (match ParseInt(value) case Some(n) => N(n) case None => now)
    case Word => (match ParseWord(value) case Some(n) => N(n) case None => now)
  }

  lemma ShownBack(f: Field, v: Value, full: bool)
    requires Fits(f, v) && (v.N? || v.B?)
    ensures forall now :: Accepted(f, Shown(f, v, full), now) == v
  {
    hide PrintedInt, ParseInt, ParseWord;
    if v.N? {
      if KindOf(f) == Word {
        WordBack(v.number);
        assert PrintedInt(v.number) == Printed(v.number) by { NotNegative(v.number); }
      } else {
        IntBack(v.number);
      }
    } else {
      YesAndNo();
    }
  }

  lemma NotNegative(n: nat)
    ensures PrintedInt(n) == Printed(n)
  {
  }

  lemma YesAndNo()
    ensures TextIsYes(Ascii("1")) && !TextIsYes(Ascii("0"))
  {
    assert Ascii("0")[0] != Ascii("1")[0];
  }

  /** A setting takes back its own export, whole or redacted, unless it is an empty address or channel name. */
  lemma TakesBack(f: Field, v: Value, full: bool)
    requires Fits(f, v)
    ensures Accepted(f, Shown(f, v, full), v) == v <==> !(KindOf(f) in {Address, ChannelName} && v.text == [])
  {
    hide PrintedInt, ParseInt, ParseWord, KindOf, Ascii, Blank;
    DefaultsAreNotEmpty(if f.PushField? then f.i else 0);
    if v.T? {
    } else {
      ShownBack(f, v, full);
    }
  }

  lemma DefaultsAreNotEmpty(i: nat)
    ensures Ascii(KEEPALIVE_DEFAULT_URL) != [] && DefaultName(i) != [] && Ascii(REDACTED) != []
  {
    assert |KEEPALIVE_DEFAULT_URL| > 0 && |REDACTED| > 0;
  }

  /** On any other target: what a full export carries over. */
  lemma Carries(f: Field, v: Value, now: Value)
    requires Fits(f, v) && (v.T? ==> !Blank(v.text) && !IsRedacted(v.text))
    ensures Accepted(f, Shown(f, v, true), now) == v
  {
    hide PrintedInt, ParseInt, ParseWord, KindOf, Ascii;
    if !v.T? { ShownBack(f, v, true); }
  }
}
