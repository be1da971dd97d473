/** The body of a post is the text of a JSON document. */
module NotificationJson {
  import opened ConfigTypes
  import opened BppDocument
  import opened NotificationSend

  /** A token as text; a string as it is, so it must have nothing in it that JSON would escape. */
  function Written(t: Token): text {
    match t
    case BeginObject => Ascii("{")
    case EndObject => Ascii("}")
    case BeginArray => Ascii("[")
    case EndArray => Ascii("]")
    case Colon => Ascii(":")
    case Comma => Ascii(",")
    case Str(s) => Ascii("\"") + Ascii(s) + Ascii("\"")
    case Primitive => Ascii("null")
  }

  function WrittenAll(ts: seq<Token>): text { if ts == [] then [] else Written(ts[0]) + WrittenAll(ts[1..]) }

  /** An object with the one field, as a document. */
  function OneField(name: string, value: string): Json { Object([Member(name, Text(value))]) }

  lemma FieldTokens(name: string, value: string)
    ensures Tokens(OneField(name, value)) == [BeginObject, Str(name), Colon, Str(value), EndObject]
  {
    var ms := [Member(name, Text(value))];
    assert ms[..0] == [] && MemberTokens([]) == [];
    assert MemberTokens(ms) == [Str(name), Colon, Str(value)];
  }

  lemma QuotesAreOne()
    ensures Ascii("\":\"") == Ascii("\"") + Ascii(":") + Ascii("\"")
  {
  }

  lemma WrittenOn(t: Token, ts: seq<Token>)
    ensures WrittenAll([t] + ts) == Written(t) + WrittenAll(ts)
  {
    hide Written;
    assert ([t] + ts)[0] == t && ([t] + ts)[1..] == ts;
  }

  lemma PartsJoined<T>(a: seq<T>, q: seq<T>, n: seq<T>, c: seq<T>, v: seq<T>, z: seq<T>)
    ensures a + q + n + (q + c + q) + v + q + z == a + ((q + n + q) + (c + ((q + v + q) + (z + []))))
  {
  }

  /** What is put together piece by piece is the document with the field and its value, and nothing else. */
  lemma RequestIsDocument(name: string, value: string)
    ensures Request(Ascii(name), Ascii(value)) == WrittenAll(Tokens(OneField(name, value)))
  {
    hide Ascii, WrittenAll, Tokens;
    FieldTokens(name, value);
    QuotesAreOne();
    assert [BeginObject, Str(name), Colon, Str(value), EndObject]
        == [BeginObject] + ([Str(name)] + ([Colon] + ([Str(value)] + ([EndObject] + []))));
    NothingWritten();
    WrittenOn(EndObject, []);
    WrittenOn(Str(value), [EndObject] + []);
    WrittenOn(Colon, [Str(value)] + ([EndObject] + []));
    WrittenOn(Str(name), [Colon] + ([Str(value)] + ([EndObject] + [])));
    WrittenOn(BeginObject, [Str(name)] + ([Colon] + ([Str(value)] + ([EndObject] + []))));
    PartsJoined(Ascii("{"), Ascii("\""), Ascii(name), Ascii(":"), Ascii(value), Ascii("}"));
  }

  lemma NothingWritten()
    ensures WrittenAll([]) == []
  {
  }
}
