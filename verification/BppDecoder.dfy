/** The base64 text of a Bound Profile Package, decoded one character at a time into the stream parser. */
module BppDecoder {
  import opened Bytes
  import opened Base64
  import opened BppCard
  import opened BppReading
  import opened BppStream
  import D = BppDue
  import P = BppPackage

  const MAX_ENCODED_BYTES := 1536 * 1024

  lemma EmptyQuartet(q: seq<sextet>, done: seq<byte>)
    requires q == []
    ensures Chars(q, 0) == [] && Started(q, 0) && Encode(done) + Chars(q, 0) == Encode(done)
  {
    hide Encode;
  }

  lemma DecodedBytes(q: seq<sextet>, padding: nat, decoded: seq<byte>, output: nat)
    requires |q| == 4 && padding <= 2 && output == 3 - padding
    requires decoded == [High(q[0], q[1]), Middle(q[1], q[2]), Low(q[2], q[3])]
    ensures decoded[..output] == ThreeBytes(q)[..3 - padding]
  {
  }

  class Base64Decoder {
    const parser: DerStreamParser
    const quartet: array<sextet>
    var quartetSize: nat
    var paddingCount: nat
    var encodedChars: nat
    var finished: bool

    /** The characters taken, and the bytes they have been decoded to. */
    ghost var text: seq<char>
    ghost var done: seq<byte>

    ghost predicate Collected()
      reads this, quartet
    {
      && quartet.Length == 4 && quartetSize <= 4 && paddingCount <= 2
      && Started(quartet[..quartetSize], paddingCount)
      && Whole(done) && !finished && encodedChars == |text|
      && text == Encode(done) + Chars(quartet[..quartetSize], paddingCount)
    }

    /** The text decoded so far, and a quartet that is not complete. */
    ghost predicate Decoding()
      reads this, quartet
    {
      if finished then
        quartet.Length == 4 && quartetSize == paddingCount == 0 && !Whole(done) && text == Encode(done)
          && encodedChars == |text|
      else
        Collected() && quartetSize < 4
    }

    /** In step with the parser: it has been given the decoded bytes and nothing else. */
    ghost predicate Valid()
      reads this, quartet, parser, parser.Parts()
    {
      && this !in parser.Parts() && (quartet as object) !in parser.Parts()
      && Decoding() && parser.Sound() && parser.f.state !in {Finished, Failed} && parser.g.input == done
    }

    /** The text of the package that the parser must take. */
    ghost function Due(): seq<char> { Encode(P.Encode(parser.target)) }

    /** The decoder is not obliged to take this text. */
    ghost predicate Excused(t: seq<char>)
      reads parser.session
    {
      parser.session.faulty || parser.session.answers > 0 || !parser.Wanted() || !(t <= Due())
    }

    lemma ExcusedMore(t: seq<char>, more: seq<char>)
      requires Excused(t)
      ensures Excused(t + more)
    {
      hide DerStreamParser.Wanted, Encode;
      assert t <= t + more;
    }

    /** A text that is not an encoding is not the one that is due, and nor is one that is too long. */
    lemma NotDue(t: seq<char>)
      requires NoEncoding(t) || |t| > MAX_ENCODED_BYTES
      ensures Excused(t)
    {
      hide Encode, P.Encode, P.Complete, Fitted, P.Segments, P.MetadataSegments, P.Plaintext, DerStreamParser.Cleared;
      EncodedLength(P.Encode(parser.target));
      if t <= Due() { assert Extends(t, P.Encode(parser.target)); }
    }

    lemma DueIsText()
      ensures Due() != []
    {
      hide Encode, P.Encode, P.OuterLength, D.FromConfigure;
      D.EncodeAhead(parser.target);
      EncodedLength(P.Encode(parser.target));
    }

    /** What the parser need not take does not come from the text that is due. */
    lemma ParserExcuses(bytes: seq<byte>, t: seq<char>)
      requires parser.Excused(bytes) && t == Encode(bytes)
      ensures Excused(t)
    {
      hide Encode, P.Encode, DerStreamParser.Wanted;
      if t <= Due() { EncodePrefix(bytes, P.Encode(parser.target)); }
    }

    lemma Running()
      requires Valid()
      ensures parser.Sound()
    {
    }

    constructor (parser: DerStreamParser)
      requires parser.Sound() && parser.f.state !in {Finished, Failed} && parser.g.input == []
      ensures Valid() && text == [] && this.parser == parser && fresh(quartet)
    {
      hide DerStreamParser.Sound;
      this.parser := parser;
      quartet := new sextet[4](_ => 0);
      quartetSize, paddingCount, encodedChars, finished := 0, 0, 0, false;
      text, done := [], [];
    }

    /** Puts a character into the quartet, or refuses it. */
    method Place(c: char) returns (placed: bool)
      requires Decoding()
      modifies this`quartetSize, this`paddingCount, this`encodedChars, this`text, quartet
      ensures !placed ==> Decoding() && text == old(text) && NoEncoding(old(text) + [c])
      ensures placed ==> Collected() && quartetSize > 0 && text == old(text) + [c]
    {
      hide SymbolValue, Symbol, Encode;
      if finished {
        PaddedEndsIt(done, c);
        return false;
      }
      ghost var q := quartet[..quartetSize];
      if !Fits(q, paddingCount, c) {
        MisfitEndsIt(done, q, paddingCount, c);
      } else {
        PlacedChars(q, paddingCount, c);
        assert Encode(done) + Chars(q, paddingCount) + [c] == Encode(done) + (Chars(q, paddingCount) + [c]);
      }
      var value := SymbolValue(c);
      if value == -2 {
        if quartetSize < 2 || paddingCount == 2 { return false; }
        quartet[quartetSize] := 0;
        paddingCount := paddingCount + 1;
      } else if value >= 0 {
        if paddingCount != 0 { return false; }
        quartet[quartetSize] := value;
      } else {
        return false;
      }
      quartetSize := quartetSize + 1;
      encodedChars := encodedChars + 1;
      text := text + [c];
      assert quartet[..quartetSize] == Placed(q, c);
      return true;
    }

    /** Hands the bytes of a full quartet to the parser. */
    method Deliver() returns (status: Status)
      requires Collected() && quartetSize == 4
      requires this !in parser.Parts() && (quartet as object) !in parser.Parts()
      requires parser.Sound() && parser.f.state !in {Finished, Failed} && parser.g.input == done
      modifies this`quartetSize, this`paddingCount, this`finished, this`done, quartet, parser, parser.Parts()
      ensures text == old(text) && parser.Sound() && (old(parser.Withheld()) ==> parser.Withheld())
      ensures status == Ok ==> Valid()
      ensures status != Ok ==> Excused(text) && (parser.f.state == Failed || NoEncoding(text))
      ensures parser.Later()
    {
      hide SymbolValue, Symbol, Encode, NoEncoding, Excused, Due, DerStreamParser.Excused, DerStreamParser.Sound,
        DerStreamParser.Withheld, Chars, Started, ThreeBytes;
      ghost var q := quartet[..quartetSize];
      if (paddingCount == 2 && quartet[1] % 16 != 0) || (paddingCount == 1 && quartet[2] % 4 != 0) {
        DirtyEndsIt(done, q, paddingCount);
        NotDue(text);
        return InvalidResponse;
      }
      QuartetDecoded(done, q, paddingCount);
      var decoded := [High(quartet[0], quartet[1]), Middle(quartet[1], quartet[2]), Low(quartet[2], quartet[3])];
      var output := if paddingCount == 2 then 1 else if paddingCount == 1 then 2 else 3;
      DecodedBytes(q, paddingCount, decoded, output);
      status := parser.Feed(decoded[..output]);
      if status != Ok {
        ParserExcuses(done + decoded[..output], text);
        return;
      }
      finished := paddingCount != 0;
      done := done + decoded[..output];
      quartetSize, paddingCount := 0, 0;
      EmptyQuartet(quartet[..0], done);
    }

    /**
     * One more character of the text. It is refused when no canonical encoding goes on
     * with it, when the text is too long, or when the parser refuses what it decodes to.
     */
    method Feed(c: char) returns (status: Status)
      requires Valid()
      modifies this, quartet, parser, parser.Parts()
      ensures parser.Sound() && (old(parser.Withheld()) ==> parser.Withheld())
      ensures status == Ok ==> Valid() && text == old(text) + [c]
      ensures status != Ok ==>
        || |old(text)| >= MAX_ENCODED_BYTES
        || parser.f.state == Failed
        || NoEncoding(old(text) + [c])
      ensures status != Ok ==> Excused(old(text) + [c])
      ensures parser.Later()
    {
      hide SymbolValue, Symbol, Encode, NoEncoding, Fits, Excused, Due, DerStreamParser.Withheld,
        DerStreamParser.Sound;
      if encodedChars >= MAX_ENCODED_BYTES {
        NotDue(text + [c]);
        return InvalidSize;
      }
      var placed := Place(c);
      if !placed {
        NotDue(text + [c]);
        return InvalidResponse;
      }
      if quartetSize != 4 { return Ok; }
      status := Deliver();
    }

    /** The end of the text: it is accepted exactly when it is a canonical encoding of at least one byte. */
    method Finish() returns (status: Status)
      requires Valid()
      ensures status == Ok <==> text != [] && exists s :: text == Encode(s)
      ensures status == Ok ==> text == Encode(parser.g.input) && parser.g.input != []
    {
      hide SymbolValue, Symbol, Encode, DerStreamParser.Sound, DerStreamParser.Withheld, Excused, Due;
      EncodedLength(done);
      if quartetSize != 0 {
        forall s ensures text != Encode(s) {
          PartialIsNoEncoding(done, quartet[..quartetSize], paddingCount, s);
        }
      } else {
        assert Chars(quartet[..0], 0) == [] && Encode(done) + [] == Encode(done);
      }
      if encodedChars == 0 || quartetSize != 0 { return InvalidResponse; }
      return Ok;
    }
  }
}
