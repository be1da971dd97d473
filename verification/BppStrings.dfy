/** A string of the envelope in progress: what it is for, and which characters it may have. */
module BppStrings {
  import opened Bytes
  import opened BppDocument
  import opened BppGate
  import opened BppFollow

  datatype StringMode = NoString | KeyString | StatusString | TransactionString | UnknownString | PackageString

  /** A string that is kept until it ends; the package is decoded at once, and no other is looked at. */
  predicate Buffered(mode: StringMode) { mode in {KeyString, StatusString, TransactionString} }

  predicate KeyMayStart(e: Fields) { e.frames != [] && TopState(e.frames) in {ObjectKeyOrEnd, ObjectNeedKey} }

  /** The header and its status are no strings. */
  predicate TextMayStart(e: Fields) {
    && e.frames != [] && AwaitsValue(TopState(e.frames))
    && !RootMemberIs(e.frames, HeaderName()) && !HeaderMemberIs(e.frames, FunctionStatusName())
  }

  predicate StringMayStart(e: Fields) { KeyMayStart(e) || TextMayStart(e) }

  function ModeHere(e: Fields): StringMode {
    if KeyMayStart(e) then KeyString
    else if RootMemberIs(e.frames, TransactionName()) then TransactionString
    else if StatusMemberIs(e.frames, StatusName()) then StatusString
    else if RootMemberIs(e.frames, PackageName()) then PackageString
    else UnknownString
  }

  /** `partial` is what there is of the string in progress. */
  predicate StringAgrees(mode: StringMode, buffer: string, partial: string, e: Fields) {
    if mode == NoString then partial == "" else
      && StringMayStart(e) && mode == ModeHere(e)
      && (Buffered(mode) ==> buffer == partial && |buffer| <= MAX_KEY_BYTES && Ascii(buffer))
  }

  predicate CharFits(mode: StringMode, buffer: string, c: char) {
    Buffered(mode) ==> |buffer| < MAX_KEY_BYTES && c < 128 as char
  }

  lemma StringStarts(e: Fields, u: Token, expected: Option<seq<byte>>, hash: string -> nat)
    requires TokenFits(e, u, expected, hash) && u.Str?
    ensures StringMayStart(e)
  {
    hide HeaderName, FunctionStatusName, StatusName, TransactionName, PackageName, Success, Transaction, KeyFits;
  }

  /** What must be kept of a string that is taken, is kept. */
  lemma StringGoesOn(e: Fields, u: Token, p: string, c: char, expected: Option<seq<byte>>, hash: string -> nat)
    requires TokenFits(e, u, expected, hash) && u.Str? && StringMayStart(e) && p + [c] <= u.text
    ensures CharFits(ModeHere(e), p, c)
  {
    if Buffered(ModeHere(e)) {
      KeptIsShort(e, u, expected, hash);
      assert u.text[|p|] == (p + [c])[|p|] == c;
      assert c in u.text;
    }
  }

  lemma KeptIsShort(e: Fields, u: Token, expected: Option<seq<byte>>, hash: string -> nat)
    requires TokenFits(e, u, expected, hash) && u.Str? && StringMayStart(e) && Buffered(ModeHere(e))
    ensures |u.text| <= MAX_KEY_BYTES && Ascii(u.text)
  {
    hide HeaderName, FunctionStatusName, StatusName, TransactionName, PackageName, RootMemberIs, HeaderMemberIs,
      StatusMemberIs, Success, HexBytes;
    SuccessIsShort();
    if Transaction(u.text).Some? { HexIsAscii(u.text); }
  }

  lemma SuccessIsShort()
    ensures |Success()| <= MAX_KEY_BYTES && Ascii(Success())
  {
  }

  lemma HexIsAscii(s: string)
    requires IsHex(s)
    ensures Ascii(s)
  {
    forall c | c in s ensures c < 128 as char {
      assert HexDigit(c) >= 0;
    }
  }
}
