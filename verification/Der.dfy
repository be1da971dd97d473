/** The DER headers of a Bound Profile Package, read one byte at a time. */
module Der {
  import opened Bytes

  const MAX_HEADER_BYTES := 7

  /** What a run of bytes is, as the start of a header. */
  datatype HeaderScan = Bad | More | Done(tagBytes: nat, length: nat)

  /** One-byte tags, or two-byte tags that start with BF; definite, shortest-form lengths. */
  function ScanHeader(raw: seq<byte>): HeaderScan {
    if raw == [] then More
    else if raw[0] != 0xBF && raw[0] % 0x20 == 0x1F then Bad
    else
      var t := if raw[0] == 0xBF then 2 else 1;
      if t == 2 && |raw| >= 2 && raw[1] >= 0x80 then Bad
      else if |raw| <= t then More
      else if raw[t] < 0x80 then (if |raw| == t + 1 then Done(t, raw[t]) else Bad)
      else if raw[t] < 0x81 || raw[t] > 0x84 then Bad
      else
        var n := raw[t] - 0x80;
        if |raw| < t + 1 + n then More
        else if |raw| > t + 1 + n then Bad
        else if n > 1 && raw[t + 1] == 0 then Bad
        else
          var length := BigEndian(raw[t + 1..]);
          if length < 0x80 then Bad else Done(t, length)
  }

  predicate ValidTag(tag: seq<byte>) {
    || (|tag| == 1 && tag[0] != 0xBF && tag[0] % 0x20 != 0x1F)
    || (|tag| == 2 && tag[0] == 0xBF && tag[1] < 0x80)
  }

  /** The base-256 digits of a number, most significant first and not zero. */
  function Digits(n: nat): (r: seq<byte>)
    ensures r != [] <==> n > 0
    ensures r != [] ==> r[0] != 0
    ensures BigEndian(r) == n
  {
    if n == 0 then [] else
      var r := Digits(n / 0x100) + [n % 0x100];
      assert r[..|r| - 1] == Digits(n / 0x100);
      r
  }

  lemma DigitCount(n: nat)
    ensures n < 0x100 ==> |Digits(n)| <= 1
    ensures n < 0x1_0000 ==> |Digits(n)| <= 2
    ensures n < 0x100_0000 ==> |Digits(n)| <= 3
    ensures n < 0x1_0000_0000 ==> |Digits(n)| <= 4
  {
    if n > 0 { DigitCount(n / 0x100); }
  }

  /** The only length octets that DER allows for `n`, for every length it can express. */
  function LengthBytes(n: nat): (r: seq<byte>)
    ensures r != []
    ensures n < 0x1_0000_0000 ==> |r| <= 5
  {
    DigitCount(n);
    if n < 0x80 then [n]
    else [if |Digits(n)| < 0x80 then 0x80 + |Digits(n)| else 0xFF] + Digits(n)
  }

  function Header(tag: seq<byte>, n: nat): (r: seq<byte>)
    ensures r != []
  {
    tag + LengthBytes(n)
  }

  lemma {:induction false} DigitsOf(s: seq<byte>)
    requires s != [] ==> s[0] != 0
    ensures Digits(BigEndian(s)) == s
  {
    if s != [] {
      var f := s[..|s| - 1];
      DigitsOf(f);
      assert BigEndian(s) / 0x100 == BigEndian(f) && BigEndian(s) % 0x100 == s[|s| - 1];
      if f == [] { assert BigEndian(s) == s[0]; }
    }
  }

  lemma {:induction false} BigEndianBound(s: seq<byte>)
    ensures |s| == 1 ==> BigEndian(s) == s[0]
    ensures |s| <= 4 ==> BigEndian(s) < 0x1_0000_0000
    ensures |s| <= 3 ==> BigEndian(s) < 0x100_0000
    ensures |s| <= 2 ==> BigEndian(s) < 0x1_0000
    ensures |s| <= 1 ==> BigEndian(s) < 0x100
  {
    if s != [] { BigEndianBound(s[..|s| - 1]); }
  }

  /** Every complete header is the header of its tag and length: there is no second spelling. */
  lemma ScannedHeader(raw: seq<byte>)
    requires ScanHeader(raw).Done?
    ensures var d := ScanHeader(raw);
            && d.tagBytes < |raw| <= MAX_HEADER_BYTES && d.length < 0x1_0000_0000
            && ValidTag(raw[..d.tagBytes]) && raw == Header(raw[..d.tagBytes], d.length)
  {
    ScannedLength(raw);
    var d := ScanHeader(raw);
    var tag, rest := raw[..d.tagBytes], raw[d.tagBytes..];
    assert raw == tag + rest;
  }

  lemma LongLength(value: seq<byte>)
    requires 1 <= |value| <= 4 && value[0] != 0 && BigEndian(value) >= 0x80
    ensures LengthBytes(BigEndian(value)) == [0x80 + |value|] + value
  {
    DigitsOf(value);
  }

  lemma ScannedLength(raw: seq<byte>)
    requires ScanHeader(raw).Done?
    ensures var d := ScanHeader(raw);
            && d.tagBytes < |raw| <= MAX_HEADER_BYTES && d.length < 0x1_0000_0000
            && raw[d.tagBytes..] == LengthBytes(d.length)
  {
    var t := ScanHeader(raw).tagBytes;
    assert t == if raw[0] == 0xBF then 2 else 1;
    var value := raw[t + 1..];
    assert raw[t..] == [raw[t]] + value;
    if raw[t] >= 0x80 {
      assert value[0] == raw[t + 1];
      BigEndianBound(value);
      LongLength(value);
    }
  }

  /** A header is read back in full. */
  lemma HeaderScans(tag: seq<byte>, n: u32)
    requires ValidTag(tag)
    ensures ScanHeader(Header(tag, n)) == Done(|tag|, n)
  {
    var h := Header(tag, n);
    assert h[|tag|] == LengthBytes(n)[0];
    if n >= 0x80 {
      assert h[|tag| + 1..] == Digits(n);
      assert h[|tag| + 1] == Digits(n)[0];
    }
  }

  /** While a header is being read it is not refused, and it is not complete too early. */
  lemma HeaderInProgress(raw: seq<byte>, k: nat)
    requires ScanHeader(raw).Done? && k < |raw|
    ensures ScanHeader(raw[..k]) == More
  {
  }

  /**
   * A length whose first octet is zero is not in its shortest form, but the reader only sees that at its last octet.
   */
  predicate RefusedLate(raw: seq<byte>) {
    raw != [] &&
      var t := if raw[0] == 0xBF then 2 else 1;
      |raw| >= t + 2 && 0x82 <= raw[t] <= 0x84 && raw[t + 1] == 0 && |raw| < t + 1 + (raw[t] - 0x80)
  }

  /** The rest of some header that starts like this. */
  function Completion(raw: seq<byte>): (r: seq<byte>)
    ensures r != []
  {
    if raw == [] then [0x30, 0x00] else
      var t := if raw[0] == 0xBF then 2 else 1;
      if |raw| < t then [0x00, 0x00]
      else if |raw| == t || raw[t] <= 0x80 || raw[t] - 0x80 <= |raw| - t - 1 then [0x00]
      else Ones(raw[t] - 0x80 - (|raw| - t - 1))
  }

  function Ones(n: nat): (r: seq<byte>)
    requires n > 0
    ensures |r| == n && r[n - 1] == 0xFF
  {
    seq(n, _ => 0xFF)
  }

  /**
   * What has been taken of a header is the start of one, but for a zero
   * at the front of its length; and every start is taken.
   */
  lemma HeaderStarts(raw: seq<byte>)
    ensures ScanHeader(raw) == More && !RefusedLate(raw) <==> exists more :: more != [] && ScanHeader(raw + more).Done?
    ensures ScanHeader(raw) == Bad ==> forall more :: !ScanHeader(raw + more).Done?
  {
    if exists more :: more != [] && ScanHeader(raw + more).Done? {
      var more :| more != [] && ScanHeader(raw + more).Done?;
      HeaderInProgress(raw + more, |raw|);
      assert (raw + more)[..|raw|] == raw;
      LateIsBad(raw, more);
    }
    if ScanHeader(raw) == More && !RefusedLate(raw) { CompletionCompletes(raw); }
    forall more ensures ScanHeader(raw) == Bad ==> !ScanHeader(raw + more).Done? {
      if ScanHeader(raw + more).Done? {
        if more == [] { assert raw + more == raw; } else { HeaderInProgress(raw + more, |raw|); }
        assert (raw + more)[..|raw|] == raw;
      }
    }
  }

  lemma LateIsBad(raw: seq<byte>, more: seq<byte>)
    ensures RefusedLate(raw) ==> !ScanHeader(raw + more).Done?
  {
  }

  lemma CompletionCompletes(raw: seq<byte>)
    requires ScanHeader(raw) == More && !RefusedLate(raw)
    ensures ScanHeader(raw + Completion(raw)).Done?
  {
    var all := raw + Completion(raw);
    if raw != [] {
      var t := if raw[0] == 0xBF then 2 else 1;
      if |raw| > t && raw[t] > 0x80 {
        var value := all[t + 1..];
        assert value[|value| - 1] == 0xFF;
      }
    }
  }

  lemma NoHeaderWithinHeader(r1: seq<byte>, r2: seq<byte>)
    requires ScanHeader(r1).Done? && ScanHeader(r2).Done? && (r1 <= r2 || r2 <= r1)
    ensures r1 == r2
  {
    if |r1| < |r2| {
      HeaderInProgress(r2, |r1|);
    } else if |r2| < |r1| {
      HeaderInProgress(r1, |r2|);
    }
  }

  lemma StillInProgress(raw: seq<byte>, k: nat)
    requires k <= |raw|
    ensures ScanHeader(raw) == More ==> ScanHeader(raw[..k]) == More
  {
    if k == |raw| { assert raw[..k] == raw; }
  }

  /** A reader whose input goes on with a header reads that header, and refuses none of its bytes. */
  lemma HeaderAhead(tag: seq<byte>, n: u32, rest: seq<byte>, raw: seq<byte>)
    requires ValidTag(tag) && raw <= Header(tag, n) + rest
    ensures ScanHeader(raw).Done? ==> raw == Header(tag, n) && ScanHeader(raw) == Done(|tag|, n)
    ensures ScanHeader(raw) == More ==> |raw| < |Header(tag, n)|
  {
    hide LengthBytes;
    var h := Header(tag, n);
    HeaderScans(tag, n);
    assert raw + [] == raw && (raw <= h || h <= raw) by { PrefixesCompare(raw, [], h, rest); }
    if ScanHeader(raw).Done? { NoHeaderWithinHeader(raw, h); }
    if |h| <= |raw| {
      assert raw[..|h|] == h;
      StillInProgress(raw, |h|);
    }
  }

  lemma ByteAhead(tag: seq<byte>, n: u32, rest: seq<byte>, raw: seq<byte>, b: byte)
    requires ValidTag(tag) && raw + [b] <= Header(tag, n) + rest && ScanHeader(raw) == More
    ensures ScanHeader(raw + [b]) != Bad
  {
    hide LengthBytes;
    var h := Header(tag, n);
    HeaderScans(tag, n);
    assert raw <= raw + [b] <= h + rest;
    HeaderAhead(tag, n, rest, raw);
    assert raw + [b] == h[..|raw| + 1];
    if |raw| + 1 < |h| { HeaderInProgress(h, |raw| + 1); } else { assert h[..|h|] == h; }
  }

  /** Headers are a prefix code: what follows a header does not change what it says. */
  lemma HeaderUnique(t1: seq<byte>, n1: u32, rest1: seq<byte>, t2: seq<byte>, n2: u32, rest2: seq<byte>)
    requires ValidTag(t1) && ValidTag(t2)
    requires Header(t1, n1) + rest1 <= Header(t2, n2) + rest2 || Header(t2, n2) + rest2 <= Header(t1, n1) + rest1
    ensures t1 == t2 && n1 == n2
  {
    var h1, h2 := Header(t1, n1), Header(t2, n2);
    PrefixesCompare(h1, rest1, h2, rest2);
    HeaderScans(t1, n1);
    HeaderScans(t2, n2);
    NoHeaderWithinHeader(h1, h2);
    assert t1 == h1[..|t1|] && t2 == h2[..|t2|];
  }

  lemma LengthBytesUnique(n1: u32, n2: nat)
    requires LengthBytes(n1) <= LengthBytes(n2) || LengthBytes(n2) <= LengthBytes(n1)
    ensures n1 == n2
  {
    hide Digits;
    DigitCount(n1);
    var b1, b2 := LengthBytes(n1), LengthBytes(n2);
    assert b1[0] == b2[0];
    if n1 >= 0x80 {
      assert b1 == b2;
      assert Digits(n1) == b1[1..] && Digits(n2) == b2[1..];
    }
  }

  /** Even when only one of the two lengths is known to be one that a header can express. */
  lemma LengthUnique(tag: seq<byte>, n1: u32, rest1: seq<byte>, n2: nat, rest2: seq<byte>)
    requires Header(tag, n1) + rest1 <= Header(tag, n2) + rest2 || Header(tag, n2) + rest2 <= Header(tag, n1) + rest1
    ensures n1 == n2
  {
    hide LengthBytes;
    var h1, h2 := Header(tag, n1), Header(tag, n2);
    PrefixesCompare(h1, rest1, h2, rest2);
    assert LengthBytes(n1) == h1[|tag|..] && LengthBytes(n2) == h2[|tag|..];
    LengthBytesUnique(n1, n2);
  }

  /** The tag test of the firmware, for one-byte and two-byte tags alike. */
  predicate TagIs(raw: seq<byte>, tagBytes: nat, tag: seq<byte>) {
    tagBytes == |tag| <= |raw| && raw[..tagBytes] == tag
  }

  /** A complete header with the right tag is the header of that tag. */
  lemma CompleteHeader(raw: seq<byte>, tagBytes: nat, length: nat, tag: seq<byte>)
    requires ScanHeader(raw) == Done(tagBytes, length) && TagIs(raw, tagBytes, tag)
    ensures raw == Header(tag, length) && length < 0x1_0000_0000
  {
    ScannedHeader(raw);
  }

  /** Collects one header. Field by field, the state of the reader in the firmware. */
  class DerHeaderReader {
    const raw: array<byte>
    var rawSize: nat
    var tagBytes: nat
    var lengthBytes: nat
    var length: nat
    var complete: bool

    ghost function Raw(): seq<byte>
      reads this, raw
      requires rawSize <= raw.Length
    {
      raw[..rawSize]
    }

    ghost predicate Valid()
      reads this, raw
    {
      && raw.Length == MAX_HEADER_BYTES && rawSize <= MAX_HEADER_BYTES
      && ScanHeader(Raw()) == (if complete then Done(tagBytes, length) else More)
      && (rawSize > 0 ==> tagBytes == if raw[0] == 0xBF then 2 else 1)
      && (rawSize > tagBytes > 0 && !complete ==> lengthBytes == raw[tagBytes] - 0x80)
      && (rawSize == 0 ==> tagBytes == 0 && forall i | 0 <= i < raw.Length :: raw[i] == 0)
    }

    constructor ()
      ensures Valid() && Raw() == [] && !complete && fresh(raw)
    {
      raw := new byte[MAX_HEADER_BYTES](_ => 0);
      rawSize, tagBytes, lengthBytes, length, complete := 0, 0, 0, 0, false;
    }

    method Reset()
      requires raw.Length == MAX_HEADER_BYTES
      modifies this, raw
      ensures Valid() && Raw() == [] && !complete
    {
      forall i | 0 <= i < raw.Length { raw[i] := 0; }
      rawSize, tagBytes, lengthBytes, length, complete := 0, 0, 0, 0, false;
    }

    method Append(b: byte)
      requires rawSize < raw.Length
      modifies this`rawSize, raw
      ensures rawSize == old(rawSize) + 1 && Raw() == old(Raw()) + [b]
    {
      raw[rawSize] := b;
      rawSize := rawSize + 1;
    }

    /** No header has been started: nothing has been stored. */
    method IsEmpty() returns (empty: bool)
      requires raw.Length == MAX_HEADER_BYTES
      ensures Valid() ==> (empty <==> rawSize == 0)
      ensures empty <==> rawSize == 0 && !complete && forall i :: 0 <= i < raw.Length ==> raw[i] == 0
    {
      var i := 0;
      while i < raw.Length
        invariant 0 <= i <= raw.Length && forall j :: 0 <= j < i ==> raw[j] == 0
      {
        if raw[i] != 0 { return false; }
        i := i + 1;
      }
      return rawSize == 0 && !complete;
    }

    /** Takes one more byte, in step with a scan of all of them; what that refuses, and when, says `HeaderStarts`. */
    method Consume(b: byte) returns (ok: bool)
      requires Valid()
      modifies this, raw
      ensures ok <==> !old(complete) && ScanHeader(old(Raw()) + [b]) != Bad
      ensures ok ==> Valid() && Raw() == old(Raw()) + [b]
      ensures raw.Length == MAX_HEADER_BYTES
    {
      if complete || rawSize >= raw.Length { return false; }
      ghost var was := Raw();
      if rawSize == 0 {
        Append(b);
        if b == 0xBF { tagBytes := 2; }
        else if b % 0x20 == 0x1F { return false; }
        else { tagBytes := 1; }
        return true;
      }
      if rawSize < tagBytes {
        if tagBytes == 2 && b >= 0x80 { return false; }
        Append(b);
        return true;
      }
      if rawSize == tagBytes {
        Append(b);
        if b < 0x80 {
          length, complete := b, true;
          return true;
        }
        if b < 0x81 || b > 0x84 { return false; }
        lengthBytes := b - 0x80;
        return true;
      }
      Append(b);
      if rawSize - tagBytes - 1 != lengthBytes { return true; }
      if lengthBytes > 1 && raw[tagBytes + 1] == 0 { return false; }
      var parsed := Value();
      if parsed < 0x80 { return false; }
      length, complete := parsed, true;
      return true;
    }

    /** The length octets after the first one, as a number. */
    method Value() returns (parsed: nat)
      requires raw.Length == MAX_HEADER_BYTES && tagBytes + 1 + lengthBytes == rawSize <= raw.Length
      ensures parsed == BigEndian(Raw()[tagBytes + 1..])
    {
      parsed := 0;
      var i := 0;
      while i < lengthBytes
        invariant 0 <= i <= lengthBytes
        invariant parsed == BigEndian(raw[tagBytes + 1..tagBytes + 1 + i])
      {
        assert raw[tagBytes + 1..tagBytes + 1 + (i + 1)][..i] == raw[tagBytes + 1..tagBytes + 1 + i];
        parsed := parsed * 0x100 + raw[tagBytes + 1 + i];
        i := i + 1;
      }
      assert Raw()[tagBytes + 1..] == raw[tagBytes + 1..tagBytes + 1 + lengthBytes];
    }
  }
}
