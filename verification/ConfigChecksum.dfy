/** What the checksum of a stored configuration notices: any single wrong byte of it. */
module ConfigChecksum {
  import opened Bytes
  import opened ByteBits
  import opened ConfigWire
  import opened ConfigBlob

  predicate Odd(crc: bv32) { crc & 1 == 1 }

  function Halved(crc: bv32): bv32 { crc >> 1 }

  function Folded(crc: bv32): bv32 { (crc >> 1) ^ 0xEDB8_8320 }

  lemma OddStep(a: bv32)
    requires Odd(a)
    ensures CrcStep(a) == Folded(a)
  {
  }

  lemma EvenStep(a: bv32)
    requires !Odd(a)
    ensures CrcStep(a) == Halved(a)
  {
  }

  lemma OddOdd(a: bv32, b: bv32)
    requires Odd(a) && Odd(b) && Folded(a) == Folded(b)
    ensures a == b
  {
  }

  lemma EvenEven(a: bv32, b: bv32)
    requires !Odd(a) && !Odd(b) && Halved(a) == Halved(b)
    ensures a == b
  {
  }

  lemma OddEven(a: bv32, b: bv32)
    ensures Folded(a) != Halved(b)
  {
  }

  lemma StepTells(a: bv32, b: bv32)
    requires CrcStep(a) == CrcStep(b)
    ensures a == b
  {
    hide CrcStep, Odd, Halved, Folded;
    if Odd(a) { OddStep(a); } else { EvenStep(a); }
    if Odd(b) { OddStep(b); } else { EvenStep(b); }
    OddEven(a, b);
    OddEven(b, a);
    if Odd(a) && Odd(b) { OddOdd(a, b); }
    if !Odd(a) && !Odd(b) { EvenEven(a, b); }
  }

  lemma {:induction false} BitsTell(a: bv32, b: bv32, n: nat)
    requires CrcBits(a, n) == CrcBits(b, n)
    ensures a == b
    decreases n
  {
    hide CrcStep;
    if n > 0 {
      BitsTell(CrcStep(a), CrcStep(b), n - 1);
      StepTells(a, b);
    }
  }

  function Mixed(crc: bv32, b: bv32): bv32 { crc ^ b }

  lemma MixedTells(a: bv32, b: bv32, c: bv32)
    ensures Mixed(a, c) == Mixed(b, c) ==> a == b
    ensures Mixed(c, a) == Mixed(c, b) ==> a == b
  {
  }

  lemma Narrowed(x: byte)
    ensures (x as bv32) as bv8 == x as bv8
  {
  }

  lemma ByteTells(x: byte, y: byte)
    requires x as bv32 == y as bv32
    ensures x == y
  {
    Narrowed(x);
    Narrowed(y);
    EightBits(x);
    EightBits(y);
  }

  lemma ByteStep(crc: bv32, b: byte)
    ensures CrcByte(crc, b) == CrcBits(Mixed(crc, b as bv32), 8)
  {
    hide CrcBits;
  }

  lemma SameByteTells(a: bv32, b: bv32, x: byte)
    requires CrcByte(a, x) == CrcByte(b, x)
    ensures a == b
  {
    hide CrcByte, CrcBits, Mixed;
    ByteStep(a, x);
    ByteStep(b, x);
    BitsTell(Mixed(a, x as bv32), Mixed(b, x as bv32), 8);
    MixedTells(a, b, x as bv32);
  }

  lemma OtherByteTells(a: bv32, x: byte, y: byte)
    requires CrcByte(a, x) == CrcByte(a, y)
    ensures x == y
  {
    hide CrcByte, CrcBits, Mixed;
    ByteStep(a, x);
    ByteStep(a, y);
    BitsTell(Mixed(a, x as bv32), Mixed(a, y as bv32), 8);
    MixedTells(x as bv32, y as bv32, a);
    ByteTells(x, y);
  }

  lemma {:induction false} RunTells(a: seq<byte>, x: byte, y: byte, b: seq<byte>)
    requires CrcRun(a + [x] + b) == CrcRun(a + [y] + b)
    ensures x == y
    decreases |b|
  {
    hide CrcByte;
    var s, t := a + [x] + b, a + [y] + b;
    if b == [] {
      assert s[..|s| - 1] == a == t[..|t| - 1];
      OtherByteTells(CrcRun(a), x, y);
    } else {
      var n := |b| - 1;
      assert s[..|s| - 1] == a + [x] + b[..n] && t[..|t| - 1] == a + [y] + b[..n];
      SameByteTells(CrcRun(a + [x] + b[..n]), CrcRun(a + [y] + b[..n]), b[n]);
      RunTells(a, x, y, b[..n]);
    }
  }

  lemma NumberBack(a: bv32)
    ensures (a as int) as bv32 == a
  {
  }

  lemma InvertedTells(a: bv32, b: bv32)
    requires Inverted(a) == Inverted(b)
    ensures a == b
  {
    NumberBack(!a);
    NumberBack(!b);
  }

  /** Two payloads that differ in one byte have different checksums. */
  lemma OneByteTold(a: seq<byte>, x: byte, y: byte, b: seq<byte>)
    requires x != y
    ensures Crc32(a + [x] + b) != Crc32(a + [y] + b)
  {
    hide CrcRun, Inverted;
    if Crc32(a + [x] + b) == Crc32(a + [y] + b) {
      InvertedTells(CrcRun(a + [x] + b), CrcRun(a + [y] + b));
      RunTells(a, x, y, b);
    }
  }

  /**
   * A blob with one wrong byte is refused, wherever the byte is, but for the schema and the generation: those are not
   * under the checksum of the blob.
   */
  lemma WrongByteIsInvalid(legacy: Legacy, blob: seq<byte>, i: nat, y: byte)
    requires HeaderOk(blob) && i < |blob| && blob[i] != y && !(4 <= i < 12)
    ensures Decode(legacy, blob[i := y]).Invalid?
  {
    hide Crc32, FromLittle;
    var t := blob[i := y];
    if i >= HEADER_BYTES {
      var payload := blob[HEADER_BYTES..];
      var k := i - HEADER_BYTES;
      assert payload == payload[..k] + [blob[i]] + payload[k + 1..];
      assert t[HEADER_BYTES..] == payload[..k] + [y] + payload[k + 1..];
      OneByteTold(payload[..k], blob[i], y, payload[k + 1..]);
      assert t[16..20] == blob[16..20];
    } else {
      assert t[HEADER_BYTES..] == blob[HEADER_BYTES..];
      var w := if i < 4 then 0 else if i < 16 then 12 else 16;
      WordTold(blob[w..w + 4], t[w..w + 4], i - w);
    }
  }

  lemma WordTold(s: seq<byte>, t: seq<byte>, k: nat)
    requires |s| == |t| && k < |s| && s[k] != t[k]
    ensures FromLittle(s) != FromLittle(t)
  {
    hide FromLittle, Little;
    BackLittle(s);
    BackLittle(t);
  }
}
