/** What the checksum of a frame notices: any single wrong byte. */
module UsbChecksum {
  import opened Bytes
  import opened ByteBits
  import opened UsbFrames

  predicate High(crc: bv16) { crc & 0x8000 != 0 }

  function Shifted(crc: bv16): bv16 { crc << 1 }

  function Folded(crc: bv16): bv16 { (crc << 1) ^ 0x1021 }

  lemma StepIs(a: bv16)
    ensures CrcStep(a) == if High(a) then Folded(a) else Shifted(a)
  {
  }

  lemma HighHigh(a: bv16, b: bv16)
    requires High(a) && High(b) && Folded(a) == Folded(b)
    ensures a == b
  {
  }

  lemma LowLow(a: bv16, b: bv16)
    requires !High(a) && !High(b) && Shifted(a) == Shifted(b)
    ensures a == b
  {
  }

  lemma HighLow(a: bv16, b: bv16)
    ensures Folded(a) != Shifted(b)
  {
  }

  /** No two checksums become the same in a step: the polynomial has a constant term. */
  lemma StepTells(a: bv16, b: bv16)
    requires CrcStep(a) == CrcStep(b)
    ensures a == b
  {
    hide CrcStep, High, Shifted, Folded;
    StepIs(a);
    StepIs(b);
    HighLow(a, b);
    HighLow(b, a);
    if High(a) && High(b) { HighHigh(a, b); }
    if !High(a) && !High(b) { LowLow(a, b); }
  }

  lemma {:induction false} BitsTell(a: bv16, b: bv16, n: nat)
    requires CrcBits(a, n) == CrcBits(b, n)
    ensures a == b
    decreases n
  {
    hide CrcStep;
    if n > 0 {
      BitsTell(CrcStep(a), CrcStep(b), n - 1);
      StepTells(a, b);
    }
  }

  function Mixed(crc: bv16, b: bv16): bv16 { crc ^ (b << 8) }

  lemma MixedTells(a: bv16, b: bv16, c: bv16)
    requires Mixed(a, c) == Mixed(b, c)
    ensures a == b
  {
  }

  lemma MixedTellsByte(a: bv16, x: bv16, y: bv16)
    requires Mixed(a, x) == Mixed(a, y) && x < 256 && y < 256
    ensures x == y
  {
  }

  lemma Narrowed(x: byte)
    ensures (x as bv16) as bv8 == x as bv8 && (x as bv16) < 256
  {
  }

  lemma ByteTells(x: byte, y: byte)
    requires x as bv16 == y as bv16
    ensures x == y
  {
    Narrowed(x);
    Narrowed(y);
    EightBits(x);
    EightBits(y);
  }

  lemma ByteStep(crc: bv16, b: byte)
    ensures CrcByte(crc, b) == CrcBits(Mixed(crc, b as bv16), 8)
  {
    hide CrcBits;
  }

  lemma SameByteTells(a: bv16, b: bv16, x: byte)
    requires CrcByte(a, x) == CrcByte(b, x)
    ensures a == b
  {
    hide CrcByte, CrcBits, Mixed;
    ByteStep(a, x);
    ByteStep(b, x);
    BitsTell(Mixed(a, x as bv16), Mixed(b, x as bv16), 8);
    MixedTells(a, b, x as bv16);
  }

  lemma OtherByteTells(a: bv16, x: byte, y: byte)
    requires CrcByte(a, x) == CrcByte(a, y)
    ensures x == y
  {
    hide CrcByte, CrcBits, Mixed;
    ByteStep(a, x);
    ByteStep(a, y);
    BitsTell(Mixed(a, x as bv16), Mixed(a, y as bv16), 8);
    Narrowed(x);
    Narrowed(y);
    MixedTellsByte(a, x as bv16, y as bv16);
    ByteTells(x, y);
  }

  lemma {:induction false} RunTells(a: seq<byte>, x: byte, y: byte, b: seq<byte>)
    requires CrcRun(a + [x] + b) == CrcRun(a + [y] + b)
    ensures x == y
    decreases |b|
  {
    hide CrcByte;
    var s, t := a + [x] + b, a + [y] + b;
    if b == [] {
      assert s[..|s| - 1] == a == t[..|t| - 1];
      OtherByteTells(CrcRun(a), x, y);
    } else {
      var n := |b| - 1;
      assert s[..|s| - 1] == a + [x] + b[..n] && t[..|t| - 1] == a + [y] + b[..n];
      SameByteTells(CrcRun(a + [x] + b[..n]), CrcRun(a + [y] + b[..n]), b[n]);
      RunTells(a, x, y, b[..n]);
    }
  }

  lemma NumberBack(a: bv16)
    ensures (a as int) as bv16 == a
  {
  }

  lemma NumberTells(a: bv16, b: bv16)
    requires a as int == b as int
    ensures a == b
  {
    NumberBack(a);
    NumberBack(b);
  }

  /** Two texts that differ in one byte have different checksums. */
  lemma OneByteTold(a: seq<byte>, x: byte, y: byte, b: seq<byte>)
    requires x != y
    ensures Crc16(a + [x] + b) != Crc16(a + [y] + b)
  {
    hide CrcRun;
    if Crc16(a + [x] + b) == Crc16(a + [y] + b) {
      NumberTells(CrcRun(a + [x] + b), CrcRun(a + [y] + b));
      RunTells(a, x, y, b);
    }
  }

  /**
   * A frame that would be taken is not taken any more when one of its bytes is wrong: its command, its number, one of
   * its payload or of its checksum.
   */
  lemma WrongByteIsNotTaken(side: Side, s: seq<byte>, i: nat, y: byte)
    requires LookAt(side, s).Take? && i < FrameLength(s) && i !in {4, 5} && s[i] != y
    ensures !LookAt(side, s[i := y]).Take?
  {
    hide Crc16, Accepts, Limit;
    var t, n := s[i := y], FrameLength(s);
    var k := n - CRC_SIZE;
    if LookAt(side, t).Take? {
      assert FrameLength(t) == n;
      if i < k {
        var a, b := s[..i], s[i + 1..k];
        assert s[..k] == a + [s[i]] + b && t[..k] == a + [y] + b;
        OneByteTold(a, s[i], y, b);
      }
    }
  }

  /** The checksum of the first digit of the usual test text, as CRC-16/CCITT-FALSE has it. */
  lemma FirstDigit()
    ensures Crc16([0x31]) == 0xC782
  {
    assert (0xFFFF as bv16) ^ ((0x31 as bv16) << 8) == 0xCEFF;
    assert CrcStep(0xCEFF) == 0x8DDF;
    assert CrcStep(0x8DDF) == 0x0B9F;
    assert CrcStep(0x0B9F) == 0x173E;
    assert CrcStep(0x173E) == 0x2E7C;
    assert CrcStep(0x2E7C) == 0x5CF8;
    assert CrcStep(0x5CF8) == 0xB9F0;
    assert CrcStep(0xB9F0) == 0x63C1;
    assert CrcStep(0x63C1) == 0xC782;
    assert CrcBits(0xCEFF, 8) == 0xC782;
    assert [0x31][..0] == [];
    assert CrcRun([0x31]) == CrcByte(0xFFFF, 0x31);
  }
}
