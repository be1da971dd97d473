/** The two incremental parsers of the USB recovery link, over bounded buffers, against one scan of the stream. */
module UsbParsers {
  import opened Bytes
  import opened UsbFrames

  /** A bounded buffer keeps the latest bytes. */
  function Latest(s: seq<byte>): seq<byte> { if |s| <= PARSER_CAPACITY then s else s[|s| - PARSER_CAPACITY..] }

  lemma LatestOn(s: seq<byte>, b: byte)
    ensures Latest(Latest(s) + [b]) == Latest(s + [b])
  {
  }

  lemma LatestShort(s: seq<byte>)
    requires |s| <= PARSER_CAPACITY
    ensures Latest(s) == s
  {
  }

  lemma LatestByte(s: seq<byte>, b: byte)
    requires |s| <= PARSER_CAPACITY
    ensures Latest(s + [b]) == if |s| == PARSER_CAPACITY then s[1..] + [b] else s + [b]
  {
  }

  predicate MagicAt(s: seq<byte>, i: nat)
    requires i < |s|
  {
    i + 1 < |s| && s[i] == MAGIC0 && s[i + 1] == MAGIC1
  }

  /** Places where no magic starts are skipped. */
  lemma {:induction false} SkipTo(side: Side, s: seq<byte>, k: nat)
    requires k < |s| && forall i | 0 <= i < k :: !MagicAt(s, i)
    ensures Scan(side, s) == Scan(side, s[k..])
  {
    if k > 0 {
      assert !MagicAt(s, 0);
      assert LookAt(side, s).Skip?;
      assert s[1..][k - 1..] == s[k..];
      forall i | 0 <= i < k - 1 ensures !MagicAt(s[1..], i) { assert !MagicAt(s, i + 1); }
      SkipTo(side, s[1..], k - 1);
    }
  }

  lemma NoMagic(side: Side, s: seq<byte>)
    requires forall i | 0 <= i < |s| - 1 :: !MagicAt(s, i)
    ensures Scan(side, s) == ([], if s != [] && s[|s| - 1] == MAGIC0 then [MAGIC0] else [])
  {
    if s != [] {
      SkipTo(side, s, |s| - 1);
      assert s[|s| - 1..] == [s[|s| - 1]];
    }
  }

  /** The device counts ticks in 32 bits; the host's clock does not wrap, and never runs backwards. */
  function Elapsed(side: Side, now: nat, last: nat): nat {
    match side
    case Device => (now - last) % 0x1_0000_0000
    case Host => if now < last then 0 else now - last
  }

  // ----- the device -----

  class DeviceParser {
    const side: Side
    const idleTicks: nat
    const buffer: array<byte>
    var size: nat
    var lastActivity: u32

    ghost predicate Valid()
      reads this
    {
      side.Device? && buffer.Length == PARSER_CAPACITY && size <= PARSER_CAPACITY
    }

    ghost function Contents(): seq<byte>
      requires Valid()
      reads this, buffer
    {
      buffer[..size]
    }

    constructor (idleTicks: nat)
      ensures Valid() && side == Device && this.idleTicks == idleTicks && Contents() == [] && fresh(buffer)
    {
      side, this.idleTicks, size, lastActivity := Device, idleTicks, 0, 0;
      buffer := new byte[PARSER_CAPACITY];
    }

    /** Moves what the buffer holds towards its start. */
    method Shift(count: nat)
      requires Valid() && count <= size
      modifies buffer
      ensures buffer[..size - count] == old(Contents())[count..]
    {
      ghost var before := Contents();
      for j := 0 to size - count
        invariant buffer[..j] == before[count..count + j]
        invariant buffer[j..size] == before[j..]
      {
        assert buffer[j + count] == buffer[j..size][count] == before[j..][count];
        buffer[j] := buffer[j + count];
      }
    }

    method DropOldest()
      requires Valid() && size > 0
      modifies this`size, buffer
      ensures Valid() && size == old(size) - 1 && Contents() == old(Contents())[1..]
    {
      Shift(1);
      size := size - 1;
    }

    method Put(b: byte)
      requires Valid() && size < PARSER_CAPACITY
      modifies this`size, buffer
      ensures Valid() && Contents() == old(Contents()) + [b]
    {
      buffer[size] := b;
      size := size + 1;
    }

    method Append(b: byte)
      requires Valid()
      modifies this`size, buffer
      ensures Valid() && Contents() == Latest(old(Contents()) + [b])
    {
      hide Latest;
      LatestByte(Contents(), b);
      if size == PARSER_CAPACITY { DropOldest(); }
      Put(b);
    }

    method Feed(bytes: seq<byte>, now: u32)
      requires Valid()
      modifies this, buffer
      ensures Valid() && Contents() == Latest(old(Contents()) + bytes)
      ensures lastActivity == if bytes == [] then old(lastActivity) else now
    {
      hide Latest;
      LatestShort(Contents());
      if bytes == [] {
        assert Contents() + [] == Contents();
        return;
      }
      lastActivity := now;
      ghost var start := Contents();
      assert start + bytes[..0] == start;
      for i := 0 to |bytes|
        invariant Valid() && Contents() == Latest(start + bytes[..i]) && lastActivity == now
      {
        ghost var before := Contents();
        Append(bytes[i]);
        LatestOn(start + bytes[..i], bytes[i]);
        assert start + bytes[..i] + [bytes[i]] == start + bytes[..i + 1];
      }
      assert bytes[..|bytes|] == bytes;
    }

    method ResetIfIdle(now: u32)
      requires Valid()
      modifies this
      ensures Valid() && lastActivity == old(lastActivity)
      ensures Contents() == if old(Contents()) != [] && Elapsed(side, now, lastActivity) >= idleTicks then []
        else old(Contents())
    {
      if size != 0 && Elapsed(side, now, lastActivity) >= idleTicks {
        size := 0;
      }
    }

    method Discard(count: nat)
      requires Valid()
      modifies this`size, buffer
      ensures Valid() && Contents() == if count >= old(size) then [] else old(Contents())[count..]
    {
      if count >= size {
        size := 0;
        return;
      }
      Shift(count);
      size := size - count;
    }

    /** Drops what is before the first magic; without one, everything but a byte that may be the start of it. */
    method FindMagic() returns (found: bool)
      requires Valid()
      modifies this`size, buffer
      ensures Valid() && size <= old(size) && Scan(side, Contents()) == old(Scan(side, Contents()))
      ensures if found then size >= 2 && buffer[0] == MAGIC0 && buffer[1] == MAGIC1
        else Scan(side, Contents()) == ([], Contents())
    {
      hide Scan;
      ghost var before := Contents();
      var magic := 0;
      while magic + 1 < size && !(buffer[magic] == MAGIC0 && buffer[magic + 1] == MAGIC1)
        invariant 0 <= magic && (size > 0 ==> magic < size) && (size == 0 ==> magic == 0)
        invariant forall i | 0 <= i < magic :: !MagicAt(before, i)
      {
        magic := magic + 1;
      }
      if magic + 1 >= size {
        NoMagic(side, before);
        if size != 0 && buffer[size - 1] == MAGIC0 {
          buffer[0] := MAGIC0;
          size := 1;
        } else {
          size := 0;
        }
        assert Contents() == if before != [] && before[|before| - 1] == MAGIC0 then [MAGIC0] else [];
        NoMagic(side, Contents());
        return false;
      }
      SkipTo(side, before, magic);
      Discard(magic);
      assert Contents()[0] == before[magic] && Contents()[1] == before[magic + 1];
      return true;
    }

    /** The next frame of the scan, or what the scan leaves waiting. */
    method Next() returns (found: bool, out: Frame)
      requires Valid()
      modifies this`size, buffer
      ensures Valid()
      ensures var before, after := Scan(side, old(Contents())), Scan(side, Contents());
              if found then before == ([out] + after.0, after.1) && size < old(size)
              else before == ([], Contents())
    {
      hide Scan, Accepts, Limit, Crc16;
      out := Frame(0, 0, []);
      while true
        invariant Valid() && Scan(side, Contents()) == old(Scan(side, Contents())) && size <= old(size)
        decreases size
      {
        found := FindMagic();
        if !found { return; }
        OneLook(side, Contents());
        found := false;
        if size < HEADER_SIZE { return; }
        var length := Word(buffer[4], buffer[5]);
        if buffer[2] != VERSION || !Accepts(side, buffer[3]) || length > Limit(side, buffer[3]) {
          Discard(1);
          continue;
        }
        var frameLength := HEADER_SIZE + length + CRC_SIZE;
        if size < frameLength { return; }
        var expected := Word(buffer[frameLength - 2], buffer[frameLength - 1]);
        var crc := ComputeCrc16(buffer[..frameLength - CRC_SIZE]);
        assert Contents()[..frameLength - CRC_SIZE] == buffer[..frameLength - CRC_SIZE];
        if crc != expected {
          Discard(1);
          continue;
        }
        out := Frame(buffer[3], buffer[6], buffer[HEADER_SIZE..HEADER_SIZE + length]);
        assert out == FrameIn(Contents());
        assert size == frameLength ==> Contents()[frameLength..] == [];
        Discard(frameLength);
        return true, out;
      }
    }
  }

  /** One step of the scan. */
  lemma OneLook(side: Side, s: seq<byte>)
    ensures match LookAt(side, s)
      case Wait => Scan(side, s) == ([], s)
      case Skip => Scan(side, s) == Scan(side, s[1..])
      case Take => Scan(side, s) == ([FrameIn(s)] + Scan(side, s[FrameLength(s)..]).0,
        Scan(side, s[FrameLength(s)..]).1)
  {
    hide LookAt;
  }
}
