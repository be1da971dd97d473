/**
 * The frames of the USB recovery link. What a receiver delivers is given by one scan of everything
 * it has received, however the bytes were cut into reads.
 */
module UsbFrames {
  import opened Bytes

  const MAGIC0: byte := 'S' as int
  const MAGIC1: byte := 'R' as int
  const VERSION: byte := 1
  const HEADER_SIZE := 7
  const CRC_SIZE := 2
  const MAX_PAYLOAD := 194
  const MAX_FRAME := HEADER_SIZE + MAX_PAYLOAD + CRC_SIZE
  const PARSER_CAPACITY := MAX_FRAME * 2
  const RESPONSE_MASK := 0x80

  const STATE: byte := 1
  const WIFI_PROVISION: byte := 2
  const WIFI_PROVISION_ASYNC: byte := 3
  const WIFI_PROVISION_STATUS: byte := 4
  const MODEM_QUERY: byte := 5
  const OTA_STATE: byte := 6
  const OTA_MIGRATION_RECOVER: byte := 7

  datatype Frame = Frame(command: byte, sequence: byte, payload: seq<byte>)

  /** The two receivers. */
  datatype Side = Device | Host

  predicate Accepts(side: Side, command: byte) {
    match side
    case Device => STATE <= command <= OTA_MIGRATION_RECOVER
    case Host => RESPONSE_MASK + STATE <= command <= RESPONSE_MASK + OTA_MIGRATION_RECOVER
  }

  function Limit(side: Side, command: byte): (r: nat)
    ensures r <= MAX_PAYLOAD
  {
    match side
    case Device =>
      if command == MODEM_QUERY then 1 else if command == OTA_STATE then 1
      else if command == OTA_MIGRATION_RECOVER then 0
      else if command == WIFI_PROVISION_ASYNC then 104 else 100
    case Host => if command == RESPONSE_MASK + MODEM_QUERY then MAX_PAYLOAD else HostLimit(command)
  }

  /** The limits of the host, as it also applies them to what it sends. */
  function HostLimit(command: byte): (r: nat)
    ensures r <= MAX_PAYLOAD
  {
    if command == WIFI_PROVISION_ASYNC then 104
    else if command == MODEM_QUERY then 1
    else if command == RESPONSE_MASK + MODEM_QUERY then MAX_PAYLOAD
    else if command == OTA_STATE then 1
    else if command == OTA_MIGRATION_RECOVER then 0
    else 100
  }

  // ----- the checksum -----

  function CrcStep(crc: bv16): bv16 { if crc & 0x8000 != 0 then (crc << 1) ^ 0x1021 else crc << 1 }

  function CrcBits(crc: bv16, n: nat): bv16
    decreases n
  {
    if n == 0 then crc else CrcBits(CrcStep(crc), n - 1)
  }

  function CrcByte(crc: bv16, b: byte): bv16 { CrcBits(crc ^ ((b as bv16) << 8), 8) }

  function CrcRun(s: seq<byte>): bv16 { if s == [] then 0xFFFF else CrcByte(CrcRun(s[..|s| - 1]), s[|s| - 1]) }

  function Crc16(s: seq<byte>): u16 { CrcRun(s) as int }

  method ComputeCrc16(s: seq<byte>) returns (r: u16)
    ensures r == Crc16(s)
  {
    hide CrcStep;
    var crc: bv16 := 0xFFFF;
    for i := 0 to |s|
      invariant crc == CrcRun(s[..i])
    {
      assert s[..i + 1][..i] == s[..i];
      crc := crc ^ ((s[i] as bv16) << 8);
      var bit := 0;
      while bit < 8
        invariant 0 <= bit <= 8 && CrcBits(crc, 8 - bit) == CrcRun(s[..i + 1])
      {
        crc := CrcStep(crc);
        bit := bit + 1;
      }
    }
    assert s[..|s|] == s;
    return crc as int;
  }

  // ----- one scan -----

  function Word(low: byte, high: byte): u16 { low + high * 0x100 }

  function LowHigh(n: u16): (r: seq<byte>)
    ensures |r| == 2 && Word(r[0], r[1]) == n
  {
    [n % 0x100, n / 0x100]
  }

  predicate HeaderFits(side: Side, s: seq<byte>)
    requires |s| >= HEADER_SIZE
  {
    s[2] == VERSION && Accepts(side, s[3]) && Word(s[4], s[5]) <= Limit(side, s[3])
  }

  function FrameLength(s: seq<byte>): nat
    requires |s| >= HEADER_SIZE
  {
    HEADER_SIZE + Word(s[4], s[5]) + CRC_SIZE
  }

  predicate CrcFits(s: seq<byte>)
    requires |s| >= HEADER_SIZE && |s| >= FrameLength(s)
  {
    var n := FrameLength(s);
    Crc16(s[..n - CRC_SIZE]) == Word(s[n - 2], s[n - 1])
  }

  function FrameIn(s: seq<byte>): Frame
    requires |s| >= HEADER_SIZE && |s| >= FrameLength(s)
  {
    Frame(s[3], s[6], s[HEADER_SIZE..FrameLength(s) - CRC_SIZE])
  }

  /** What the bytes so far say of the place where they start. */
  datatype Look = Wait | Skip | Take

  function LookAt(side: Side, s: seq<byte>): (r: Look)
    ensures r.Skip? ==> |s| >= 1
    ensures r.Take? ==> |s| >= HEADER_SIZE && |s| >= FrameLength(s)
  {
    if s == [] then Wait
    else if s[0] != MAGIC0 then Skip
    else if |s| == 1 then Wait
    else if s[1] != MAGIC1 then Skip
    else if |s| < HEADER_SIZE then Wait
    else if !HeaderFits(side, s) then Skip
    else if |s| < FrameLength(s) then Wait
    else if !CrcFits(s) then Skip
    else Take
  }

  /** The frames of a stream, and the bytes that are left waiting for more. */
  function Scan(side: Side, s: seq<byte>): (r: (seq<Frame>, seq<byte>))
    decreases |s|
  {
    match LookAt(side, s)
    case Wait => ([], s)
    case Skip => Scan(side, s[1..])
    case Take => var r := Scan(side, s[FrameLength(s)..]); ([FrameIn(s)] + r.0, r.1)
  }

  /** What has been decided stays decided when more bytes come. */
  lemma LookMore(side: Side, s: seq<byte>, more: seq<byte>)
    requires !LookAt(side, s).Wait?
    ensures LookAt(side, s + more) == LookAt(side, s)
    ensures LookAt(side, s).Take? ==> FrameLength(s + more) == FrameLength(s) && FrameIn(s + more) == FrameIn(s)
  {
    hide Accepts, Limit, Crc16;
    var t := s + more;
    if |s| >= HEADER_SIZE && HeaderFits(side, s) && |s| >= FrameLength(s) {
      var n := FrameLength(s);
      assert t[..n - CRC_SIZE] == s[..n - CRC_SIZE];
      assert t[HEADER_SIZE..n - CRC_SIZE] == s[HEADER_SIZE..n - CRC_SIZE];
    }
  }

  /** Scanning in two parts is scanning at once: what was left waiting goes in front of what comes. */
  lemma {:induction false} ScanMore(side: Side, s: seq<byte>, more: seq<byte>)
    ensures var first := Scan(side, s);
            var second := Scan(side, first.1 + more);
            Scan(side, s + more) == (first.0 + second.0, second.1)
    decreases |s|
  {
    hide LookAt;
    match LookAt(side, s)
    case Wait =>
      assert [] + Scan(side, s + more).0 == Scan(side, s + more).0;
    case Skip =>
      LookMore(side, s, more);
      assert (s + more)[1..] == s[1..] + more;
      ScanMore(side, s[1..], more);
    case Take =>
      LookMore(side, s, more);
      var n := FrameLength(s);
      assert (s + more)[n..] == s[n..] + more;
      ScanMore(side, s[n..], more);
      var first := Scan(side, s[n..]);
      var second := Scan(side, first.1 + more);
      assert ([FrameIn(s)] + first.0) + second.0 == [FrameIn(s)] + (first.0 + second.0);
  }

  /** What is left waiting is shorter than a frame, and waiting means waiting. */
  lemma {:induction false} ScanLeaves(side: Side, s: seq<byte>)
    ensures LookAt(side, Scan(side, s).1).Wait? && |Scan(side, s).1| <= |s|
    decreases |s|
  {
    hide LookAt;
    match LookAt(side, s)
    case Wait =>
    case Skip => ScanLeaves(side, s[1..]);
    case Take => ScanLeaves(side, s[FrameLength(s)..]);
  }

  /** Less than a frame, by the longest frame that the receiver takes. */
  function Retained(side: Side): nat { if side.Host? then MAX_FRAME - 1 else HEADER_SIZE + 104 + CRC_SIZE - 1 }

  lemma WaitIsShort(side: Side, s: seq<byte>)
    requires LookAt(side, s).Wait?
    ensures |s| <= Retained(side)
  {
    hide Crc16;
  }

  // ----- frames that the other side builds -----

  predicate Sendable(side: Side, f: Frame) { Accepts(side, f.command) && |f.payload| <= Limit(side, f.command) }

  function Unsigned(f: Frame): seq<byte>
    requires |f.payload| <= MAX_PAYLOAD
  {
    [MAGIC0, MAGIC1, VERSION, f.command] + LowHigh(|f.payload|) + [f.sequence] + f.payload
  }

  function Encode(f: Frame): (r: seq<byte>)
    requires |f.payload| <= MAX_PAYLOAD
    ensures |r| == HEADER_SIZE + |f.payload| + CRC_SIZE
  {
    Unsigned(f) + LowHigh(Crc16(Unsigned(f)))
  }

  /**
   * A frame at the start of a stream is delivered exactly when the receiver takes its command with a payload so long.
   */
  lemma EncodedTakes(side: Side, f: Frame, rest: seq<byte>)
    requires |f.payload| <= MAX_PAYLOAD
    ensures LookAt(side, Encode(f) + rest) == if Sendable(side, f) then Take else Skip
    ensures FrameLength(Encode(f) + rest) == |Encode(f)| && FrameIn(Encode(f) + rest) == f
  {
    hide Accepts, Limit, Crc16;
    var s, n := Encode(f) + rest, |Encode(f)|;
    assert s[4..6] == LowHigh(|f.payload|);
    assert s[4] == s[4..6][0] && s[5] == s[4..6][1];
    assert FrameLength(s) == n;
    assert s[..n - CRC_SIZE] == Unsigned(f);
    assert s[HEADER_SIZE..n - CRC_SIZE] == f.payload;
  }

  function EncodeAll(fs: seq<Frame>): seq<byte>
    requires forall f | f in fs :: |f.payload| <= MAX_PAYLOAD
  {
    if fs == [] then [] else Encode(fs[0]) + EncodeAll(fs[1..])
  }

  /** Any frames that the receiver takes, one after the other, are delivered as they are and in order. */
  lemma {:induction false} AllDelivered(side: Side, fs: seq<Frame>, rest: seq<byte>)
    requires forall f | f in fs :: |f.payload| <= MAX_PAYLOAD && Sendable(side, f)
    ensures Scan(side, EncodeAll(fs) + rest) == (fs + Scan(side, rest).0, Scan(side, rest).1)
  {
    hide LookAt, Encode, Sendable, FrameIn, FrameLength;
    if fs == [] {
      assert EncodeAll(fs) + rest == rest;
      assert fs + Scan(side, rest).0 == Scan(side, rest).0;
    } else {
      var s, n := EncodeAll(fs) + rest, |Encode(fs[0])|;
      assert s == Encode(fs[0]) + (EncodeAll(fs[1..]) + rest);
      EncodedTakes(side, fs[0], EncodeAll(fs[1..]) + rest);
      assert s[n..] == EncodeAll(fs[1..]) + rest;
      AllDelivered(side, fs[1..], rest);
      assert [fs[0]] + (fs[1..] + Scan(side, rest).0) == fs + Scan(side, rest).0;
    }
  }

  /**
   * Bytes between frames that do not contain the first byte of the magic are lost without taking anything with them.
   */
  lemma {:induction false} NoiseIsSkipped(side: Side, noise: seq<byte>, s: seq<byte>)
    requires MAGIC0 !in noise
    ensures Scan(side, noise + s) == Scan(side, s)
  {
    if noise == [] {
      assert noise + s == s;
    } else {
      assert (noise + s)[1..] == noise[1..] + s;
      NoiseIsSkipped(side, noise[1..], s);
    }
  }
}
