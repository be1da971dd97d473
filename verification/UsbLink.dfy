/**
 * The receive loops of both ends of the USB recovery link: any way of
 * cutting the stream into reads gives one scan of it.
 */
module UsbLink {
  import opened Bytes
  import opened UsbFrames
  import opened UsbParsers

  const DEVICE_READ := 64
  const HOST_READ := MAX_FRAME

  // ----- the host's parser -----

  class HostParser {
    const idleTime: nat
    var buffer: seq<byte>
    var lastActivity: nat

    constructor (idleTime: nat)
      ensures buffer == [] && lastActivity == 0 && this.idleTime == idleTime
    {
      this.idleTime, buffer, lastActivity := idleTime, [], 0;
    }

    method ResetIfIdle(now: nat)
      modifies this`buffer
      ensures buffer == if old(buffer) != [] && Elapsed(Host, now, lastActivity) >= idleTime then [] else old(buffer)
    {
      if buffer != [] && Elapsed(Host, now, lastActivity) >= idleTime {
        buffer := [];
      }
    }

    method Feed(chunk: seq<byte>, now: nat) returns (frames: seq<Frame>)
      modifies this
      ensures (frames, buffer) == Scan(Host, Latest(old(buffer) + Latest(chunk)))
      ensures lastActivity == if chunk == [] then old(lastActivity) else now
    {
      hide Scan, Latest, Accepts, Limit, Crc16;
      if chunk != [] { lastActivity := now; }
      var data := KeepLatest(chunk);
      buffer := KeepLatest(buffer + data);
      frames := [];
      ghost var all := Scan(Host, buffer);
      assert [] + all.0 == all.0;
      while true
        invariant all == (frames + Scan(Host, buffer).0, Scan(Host, buffer).1)
        invariant lastActivity == if chunk == [] then old(lastActivity) else now
        decreases |buffer|
      {
        ghost var before := buffer;
        var magic := FindMagic(buffer);
        if magic.None? {
          NoMagic(Host, buffer);
          buffer := if buffer != [] && buffer[|buffer| - 1] == MAGIC0 then [MAGIC0] else [];
          NoMagic(Host, buffer);
          assert frames + [] == frames;
          return;
        }
        SkipTo(Host, buffer, magic.value);
        buffer := buffer[magic.value..];
        OneLook(Host, buffer);
        assert frames + [] == frames;
        if |buffer| < HEADER_SIZE { return; }
        if !HeaderFits(Host, buffer) {
          buffer := buffer[1..];
          continue;
        }
        var length := FrameLength(buffer);
        if |buffer| < length { return; }
        var crc := ComputeCrc16(buffer[..length - CRC_SIZE]);
        if crc != Word(buffer[length - 2], buffer[length - 1]) {
          buffer := buffer[1..];
          continue;
        }
        var frame := FrameIn(buffer);
        assert frames + ([frame] + Scan(Host, buffer[length..]).0)
          == (frames + [frame]) + Scan(Host, buffer[length..]).0;
        frames := frames + [frame];
        buffer := buffer[length..];
      }
    }
  }

  method KeepLatest(s: seq<byte>) returns (r: seq<byte>)
    ensures r == Latest(s)
  {
    r := s;
    if |r| > PARSER_CAPACITY { r := r[|r| - PARSER_CAPACITY..]; }
  }

  method FindMagic(s: seq<byte>) returns (at: Option<nat>)
    ensures at.Some? ==> at.value < |s| && MagicAt(s, at.value) && forall i | 0 <= i < at.value :: !MagicAt(s, i)
    ensures at.None? ==> forall i | 0 <= i < |s| - 1 :: !MagicAt(s, i)
  {
    var i := 0;
    while i + 1 < |s|
      invariant 0 <= i && forall k | 0 <= k < i && k < |s| :: !MagicAt(s, k)
    {
      if s[i] == MAGIC0 && s[i + 1] == MAGIC1 { return Some(i); }
      i := i + 1;
    }
    return None;
  }

  // ----- reads -----

  datatype Read = Read(now: nat, bytes: seq<byte>)

  /** What is received over a run of reads, when a wait that is too long drops an unfinished frame. */
  function Received(side: Side, idle: nat, rest: seq<byte>, last: nat, inputs: seq<Read>): (seq<Frame>, seq<byte>)
    decreases |inputs|
  {
    if inputs == [] then ([], rest) else
      var kept := if rest != [] && Elapsed(side, inputs[0].now, last) >= idle then [] else rest;
      if inputs[0].bytes == [] then Received(side, idle, kept, last, inputs[1..]) else
        var s := Scan(side, kept + inputs[0].bytes);
        var r := Received(side, idle, s.1, inputs[0].now, inputs[1..]);
        (s.0 + r.0, r.1)
  }

  /** No wait is too long while an unfinished frame is waiting; between frames a wait may take any time. */
  predicate Lively(side: Side, idle: nat, rest: seq<byte>, last: nat, inputs: seq<Read>)
    decreases |inputs|
  {
    inputs == [] ||
      var bytes, now := inputs[0].bytes, inputs[0].now;
      && (rest != [] ==> Elapsed(side, now, last) < idle)
      && Lively(side, idle, Scan(side, rest + bytes).1, if bytes == [] then last else now, inputs[1..])
  }

  function Stream(inputs: seq<Read>): seq<byte> { if inputs == [] then [] else inputs[0].bytes + Stream(inputs[1..]) }

  /** The cuts between reads make no difference. */
  lemma {:induction false} OneScan(side: Side, idle: nat, rest: seq<byte>, last: nat, inputs: seq<Read>)
    requires Lively(side, idle, rest, last, inputs) && LookAt(side, rest).Wait?
    ensures Received(side, idle, rest, last, inputs) == Scan(side, rest + Stream(inputs))
    decreases |inputs|
  {
    hide Scan, LookAt, Elapsed;
    if inputs == [] {
      assert rest + [] == rest;
      OneLook(side, rest);
    } else {
      var bytes, more := inputs[0].bytes, Stream(inputs[1..]);
      assert rest + (bytes + more) == (rest + bytes) + more;
      if bytes == [] {
        assert bytes + more == more && rest + bytes == rest;
        OneLook(side, rest);
        OneScan(side, idle, rest, last, inputs[1..]);
      } else {
        ScanLeaves(side, rest + bytes);
        ScanMore(side, rest + bytes, more);
        OneScan(side, idle, Scan(side, rest + bytes).1, inputs[0].now, inputs[1..]);
      }
    }
  }

  /** Nothing is ever dropped: what is left waiting and one more read fit the buffer. */
  lemma NothingDropped(side: Side, rest: seq<byte>, bytes: seq<byte>)
    requires LookAt(side, rest).Wait? && |bytes| <= (if side.Host? then HOST_READ else DEVICE_READ)
    ensures Latest(rest + bytes) == rest + bytes && Latest(bytes) == bytes
  {
    hide LookAt, Latest;
    WaitIsShort(side, rest);
    LatestShort(rest + bytes);
    LatestShort(bytes);
  }

  // ----- the loops -----

  /** One turn of the device's loop: the frames that are handled. */
  method DeviceTurn(parser: DeviceParser, read: Read) returns (frames: seq<Frame>)
    requires parser.Valid() && LookAt(parser.side, parser.Contents()).Wait? && |read.bytes| <= DEVICE_READ
    requires read.now < 0x1_0000_0000
    modifies parser, parser.buffer
    ensures parser.Valid() && LookAt(parser.side, parser.Contents()).Wait?
    ensures var kept := if old(parser.Contents()) != []
      && Elapsed(parser.side, read.now, old(parser.lastActivity)) >= parser.idleTicks
                        then [] else old(parser.Contents());
            if read.bytes == [] then
              frames == [] && parser.Contents() == kept && parser.lastActivity == old(parser.lastActivity)
            else (frames, parser.Contents()) == Scan(parser.side, kept + read.bytes) && parser.lastActivity == read.now
  {
    hide Scan, LookAt, Latest, Elapsed;
    EmptyWaits(parser.side);
    parser.ResetIfIdle(read.now);
    frames := [];
    if read.bytes == [] { return; }
    NothingDropped(parser.side, parser.Contents(), read.bytes);
    ghost var whole := parser.Contents() + read.bytes;
    ghost var all := Scan(parser.side, whole);
    ScanLeaves(parser.side, whole);
    parser.Feed(read.bytes, read.now);
    assert [] + all.0 == all.0;
    while true
      invariant parser.Valid() && parser.lastActivity == read.now
      invariant all == (frames + Scan(parser.side, parser.Contents()).0, Scan(parser.side, parser.Contents()).1)
      decreases parser.size
    {
      ghost var now := Scan(parser.side, parser.Contents());
      var found, frame := parser.Next();
      if !found {
        assert frames + [] == frames;
        return;
      }
      ghost var after := Scan(parser.side, parser.Contents());
      assert frames + ([frame] + after.0) == (frames + [frame]) + after.0;
      frames := frames + [frame];
    }
  }

  lemma EmptyWaits(side: Side)
    ensures LookAt(side, []).Wait?
  {
  }

  /**
   * The device's loop handles exactly what is received; without long
   * waits, the frames of one scan of the whole stream.
   */
  method DeviceLoop(idle: nat, inputs: seq<Read>) returns (frames: seq<Frame>)
    requires forall r | r in inputs :: |r.bytes| <= DEVICE_READ && r.now < 0x1_0000_0000
    ensures frames == Received(Device, idle, [], 0, inputs).0
    ensures Lively(Device, idle, [], 0, inputs) ==> frames == Scan(Device, Stream(inputs)).0
  {
    hide Scan, LookAt, Elapsed, Received;
    EmptyWaits(Device);
    if Lively(Device, idle, [], 0, inputs) {
      OneScan(Device, idle, [], 0, inputs);
      assert [] + Stream(inputs) == Stream(inputs);
    }
    var parser := new DeviceParser(idle);
    parser.lastActivity := 0;
    frames := [];
    ghost var all := Received(Device, idle, [], 0, inputs).0;
    assert [] + all == all && inputs[0..] == inputs;
    for i := 0 to |inputs|
      invariant parser.Valid() && fresh(parser) && fresh(parser.buffer) && LookAt(parser.side, parser.Contents()).Wait?
      invariant all == frames + Received(Device, idle, parser.Contents(), parser.lastActivity, inputs[i..]).0
      invariant parser.side == Device && parser.idleTicks == idle
    {
      ReceivedStep(parser.side, idle, parser.Contents(), parser.lastActivity, inputs[i..]);
      assert inputs[i..][1..] == inputs[i + 1..];
      var more := DeviceTurn(parser, inputs[i]);
      ghost var later := Received(Device, idle, parser.Contents(), parser.lastActivity, inputs[i + 1..]).0;
      assert frames + (more + later) == (frames + more) + later;
      assert [] + later == later;
      frames := frames + more;
    }
    ReceivedDone(parser.side, idle, parser.Contents(), parser.lastActivity, inputs[|inputs|..]);
    assert frames + [] == frames;
  }

  lemma ReceivedDone(side: Side, idle: nat, rest: seq<byte>, last: nat, inputs: seq<Read>)
    requires inputs == []
    ensures Received(side, idle, rest, last, inputs) == ([], rest)
  {
  }

  lemma ReceivedStep(side: Side, idle: nat, rest: seq<byte>, last: nat, inputs: seq<Read>)
    requires inputs != []
    ensures var kept := if rest != [] && Elapsed(side, inputs[0].now, last) >= idle then [] else rest;
            var s := if inputs[0].bytes == [] then ([], kept) else Scan(side, kept + inputs[0].bytes);
            var now := if inputs[0].bytes == [] then last else inputs[0].now;
            Received(side, idle, rest, last, inputs).0 == s.0 + Received(side, idle, s.1, now, inputs[1..]).0
  {
    hide Scan, Elapsed;
    var kept := if rest != [] && Elapsed(side, inputs[0].now, last) >= idle then [] else rest;
    if inputs[0].bytes == [] {
      assert [] + Received(side, idle, kept, last, inputs[1..]).0 == Received(side, idle, kept, last, inputs[1..]).0;
    }
  }

  /** One turn of the host's loop. */
  method HostTurn(parser: HostParser, read: Read) returns (frames: seq<Frame>)
    requires LookAt(Host, parser.buffer).Wait? && |read.bytes| <= HOST_READ
    modifies parser
    ensures LookAt(Host, parser.buffer).Wait?
    ensures var kept := if old(parser.buffer) != []
      && Elapsed(Host, read.now, old(parser.lastActivity)) >= parser.idleTime
                        then [] else old(parser.buffer);
            if read.bytes == [] then
              frames == [] && parser.buffer == kept && parser.lastActivity == old(parser.lastActivity)
            else (frames, parser.buffer) == Scan(Host, kept + read.bytes) && parser.lastActivity == read.now
  {
    hide Scan, LookAt, Latest, Elapsed;
    EmptyWaits(Host);
    parser.ResetIfIdle(read.now);
    frames := [];
    if read.bytes == [] { return; }
    NothingDropped(Host, parser.buffer, read.bytes);
    ScanLeaves(Host, parser.buffer + read.bytes);
    frames := parser.Feed(read.bytes, read.now);
  }

  /** And so does the host's: it is given exactly what is received. */
  method HostLoop(idle: nat, inputs: seq<Read>) returns (frames: seq<Frame>)
    requires forall r | r in inputs :: |r.bytes| <= HOST_READ
    ensures frames == Received(Host, idle, [], 0, inputs).0
    ensures Lively(Host, idle, [], 0, inputs) ==> frames == Scan(Host, Stream(inputs)).0
  {
    hide Scan, LookAt, Elapsed, Received;
    EmptyWaits(Host);
    if Lively(Host, idle, [], 0, inputs) {
      OneScan(Host, idle, [], 0, inputs);
      assert [] + Stream(inputs) == Stream(inputs);
    }
    var parser := new HostParser(idle);
    frames := [];
    ghost var all := Received(Host, idle, [], 0, inputs).0;
    assert [] + all == all && inputs[0..] == inputs;
    for i := 0 to |inputs|
      invariant fresh(parser) && LookAt(Host, parser.buffer).Wait? && parser.idleTime == idle
      invariant all == frames + Received(Host, idle, parser.buffer, parser.lastActivity, inputs[i..]).0
    {
      ReceivedStep(Host, idle, parser.buffer, parser.lastActivity, inputs[i..]);
      assert inputs[i..][1..] == inputs[i + 1..];
      var more := HostTurn(parser, inputs[i]);
      ghost var later := Received(Host, idle, parser.buffer, parser.lastActivity, inputs[i + 1..]).0;
      assert frames + (more + later) == (frames + more) + later;
      assert [] + later == later;
      frames := frames + more;
    }
    ReceivedDone(Host, idle, parser.buffer, parser.lastActivity, inputs[|inputs|..]);
    assert frames + [] == frames;
  }

  // ----- end to end -----

  /**
   * The host refuses to build what the device would not take, but for
   * what may follow the selector of the update state.
   */
  predicate HostBuilds(f: Frame) {
    && STATE <= f.command <= OTA_MIGRATION_RECOVER && |f.payload| <= HostLimit(f.command)
    && (f.command == OTA_STATE ==> f.payload == [] || f.payload == [1])
  }

  /** A request that the host builds is taken by the device. */
  lemma RequestTaken(f: Frame)
    requires HostBuilds(f)
    ensures Sendable(Device, f)
  {
  }

  /** `build_frame` and `write_frame`. */
  method BuildFrame(f: Frame) returns (bytes: seq<byte>)
    requires |f.payload| <= MAX_PAYLOAD
    ensures bytes == Encode(f)
  {
    hide Crc16;
    var n: u16 := |f.payload|;
    bytes := [MAGIC0, MAGIC1, VERSION, f.command, n % 0x100, n / 0x100, f.sequence] + f.payload;
    assert bytes == Unsigned(f);
    var crc := ComputeCrc16(bytes);
    bytes := bytes + [crc % 0x100, crc / 0x100];
  }

  /**
   * Frames reach the other side in order and unchanged, however its
   * reads cut them, exactly if it takes every one of them.
   */
  lemma FramesArrive(side: Side, fs: seq<Frame>, idle: nat, inputs: seq<Read>)
    requires forall f | f in fs :: |f.payload| <= MAX_PAYLOAD
    requires Lively(side, idle, [], 0, inputs) && Stream(inputs) == EncodeAll(fs)
    ensures Received(side, idle, [], 0, inputs).0 == fs <==> forall f | f in fs :: Sendable(side, f)
    ensures (forall f | f in fs :: Sendable(side, f)) ==> Received(side, idle, [], 0, inputs).1 == []
  {
    hide Scan, LookAt, Encode, Sendable, Lively;
    EmptyWaits(side);
    OneScan(side, idle, [], 0, inputs);
    assert [] + Stream(inputs) == EncodeAll(fs) + [] == EncodeAll(fs);
    OnlyTaken(side, EncodeAll(fs));
    if forall f | f in fs :: Sendable(side, f) {
      AllDelivered(side, fs, []);
      OneLook(side, []);
      assert fs + [] == fs;
    }
  }

  /** What is delivered is what the receiver takes. */
  lemma {:induction false} OnlyTaken(side: Side, s: seq<byte>)
    ensures forall f | f in Scan(side, s).0 :: Sendable(side, f)
    decreases |s|
  {
    match LookAt(side, s)
    case Wait =>
    case Skip => OnlyTaken(side, s[1..]);
    case Take => OnlyTaken(side, s[FrameLength(s)..]);
  }

  /** All requests that the host builds reach the device. */
  lemma RequestsArrive(fs: seq<Frame>, idle: nat, inputs: seq<Read>)
    requires forall f | f in fs :: |f.payload| <= MAX_PAYLOAD && HostBuilds(f)
    requires Lively(Device, idle, [], 0, inputs) && Stream(inputs) == EncodeAll(fs)
    ensures Received(Device, idle, [], 0, inputs) == (fs, [])
  {
    hide HostBuilds, Sendable, Received, Encode, Lively;
    forall f | f in fs ensures Sendable(Device, f) { RequestTaken(f); }
    FramesArrive(Device, fs, idle, inputs);
  }

  /** However long the waits are: reads that end where a frame ends lose nothing. */
  lemma {:induction false} WholeFramesAreLively(side: Side, idle: nat, last: nat, inputs: seq<Read>,
    groups: seq<seq<Frame>>)
    requires |inputs| == |groups|
    requires forall i | 0 <= i < |groups| :: forall f | f in groups[i] ::
      |f.payload| <= MAX_PAYLOAD && Sendable(side, f)
    requires forall i | 0 <= i < |groups| :: inputs[i].bytes == EncodeAll(groups[i])
    ensures Lively(side, idle, [], last, inputs)
    decreases |inputs|
  {
    hide Scan, LookAt, Encode, Sendable, Elapsed;
    if inputs != [] {
      var bytes := inputs[0].bytes;
      AllDelivered(side, groups[0], []);
      EmptyWaits(side);
      OneLook(side, []);
      assert [] + bytes == bytes + [] == EncodeAll(groups[0]) + [];
      WholeFramesAreLively(side, idle, if bytes == [] then last else inputs[0].now, inputs[1..], groups[1..]);
    }
  }
}
