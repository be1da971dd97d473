/** What the device answers over the USB recovery link, and what the host makes of it. */
module UsbAnswers {
  import opened Bytes
  import opened UsbFrames
  import opened UsbParsers
  import opened UsbLink
  import opened UsbProvision
  import Wire = ConfigWire

  const MAX_QUERY_ID := 0x12
  const QUERY_MSSLCIPHER: byte := 0x12
  const MAX_QUERY_RESPONSE := 192
  const KEY_BYTES := 32

  datatype Query = QueryFailed(status: Status) | QueryBusy(reason: byte) | Response(bytes: seq<byte>, telemetry: byte)

  datatype Ota = OtaFailed(ota: Status) | OtaIs(offset: u32, image: byte, verifying: bool, accepted: u32, pending: u32,
    address: u32)

  datatype Key = KeyFailed(key: Status) | KeyIs(digest: seq<byte>)

  /** What the services behind the link say when the frame is handled. */
  datatype World = World(
    wifiFlags: byte, ip: seq<byte>, boot: u32,
    provisioned: Status, provisioning: State, connected: bool,
    query: Query, ota: Ota, key: Key, recovered: Status)

  predicate WorldOk(w: World) {
    |w.ip| == 4 && (w.key.KeyIs? ==> |w.key.digest| == KEY_BYTES)
  }

  function Code(s: Status): byte {
    match s
    case Ok => 0
    case InvalidArg => 1
    case NotFound => 2
    case InvalidState => 3
    case Timeout => 4
    case NoMem => 5
    case Busy => 6
    case NotReady => 7
    case Internal => 255
  }

  function ProgressCode(p: Progress): byte {
    match p case Idle => 0 case Pending => 1 case SetupStarted => 2 case Failed => 3
  }

  /** A station that is seen to be connected is reported as such, once the connection has been started. */
  function ConnectionCode(p: Progress, c: Connection, connected: bool): byte {
    match c
    case Unknown => 0
    case Starting => if p == SetupStarted && connected then 2 else 1
    case GaveUp => 3
  }

  // ----- the answers as values -----

  /** The status, and the bytes that follow it. */
  datatype Content = Content(status: Status, data: seq<byte>)

  function Refusal(s: Status): Content { Content(s, []) }

  function StatusContent(f: Frame, w: World): Content {
    if |f.payload| != 8 then Refusal(InvalidArg) else
      match StatusOf(w.provisioning, ReadNonce(f.payload))
      case None => Refusal(NotFound)
      case Some(r) =>
        Content(Ok, Wire.Little(ReadNonce(f.payload), 8)
          + [ProgressCode(r.0), Code(r.1), ConnectionCode(r.0, r.2, w.connected)])
  }

  function QueryContent(f: Frame, w: World): Content {
    if |f.payload| != 1 || f.payload[0] == 0 || f.payload[0] > MAX_QUERY_ID then Refusal(InvalidArg) else
      match w.query
      case QueryFailed(s) => Refusal(s)
      case QueryBusy(reason) => Content(Busy, [reason])
      case Response(bytes, telemetry) =>
        if |bytes| > MAX_QUERY_RESPONSE then Refusal(InvalidArg)
        else Content(Ok, (if f.payload[0] == QUERY_MSSLCIPHER then [telemetry] else []) + bytes)
  }

  function OtaData(o: Ota): seq<byte>
    requires o.OtaIs?
  {
    Wire.Little(o.offset, 4) + [o.image, if o.verifying then 1 else 0] + Wire.Little(o.accepted, 4)
      + Wire.Little(o.pending, 4)
    + Wire.Little(o.address, 4)
  }

  function OtaContent(f: Frame, w: World): Content {
    if f.payload != [] && f.payload != [1] then Refusal(InvalidArg)
    else if w.ota.OtaFailed? then Refusal(w.ota.ota)
    else if f.payload == [] then Content(Ok, OtaData(w.ota))
    else match w.key
      case KeyFailed(s) => Refusal(s)
      case KeyIs(digest) => Content(Ok, OtaData(w.ota) + digest)
  }

  function ContentOf(f: Frame, w: World): Content {
    if f.command == STATE then
      if f.payload == [] then Content(Ok, [w.wifiFlags] + w.ip + Wire.Little(w.boot, 4)) else Refusal(InvalidArg)
    else if f.command == WIFI_PROVISION || f.command == WIFI_PROVISION_ASYNC then Refusal(w.provisioned)
    else if f.command == WIFI_PROVISION_STATUS then StatusContent(f, w)
    else if f.command == MODEM_QUERY then QueryContent(f, w)
    else if f.command == OTA_STATE then OtaContent(f, w)
    else if f.command == OTA_MIGRATION_RECOVER && f.payload == [] then Refusal(w.recovered)
    else Refusal(InvalidArg)
  }

  function AnswerTo(f: Frame, w: World): Frame
    requires Accepts(Device, f.command)
  {
    Frame(f.command + RESPONSE_MASK, f.sequence, [Code(ContentOf(f, w).status)] + ContentOf(f, w).data)
  }

  lemma LittleSize(n: nat, digits: nat)
    ensures |Wire.Little(n, digits)| == digits
  {
  }

  /** Whatever the services say, the host takes the answer. */
  lemma AnswerFits(f: Frame, w: World)
    requires Accepts(Device, f.command) && WorldOk(w)
    ensures Sendable(Host, AnswerTo(f, w)) && AnswerTo(f, w).payload != []
  {
    hide Wire.Little;
    LittleSize(w.boot, 4);
    if |f.payload| == 8 { LittleSize(ReadNonce(f.payload), 8); }
    if w.ota.OtaIs? {
      LittleSize(w.ota.offset, 4);
      LittleSize(w.ota.accepted, 4);
      LittleSize(w.ota.pending, 4);
      LittleSize(w.ota.address, 4);
    }
  }

  // ----- the answers as they are built -----

  /** `write_u32` and `write_u64`. */
  method WriteLittle(a: array<byte>, at: nat, value: nat, n: nat)
    requires at + n <= a.Length
    modifies a
    ensures a[..at] == old(a[..at]) && a[at + n..] == old(a[at + n..])
    ensures a[at..at + n] == Wire.Little(value, n)
  {
    var v := value;
    for i := 0 to n
      invariant a[..at] == old(a[..at]) && a[at + i..] == old(a[at + i..])
      invariant |Wire.Little(v, n - i)| == n - i && a[at..at + i] + Wire.Little(v, n - i) == Wire.Little(value, n)
    {
      ghost var before, left := a[at..at + i], Wire.Little(v, n - i);
      assert left == [v % 0x100] + Wire.Little(v / 0x100, n - i - 1);
      a[at + i] := v % 0x100;
      v := v / 0x100;
      assert a[at..at + i + 1] == before + [left[0]];
    }
  }

  /** `memcpy`. */
  method Copy(a: array<byte>, at: nat, bytes: seq<byte>)
    requires at + |bytes| <= a.Length
    modifies a
    ensures a[..at] == old(a[..at]) && a[at + |bytes|..] == old(a[at + |bytes|..])
    ensures a[at..at + |bytes|] == bytes
  {
    forall i | 0 <= i < |bytes| {
      a[at + i] := bytes[i];
    }
  }

  /** The buffer of an answer: the status goes to the front, the data behind it. */
  predicate Room(a: array<byte>) { a.Length == 1 + MAX_PAYLOAD }

  /** The data of an answer, in place. */
  predicate Holds(a: array<byte>, length: nat, status: Status, c: Content)
    reads a
  {
    1 <= length <= a.Length && status == c.status && a[1..length] == c.data
  }

  method StatePayload(a: array<byte>, w: World) returns (length: nat)
    requires Room(a) && WorldOk(w)
    modifies a
    ensures Holds(a, length, Ok, Content(Ok, [w.wifiFlags] + w.ip + Wire.Little(w.boot, 4)))
  {
    hide Wire.Little;
    a[1] := w.wifiFlags;
    Copy(a, 2, w.ip);
    ghost var front := a[..6];
    WriteLittle(a, 6, w.boot, 4);
    assert a[1..6] == front[1..6] == [w.wifiFlags] + w.ip by { assert front[2..6] == w.ip; }
    assert a[1..10] == a[1..6] + a[6..10];
    return 10;
  }

  method ProvisionStatus(f: Frame, w: World, a: array<byte>) returns (status: Status, length: nat)
    requires Room(a)
    modifies a
    ensures Holds(a, length, status, StatusContent(f, w))
  {
    hide Wire.Little, ReadNonce;
    if |f.payload| != 8 { return InvalidArg, 1; }
    var nonce := ReadNonce(f.payload);
    var known := StatusOf(w.provisioning, nonce);
    if known.None? { return NotFound, 1; }
    var (progress, error, connection) := known.value;
    WriteLittle(a, 1, nonce, 8);
    ghost var front := a[1..9];
    a[9], a[10], a[11] := ProgressCode(progress), Code(error), ConnectionCode(progress, connection, w.connected);
    assert a[1..12] == front + [a[9], a[10], a[11]];
    return Ok, 12;
  }

  method ModemQuery(f: Frame, w: World, a: array<byte>) returns (status: Status, length: nat)
    requires Room(a)
    modifies a
    ensures Holds(a, length, status, QueryContent(f, w))
  {
    if |f.payload| != 1 || f.payload[0] == 0 || f.payload[0] > MAX_QUERY_ID { return InvalidArg, 1; }
    match w.query {
      case QueryFailed(s) => return s, 1;
      case QueryBusy(reason) =>
        a[1] := reason;
        return Busy, 2;
      case Response(bytes, telemetry) =>
        if |bytes| > MAX_QUERY_RESPONSE { return InvalidArg, 1; }
        if f.payload[0] == QUERY_MSSLCIPHER {
          a[1] := telemetry;
          Copy(a, 2, bytes);
          assert a[1] == a[..2][1] == telemetry;
          assert a[1..2 + |bytes|] == [telemetry] + bytes;
          return Ok, 2 + |bytes|;
        }
        Copy(a, 1, bytes);
        assert a[1..1 + |bytes|] == [] + bytes;
        return Ok, 1 + |bytes|;
    }
  }

  method WriteOta(a: array<byte>, o: Ota)
    requires Room(a) && o.OtaIs?
    modifies a
    ensures a[1..19] == OtaData(o)
  {
    hide Wire.Little;
    WriteLittle(a, 1, o.offset, 4);
    ghost var head := a[1..5];
    a[5], a[6] := o.image, if o.verifying then 1 else 0;
    assert a[1..7] == head + [a[5], a[6]];
    head := a[1..7];
    Append(a, 7, o.accepted, head);
    head := a[1..11];
    Append(a, 11, o.pending, head);
    head := a[1..15];
    Append(a, 15, o.address, head);
  }

  /** Four more bytes behind what is there. */
  method Append(a: array<byte>, at: nat, value: u32, ghost head: seq<byte>)
    requires 1 <= at && at + 4 <= a.Length && a[1..at] == head
    modifies a
    ensures a[1..at + 4] == head + Wire.Little(value, 4)
  {
    hide Wire.Little;
    WriteLittle(a, at, value, 4);
    assert a[1..at] == a[..at][1..] == head;
    assert a[1..at + 4] == a[1..at] + a[at..at + 4];
  }

  method OtaState(f: Frame, w: World, a: array<byte>) returns (status: Status, length: nat)
    requires Room(a) && WorldOk(w)
    modifies a
    ensures Holds(a, length, status, OtaContent(f, w))
  {
    hide OtaData;
    var includeKey := |f.payload| == 1 && f.payload[0] == 1;
    if |f.payload| != 0 && !includeKey { return InvalidArg, 1; }
    if w.ota.OtaFailed? { return w.ota.ota, 1; }
    WriteOta(a, w.ota);
    if !includeKey { return Ok, 19; }
    if w.key.KeyFailed? { return w.key.key, 1; }
    ghost var head := a[1..19];
    Copy(a, 19, w.key.digest);
    assert a[1..19] == a[..19][1..] == head;
    assert a[1..51] == a[1..19] + a[19..51];
    return Ok, 51;
  }

  /** The answer to a frame, built in place and never beyond its buffer. */
  method HandleFrame(f: Frame, w: World) returns (answer: Frame)
    requires Accepts(Device, f.command) && WorldOk(w)
    ensures answer == AnswerTo(f, w)
  {
    hide StatusContent, QueryContent, OtaContent, Wire.Little;
    var a := new byte[1 + MAX_PAYLOAD](_ => 0);
    var status, length := InvalidArg, 1;
    if f.command == STATE && |f.payload| == 0 {
      status := Ok;
      length := StatePayload(a, w);
    } else if f.command == WIFI_PROVISION || f.command == WIFI_PROVISION_ASYNC {
      status := w.provisioned;
    } else if f.command == WIFI_PROVISION_STATUS {
      status, length := ProvisionStatus(f, w, a);
    } else if f.command == MODEM_QUERY {
      status, length := ModemQuery(f, w, a);
    } else if f.command == OTA_STATE {
      status, length := OtaState(f, w, a);
    } else if f.command == OTA_MIGRATION_RECOVER && |f.payload| == 0 {
      status := w.recovered;
    }
    assert Holds(a, length, status, ContentOf(f, w));
    ghost var data := a[1..length];
    a[0] := Code(status);
    assert a[..length] == [a[0]] + data;
    return Frame(f.command + RESPONSE_MASK, f.sequence, a[..length]);
  }

  // ----- there and back -----

  function Answers(requests: seq<Frame>, worlds: seq<World>): seq<Frame>
    requires |requests| == |worlds| && forall f | f in requests :: Accepts(Device, f.command)
  {
    seq(|requests|, i requires 0 <= i < |requests| => AnswerTo(requests[i], worlds[i]))
  }

  lemma AnswersFit(requests: seq<Frame>, worlds: seq<World>)
    requires |requests| == |worlds| && (forall f | f in requests :: Accepts(Device, f.command))
    requires (forall w | w in worlds :: WorldOk(w))
    ensures forall a | a in Answers(requests, worlds) :: |a.payload| <= MAX_PAYLOAD && Sendable(Host, a)
  {
    hide AnswerTo;
    forall i | 0 <= i < |requests| ensures Sendable(Host, AnswerTo(requests[i], worlds[i])) {
      AnswerFits(requests[i], worlds[i]);
    }
    assert forall a :: Sendable(Host, a) ==> |a.payload| <= MAX_PAYLOAD;
  }

  /**
   * Every request that the host builds is answered, and every answer arrives, in order and unchanged, whatever the
   * services say and however both sides' reads cut the streams.
   */
  lemma EveryRequestIsAnswered(requests: seq<Frame>, worlds: seq<World>, there: seq<Read>, back: seq<Read>, ticks: nat,
    seconds: nat)
    requires forall f | f in requests :: |f.payload| <= MAX_PAYLOAD && HostBuilds(f)
    requires |requests| == |worlds| && forall w | w in worlds :: WorldOk(w)
    requires Lively(Device, ticks, [], 0, there) && Stream(there) == EncodeAll(requests)
    ensures UsbLink.Received(Device, ticks, [], 0, there).0 == requests
    ensures forall f | f in requests :: Accepts(Device, f.command)
    ensures forall a | a in Answers(requests, worlds) :: |a.payload| <= MAX_PAYLOAD
    ensures Lively(Host, seconds, [], 0, back) && Stream(back) == EncodeAll(Answers(requests, worlds)) ==>
      UsbLink.Received(Host, seconds, [], 0, back) == (Answers(requests, worlds), [])
  {
    hide UsbLink.Received, Lively, Encode, AnswerTo;
    RequestsArrive(requests, ticks, there);
    forall f | f in requests ensures Accepts(Device, f.command) { RequestTaken(f); }
    AnswersFit(requests, worlds);
    if Lively(Host, seconds, [], 0, back) && Stream(back) == EncodeAll(Answers(requests, worlds)) {
      FramesArrive(Host, Answers(requests, worlds), seconds, back);
    }
  }

  // ----- one exchange, as the host sees it -----

  datatype Reply = Answered(payload: seq<byte>) | Rejected(code: byte, reason: seq<byte>) | Malformed | NoReply

  predicate IsReply(f: Frame, command: byte, sequence: byte) { f.command == command && f.sequence == sequence }

  /** The first frame that is an answer to the request. */
  function FirstReply(frames: seq<Frame>, command: byte, sequence: byte): Option<Frame> {
    if frames == [] then None
    else if IsReply(frames[0], command, sequence) then Some(frames[0])
    else FirstReply(frames[1..], command, sequence)
  }

  function ReplyIn(f: Option<Frame>): Reply {
    match f
    case None => NoReply
    case Some(f) =>
      if f.payload == [] then Malformed
      else if f.payload[0] != 0 then Rejected(f.payload[0], f.payload[1..])
      else Answered(f.payload[1..])
  }

  function ReplyFor(c: Content): Reply { if c.status == Ok then Answered(c.data) else Rejected(Code(c.status), c.data) }

  lemma {:induction false} ReplyInOrder(a: seq<Frame>, b: seq<Frame>, command: byte, sequence: byte)
    ensures FirstReply(a + b, command, sequence)
         == if FirstReply(a, command, sequence).Some? then FirstReply(a, command, sequence)
           else FirstReply(b, command, sequence)
  {
    if a == [] {
      assert a + b == b;
    } else {
      assert (a + b)[1..] == a[1..] + b;
      ReplyInOrder(a[1..], b, command, sequence);
    }
  }

  method LookForReply(frames: seq<Frame>, command: byte, sequence: byte) returns (r: Option<Frame>)
    ensures r == FirstReply(frames, command, sequence)
  {
    assert frames[0..] == frames;
    for i := 0 to |frames|
      invariant FirstReply(frames, command, sequence) == FirstReply(frames[i..], command, sequence)
    {
      if IsReply(frames[i], command, sequence) { return Some(frames[i]); }
      assert frames[i..][1..] == frames[i + 1..];
    }
    return None;
  }

  /** The read loop of a request: it ends with the first answer to it, out of everything that is received. */
  method Transact(command: byte, sequence: byte, idle: nat, inputs: seq<Read>) returns (r: Reply)
    requires command < RESPONSE_MASK && forall x | x in inputs :: |x.bytes| <= HOST_READ
    ensures r == ReplyIn(FirstReply(UsbLink.Received(Host, idle, [], 0, inputs).0, command + RESPONSE_MASK, sequence))
  {
    hide Scan, LookAt, Elapsed, UsbLink.Received, FirstReply, ReplyIn;
    EmptyWaits(Host);
    var expected: byte := command + RESPONSE_MASK;
    var parser := new HostParser(idle);
    ghost var all := UsbLink.Received(Host, idle, [], 0, inputs).0;
    assert inputs[0..] == inputs;
    for i := 0 to |inputs|
      invariant fresh(parser) && LookAt(Host, parser.buffer).Wait? && parser.idleTime == idle
      invariant FirstReply(all, expected, sequence)
             == FirstReply(UsbLink.Received(Host, idle, parser.buffer, parser.lastActivity, inputs[i..]).0, expected,
               sequence)
    {
      ReceivedStep(Host, idle, parser.buffer, parser.lastActivity, inputs[i..]);
      assert inputs[i..][1..] == inputs[i + 1..];
      var frames := HostTurn(parser, inputs[i]);
      ghost var later := UsbLink.Received(Host, idle, parser.buffer, parser.lastActivity, inputs[i + 1..]).0;
      ReplyInOrder(frames, later, expected, sequence);
      var found := LookForReply(frames, expected, sequence);
      if found.Some? { return ReplyIn(found); }
    }
    ReceivedDone(Host, idle, parser.buffer, parser.lastActivity, inputs[|inputs|..]);
    assert FirstReply([], expected, sequence) == None by { NoFrames(expected, sequence); }
    return ReplyIn(None);
  }

  lemma NoFrames(command: byte, sequence: byte)
    ensures FirstReply([], command, sequence) == None
  {
  }

  /** What the host is told is what the services said, behind any answers to other requests. */
  lemma OwnAnswer(f: Frame, w: World, before: seq<Frame>, later: seq<Frame>)
    requires Accepts(Device, f.command) && forall x | x in before :: !IsReply(x, f.command + RESPONSE_MASK, f.sequence)
    ensures ReplyIn(FirstReply(before + [AnswerTo(f, w)] + later, f.command + RESPONSE_MASK, f.sequence))
         == ReplyFor(ContentOf(f, w))
  {
    hide ContentOf;
    var command: byte, a := f.command + RESPONSE_MASK, AnswerTo(f, w);
    NoneAmong(before, command, f.sequence);
    ReplyInOrder(before, [a] + later, command, f.sequence);
    assert before + [a] + later == before + ([a] + later);
    assert ([a] + later)[0] == a;
  }

  lemma {:induction false} NoneAmong(frames: seq<Frame>, command: byte, sequence: byte)
    requires forall x | x in frames :: !IsReply(x, command, sequence)
    ensures FirstReply(frames, command, sequence) == None
  {
    if frames != [] {
      assert frames[0] in frames;
      NoneAmong(frames[1..], command, sequence);
    }
  }
}
