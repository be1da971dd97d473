/** How the host reads the payloads of answers, and that it reads what the device had to say. */
module UsbDecoders {
  import opened Bytes
  import opened UsbFrames
  import opened UsbProvision
  import opened UsbAnswers
  import Wire = ConfigWire

  const STATE_PAYLOAD_SIZE := 9
  const PROVISION_STATUS_PAYLOAD := 11
  const OTA_STATE_PAYLOAD_SIZE := 18
  const OTA_STATE_EXTENDED_PAYLOAD_SIZE := 50
  const APP0_OFFSET := 0x1_0000
  const APP1_OFFSET := 0x1F_0000
  const PENDING_VERIFY := 1
  const TELEMETRY_MASK := 0x7F

  datatype StateSeen = StateSeen(flags: byte, ip: seq<byte>, boot: nat)

  datatype ProvisionSeen = ProvisionSeen(nonce: nat, state: byte, error: byte, connection: byte)

  datatype OtaSeen = OtaSeen(
    offset: nat, image: byte, verifying: bool, accepted: nat, pending: nat, address: nat, key: Option<seq<byte>>)

  function DecodeState(payload: seq<byte>): Option<StateSeen> {
    if |payload| != STATE_PAYLOAD_SIZE || Wire.FromLittle(payload[5..9]) == 0 then None
    else Some(StateSeen(payload[0], payload[1..5], Wire.FromLittle(payload[5..9])))
  }

  function DecodeProvision(payload: seq<byte>): Option<ProvisionSeen> {
    if |payload| != PROVISION_STATUS_PAYLOAD then None
    else Some(ProvisionSeen(Wire.FromLittle(payload[..8]), payload[8], payload[9], payload[10]))
  }

  function DecodeOta(payload: seq<byte>): Option<OtaSeen> {
    if |payload| !in {OTA_STATE_PAYLOAD_SIZE, OTA_STATE_EXTENDED_PAYLOAD_SIZE} then None else
      var offset, address := Wire.FromLittle(payload[..4]), Wire.FromLittle(payload[14..18]);
      var accepted, pending := Wire.FromLittle(payload[6..10]), Wire.FromLittle(payload[10..14]);
      if offset !in {APP0_OFFSET, APP1_OFFSET} || payload[4] > 2 || payload[5] > 1
        || address !in {0, APP0_OFFSET, APP1_OFFSET} || (payload[5] == 1) != (payload[4] == PENDING_VERIFY) then None
      else Some(OtaSeen(offset, payload[4], payload[5] == 1, accepted, pending, address,
        if |payload| == OTA_STATE_EXTENDED_PAYLOAD_SIZE then Some(payload[18..]) else None))
  }

  /** The answer to a modem query, and what is told beside it. */
  function DecodeQuery(query: byte, payload: seq<byte>): Option<(seq<byte>, Option<byte>)> {
    if query != QUERY_MSSLCIPHER then Some((payload, None))
    else if payload == [] || payload[0] > TELEMETRY_MASK then None
    else Some((payload[1..], Some(payload[0])))
  }

  /** The host's names of the status codes. */
  function StatusNamed(code: byte): Option<Status> {
    if code == 0 then Some(Ok) else if code == 1 then Some(InvalidArg) else if code == 2 then Some(NotFound)
    else if code == 3 then Some(InvalidState) else if code == 4 then Some(Timeout) else if code == 5 then Some(NoMem)
    else if code == 6 then Some(Busy) else if code == 7 then Some(NotReady) else if code == 255 then Some(Internal)
    else None
  }

  function ProgressNamed(code: byte): Option<Progress> {
    if code == 0 then Some(Idle) else if code == 1 then Some(Pending) else if code == 2 then Some(SetupStarted)
    else if code == 3 then Some(Failed) else None
  }

  lemma CodesNamed(s: Status, p: Progress)
    ensures StatusNamed(Code(s)) == Some(s) && ProgressNamed(ProgressCode(p)) == Some(p)
  {
  }

  lemma WordBack(n: u32)
    ensures |Wire.Little(n, 4)| == 4 && Wire.FromLittle(Wire.Little(n, 4)) == n
  {
    Wire.Powers();
    Wire.LittleBack(n, 4, Wire.Power256(4));
  }

  /** The state of the device, once it has a boot number. */
  lemma StateIsRead(f: Frame, w: World)
    requires f.command == STATE && f.payload == [] && WorldOk(w)
    ensures ContentOf(f, w).status == Ok
    ensures DecodeState(ContentOf(f, w).data) == if w.boot == 0 then None
      else Some(StateSeen(w.wifiFlags, w.ip, w.boot))
  {
    hide Wire.Little, Wire.FromLittle;
    WordBack(w.boot);
    var data := ContentOf(f, w).data;
    assert data[1..5] == w.ip && data[5..9] == Wire.Little(w.boot, 4);
  }

  /** The state of a provisioning request, as the machine that carries it out says. */
  lemma ProvisionIsRead(f: Frame, w: World)
    requires f.command == WIFI_PROVISION_STATUS && |f.payload| == 8
    ensures var nonce, c := ReadNonce(f.payload), ContentOf(f, w);
            match StatusOf(w.provisioning, nonce)
            case None => c == Content(NotFound, [])
            case Some(r) => c.status == Ok && DecodeProvision(c.data).Some?
                            && ReadsAs(DecodeProvision(c.data).value, nonce, r.0, r.1, r.2, w.connected)
  {
    hide Wire.Little, Wire.FromLittle;
    var s := f.payload[..8];
    Wire.BackLittle(s);
    if StatusOf(w.provisioning, ReadNonce(f.payload)).Some? {
      var r := StatusOf(w.provisioning, ReadNonce(f.payload)).value;
      var data := ContentOf(f, w).data;
      assert Wire.Little(ReadNonce(f.payload), 8) == s;
      assert data == s + [ProgressCode(r.0), Code(r.1), ConnectionCode(r.0, r.2, w.connected)];
      assert data[..8] == s && data[8] == ProgressCode(r.0) && data[9] == Code(r.1);
      assert data[10] == ConnectionCode(r.0, r.2, w.connected);
      CodesNamed(r.1, r.0);
    }
  }

  /** A connection is seen exactly once the setup has started and the station is connected. */
  predicate ReadsAs(seen: ProvisionSeen, nonce: nat, p: Progress, error: Status, c: Connection, connected: bool) {
    && seen.nonce == nonce && ProgressNamed(seen.state) == Some(p) && StatusNamed(seen.error) == Some(error)
    && (seen.connection == 2 <==> c == Starting && p == SetupStarted && connected)
    && (seen.connection == 3 <==> c == GaveUp) && (seen.connection == 0 <==> c == Unknown)
  }

  /** The offsets and the state of the image are ones that there are. */
  predicate Plausible(o: Ota)
    requires o.OtaIs?
  {
    && o.offset in {APP0_OFFSET, APP1_OFFSET} && o.image <= 2 && o.address in {0, APP0_OFFSET, APP1_OFFSET}
    && o.verifying == (o.image == PENDING_VERIFY)
  }

  /** The state of the update is read back if and only if it is a plausible one. */
  lemma OtaIsRead(f: Frame, w: World)
    requires f.command == OTA_STATE && f.payload in {[], [1]} && WorldOk(w) && w.ota.OtaIs?
    requires f.payload == [1] ==> w.key.KeyIs?
    ensures ContentOf(f, w).status == Ok
    ensures var o := w.ota;
            DecodeOta(ContentOf(f, w).data) == if !Plausible(o) then None else
              Some(OtaSeen(o.offset, o.image, o.verifying, o.accepted, o.pending, o.address,
                if f.payload == [1] then Some(w.key.digest) else None))
  {
    hide Wire.Little, Wire.FromLittle;
    var o, data := w.ota, ContentOf(f, w).data;
    WordBack(o.offset);
    WordBack(o.accepted);
    WordBack(o.pending);
    WordBack(o.address);
    var d := OtaData(o);
    assert d[..4] == Wire.Little(o.offset, 4) && d[6..10] == Wire.Little(o.accepted, 4);
    assert d[10..14] == Wire.Little(o.pending, 4) && d[14..18] == Wire.Little(o.address, 4);
    assert d[4] == o.image && d[5] == if o.verifying then 1 else 0;
    assert data[..18] == d;
    assert data[..4] == d[..4] && data[6..10] == d[6..10] && data[10..14] == d[10..14] && data[14..18] == d[14..18];
    assert data[4] == d[4] && data[5] == d[5];
    assert f.payload == [1] ==> data == d + w.key.digest && data[18..] == w.key.digest;
  }

  /** What the modem has answered, and what is told beside it where there is something to tell. */
  lemma QueryIsRead(f: Frame, w: World)
    requires f.command == MODEM_QUERY && |f.payload| == 1 && 0 < f.payload[0] <= MAX_QUERY_ID
    requires w.query.Response? && |w.query.bytes| <= MAX_QUERY_RESPONSE
    ensures ContentOf(f, w).status == Ok
    ensures DecodeQuery(f.payload[0], ContentOf(f, w).data) ==
      if f.payload[0] != QUERY_MSSLCIPHER then Some((w.query.bytes, None))
      else if w.query.telemetry > TELEMETRY_MASK then None
      else Some((w.query.bytes, Some(w.query.telemetry)))
  {
    assert [] + w.query.bytes == w.query.bytes && ([w.query.telemetry] + w.query.bytes)[1..] == w.query.bytes;
  }
}
