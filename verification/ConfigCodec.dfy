/**
 * Schemas 6 and 7 of the stored configuration: which fields are written in which order,
 * the encoder that both writers use, and the decoders.
 */
module ConfigCodec {
  import opened ConfigTypes
  import opened ConfigWire

  function Bit(b: bool): Value { B(if b then 1 else 0) }

  // ----- the fields in order -----

  function Identity(c: Config): (r: seq<Value>)
    ensures |r| == 4
  {
    [W(Word32(c.smtpPort)), T(c.deviceName), T(c.hostname), T(c.notificationLocale)]
  }

  function Mail(c: Config): (r: seq<Value>)
    ensures |r| == 6
  {
    [T(c.smtpServer), T(c.smtpUser), T(c.smtpPass), T(c.smtpSendTo), T(c.adminPhone), T(c.numberBlackList)]
  }

  function AccountRow(a: Account): (r: seq<Value>)
    ensures |r| == 2
  {
    [T(a.username), T(a.password)]
  }

  function ChannelKeys(h: Channel): (r: seq<Value>)
    ensures |r| == 6
  {
    [Bit(h.enabled), W(h.kind), T(h.name), T(h.url), T(h.key1), T(h.key2)]
  }

  function ChannelTexts(h: Channel): (r: seq<Value>)
    ensures |r| == 3
  {
    [T(h.titleTemplate), T(h.bodyTemplate), T(h.customBody)]
  }

  function Cellular(h: Channel, cellular: bool): (r: seq<Value>)
    ensures |r| == if cellular then 2 else 0
  {
    if cellular then [Bit(h.cellularEnabled), T(h.cellularUrl)] else []
  }

  function ChannelRow(h: Channel, cellular: bool): (r: seq<Value>)
    ensures |r| == if cellular then 11 else 9
  {
    ChannelKeys(h) + ChannelTexts(h) + Cellular(h, cellular)
  }

  function WifiRow(w: Wifi): (r: seq<Value>)
    ensures |r| == 2
  {
    [T(w.ssid), T(w.pass)]
  }

  function Network(c: Config): (r: seq<Value>)
    ensures |r| == 7
  {
    [W(Word32(c.networkMode)), Bit(c.heartbeatEnable), W(Word32(c.heartbeatInterval)), W(c.txPower),
     Bit(c.emailEnabled), Bit(c.pushEnabled), T(c.forwardRules)]
  }

  function Keepalive(c: Config): (r: seq<Value>)
    ensures |r| == 7
  {
    [Bit(c.kaEnabled), W(Word32(c.kaIntervalDays)), W(c.kaAction), T(c.kaTarget), T(c.kaUrl), T(c.kaProfile),
      W(c.kaLastTime)]
  }

  function Clock(c: Config): (r: seq<Value>)
    ensures |r| == 7
  {
    [W(Word32(c.tzOffsetMin)), T(c.ntpServer), Bit(c.rebootEnabled), W(Word32(c.rebootHour)),
     Bit(c.smsHealthEnabled), W(Word32(c.smsHealthHour)), Bit(c.smsHealthNotify)]
  }

  function Modem(c: Config): (r: seq<Value>)
    ensures |r| == 7
  {
    [Bit(c.netLedEnabled), Bit(c.callNotifyEnabled), Bit(c.dataEnabled), Bit(c.roamingEnabled),
     T(c.apn), T(c.operatorPlmn), T(c.phoneNumber)]
  }

  function SimRow(m: Sim): (r: seq<Value>)
    ensures |r| == 7
  {
    [T(m.iccid), T(m.pin), T(m.puk), W(m.pinMax), W(m.pukMax), W(m.pinFailed), W(m.pukFailed)]
  }

  function TaskPlan(t: Task): (r: seq<Value>)
    ensures |r| == 6
  {
    [Bit(t.enabled), T(t.name), T(t.profile), Bit(t.switchBack), W(Word32(t.intervalDays)), W(t.action)]
  }

  function TaskText(t: Task): (r: seq<Value>)
    ensures |r| == 3
  {
    [T(t.target), T(t.payload), W(t.lastRun)]
  }

  function TaskRow(t: Task): (r: seq<Value>)
    ensures |r| == 9
  {
    TaskPlan(t) + TaskText(t)
  }

  /** The rows of an array, one after the other. */
  function Rows<A>(items: seq<A>, row: A -> seq<Value>): seq<Value> {
    if items == [] then [] else Rows(items[..|items| - 1], row) + row(items[|items| - 1])
  }

  function ChannelRower(cellular: bool): Channel -> seq<Value> { (h: Channel) => ChannelRow(h, cellular) }

  function Channels(hs: seq<Channel>, cellular: bool): seq<Value> { Rows(hs, ChannelRower(cellular)) }

  function Traffic(c: Config, traffic: bool): seq<Value> { if traffic then [W(Word32(c.kaTrafficKB))] else [] }

  /** The arrays, each behind its count. */
  function FirstArrays(c: Config, cellular: bool): seq<Value> {
    [B(10)] + Rows(c.webAccounts, AccountRow) + [B(5)] + Channels(c.pushChannels, cellular)
    + [B(5)] + Rows(c.wifiNetworks, WifiRow)
  }

  function LastArrays(c: Config): seq<Value> {
    [B(5)] + Rows(c.simCredentials, SimRow) + [B(6)] + Rows(c.schedTasks, TaskRow)
  }

  function Plain(c: Config): seq<Value> { Network(c) + Keepalive(c) + Clock(c) + Modem(c) }

  /** The fields that schema 5 already had. */
  function OldValues(c: Config, cellular: bool): seq<Value> {
    Identity(c) + Mail(c) + FirstArrays(c, cellular) + Plain(c) + LastArrays(c)
  }

  /** Everything that is written. */
  function Values(c: Config, cellular: bool, traffic: bool): seq<Value> { OldValues(c, cellular) + Traffic(c, traffic) }

  // ----- what a portable backup leaves out -----

  const PORTABLE_TX_POWER := 34

  function PortableName(): text { Ascii("Portable backup") }

  function PortableHost(): text { Ascii("portable-backup") }

  const NO_ACCOUNT := Account([], [])
  const NO_SIM := Sim([], [], [], 1, 1, 0, 0)

  function PortableTask(t: Task): Task { t.(profile := [], lastRun := 0) }

  function Portable(c: Config): Config {
    c.(deviceName := PortableName(), hostname := PortableHost(),
       webAccounts := seq(|c.webAccounts|, _ => NO_ACCOUNT),
       txPower := PORTABLE_TX_POWER, kaProfile := [], kaLastTime := 0, roamingEnabled := false, phoneNumber := [],
       simCredentials := seq(|c.simCredentials|, _ => NO_SIM),
       schedTasks := seq(|c.schedTasks|, i requires 0 <= i < |c.schedTasks| => PortableTask(c.schedTasks[i])))
  }

  /** What the encoder writes for a configuration. */
  function Shown(c: Config, portable: bool): Config { if portable then Portable(c) else c }

  // ----- encoding -----

  method WriteBool(writer: Writer, b: bool)
    requires writer.Valid()
    modifies writer
    ensures writer.Valid() && writer.written == old(writer.written) + [Bit(b)]
  {
    writer.U8(if b then 1 else 0);
  }

  method EncodeIdentity(c: Config, writer: Writer, portable: bool)
    requires writer.Valid()
    modifies writer
    ensures writer.Valid() && writer.written == old(writer.written) + Identity(Shown(c, portable))
  {
    hide Writer.Valid, Ascii, Word32;
    writer.U32(c.smtpPort);
    if portable {
      writer.Text(PortableName());
      writer.Text(PortableHost());
    } else {
      writer.Text(c.deviceName);
      writer.Text(c.hostname);
    }
    writer.Text(c.notificationLocale);
  }

  method EncodeMail(c: Config, writer: Writer, portable: bool)
    requires writer.Valid()
    modifies writer
    ensures writer.Valid() && writer.written == old(writer.written) + Mail(Shown(c, portable))
  {
    hide Writer.Valid;
    ghost var start, all := writer.written, Mail(Shown(c, portable));
    Six(start, all[0], all[1], all[2], all[3], all[4], all[5]);
    writer.Text(c.smtpServer);
    writer.Text(c.smtpUser);
    writer.Text(c.smtpPass);
    writer.Text(c.smtpSendTo);
    writer.Text(c.adminPhone);
    writer.Text(c.numberBlackList);
  }

  lemma RowsNext<A>(items: seq<A>, row: A -> seq<Value>, i: nat)
    requires i < |items|
    ensures Rows(items[..i + 1], row) == Rows(items[..i], row) + row(items[i])
  {
    assert items[..i + 1][..i] == items[..i];
  }

  lemma RowsAll<A>(items: seq<A>, row: A -> seq<Value>)
    ensures Rows(items[..|items|], row) == Rows(items, row) && Rows(items[..0], row) == []
  {
    assert items[..|items|] == items;
  }

  method EncodeAccounts(c: Config, writer: Writer, portable: bool)
    requires writer.Valid() && Sized(c)
    modifies writer
    ensures writer.Valid()
    ensures writer.written == old(writer.written) + [B(10)] + Rows(Shown(c, portable).webAccounts, AccountRow)
  {
    hide Writer.Valid, Rows, Sized;
    ghost var items := Shown(c, portable).webAccounts;
    assert |items| == |c.webAccounts| == 10 by { ShownSized(c, portable); }
    writer.U8(10);
    ghost var start := writer.written;
    var i := 0;
    RowsAll(items, AccountRow);
    while i < |c.webAccounts|
      invariant 0 <= i <= 10 && writer.Valid()
      invariant writer.written == start + Rows(items[..i], AccountRow)
    {
      RowsNext(items, AccountRow, i);
      if portable {
        writer.Text([]);
        writer.Text([]);
      } else {
        writer.Text(c.webAccounts[i].username);
        writer.Text(c.webAccounts[i].password);
      }
      i := i + 1;
    }
  }

  lemma ShownSized(c: Config, portable: bool)
    requires Sized(c)
    ensures Sized(Shown(c, portable)) && Sized(c)
    ensures |c.webAccounts| == 10 == |Shown(c, portable).webAccounts|
    ensures |c.simCredentials| == 5 == |Shown(c, portable).simCredentials|
    ensures |c.schedTasks| == 6 == |Shown(c, portable).schedTasks|
    ensures |c.pushChannels| == 5 == |c.wifiNetworks|
  {
  }

  method EncodeChannel(h: Channel, writer: Writer, cellular: bool)
    requires writer.Valid()
    modifies writer
    ensures writer.Valid() && writer.written == old(writer.written) + ChannelRow(h, cellular)
  {
    hide Writer.Valid;
    EncodeChannelKeys(h, writer);
    ghost var start := writer.written;
    writer.Text(h.titleTemplate);
    writer.Text(h.bodyTemplate);
    writer.Text(h.customBody);
    assert writer.written == start + ChannelTexts(h);
    if cellular {
      WriteBool(writer, h.cellularEnabled);
      writer.Text(h.cellularUrl);
    }
    assert writer.written == start + ChannelTexts(h) + Cellular(h, cellular);
  }

  method EncodeChannelKeys(h: Channel, writer: Writer)
    requires writer.Valid()
    modifies writer
    ensures writer.Valid() && writer.written == old(writer.written) + ChannelKeys(h)
  {
    hide Writer.Valid, Word32;
    ghost var start, all := writer.written, ChannelKeys(h);
    Six(start, all[0], all[1], all[2], all[3], all[4], all[5]);
    SmallWord(h.kind);
    WriteBool(writer, h.enabled);
    writer.U32(h.kind);
    writer.Text(h.name);
    writer.Text(h.url);
    writer.Text(h.key1);
    writer.Text(h.key2);
  }

  method EncodeChannels(c: Config, writer: Writer, portable: bool, cellular: bool)
    requires writer.Valid() && Sized(c)
    modifies writer
    ensures writer.Valid()
    ensures writer.written == old(writer.written) + [B(5)] + Channels(Shown(c, portable).pushChannels, cellular)
  {
    hide Writer.Valid, Rows, Sized, ChannelRow;
    ShownSized(c, portable);
    ghost var items, row := c.pushChannels, ChannelRower(cellular);
    writer.U8(5);
    ghost var start := writer.written;
    var i := 0;
    RowsAll(items, row);
    while i < |c.pushChannels|
      invariant 0 <= i <= 5 && writer.Valid()
      invariant writer.written == start + Rows(items[..i], row)
    {
      RowsNext(items, row, i);
      EncodeChannel(c.pushChannels[i], writer, cellular);
      i := i + 1;
    }
  }

  method EncodeWifi(c: Config, writer: Writer, portable: bool)
    requires writer.Valid() && Sized(c)
    modifies writer
    ensures writer.Valid()
    ensures writer.written == old(writer.written) + [B(5)] + Rows(Shown(c, portable).wifiNetworks, WifiRow)
  {
    hide Writer.Valid, Rows, Sized;
    ShownSized(c, portable);
    ghost var items := c.wifiNetworks;
    writer.U8(5);
    ghost var start := writer.written;
    var i := 0;
    RowsAll(items, WifiRow);
    while i < |c.wifiNetworks|
      invariant 0 <= i <= 5 && writer.Valid()
      invariant writer.written == start + Rows(items[..i], WifiRow)
    {
      RowsNext(items, WifiRow, i);
      writer.Text(c.wifiNetworks[i].ssid);
      writer.Text(c.wifiNetworks[i].pass);
      i := i + 1;
    }
  }

  method EncodeNetwork(c: Config, writer: Writer, portable: bool)
    requires writer.Valid()
    modifies writer
    ensures writer.Valid() && writer.written == old(writer.written) + Network(Shown(c, portable))
  {
    hide Writer.Valid, Ascii, Word32;
    ghost var start, all := writer.written, Network(Shown(c, portable));
    Seven(start, all[0], all[1], all[2], all[3], all[4], all[5], all[6]);
    SmallWord(c.txPower);
    SmallWord(PORTABLE_TX_POWER);
    writer.U32(c.networkMode);
    WriteBool(writer, c.heartbeatEnable);
    writer.U32(c.heartbeatInterval);
    writer.U32(if portable then PORTABLE_TX_POWER else c.txPower);
    WriteBool(writer, c.emailEnabled);
    WriteBool(writer, c.pushEnabled);
    writer.Text(c.forwardRules);
  }

  method EncodeKeepalive(c: Config, writer: Writer, portable: bool)
    requires writer.Valid()
    modifies writer
    ensures writer.Valid() && writer.written == old(writer.written) + Keepalive(Shown(c, portable))
  {
    hide Writer.Valid, Ascii, Word32;
    ghost var start, all := writer.written, Keepalive(Shown(c, portable));
    Seven(start, all[0], all[1], all[2], all[3], all[4], all[5], all[6]);
    SmallWord(c.kaAction);
    SmallWord(c.kaLastTime);
    SmallWord(0);
    WriteBool(writer, c.kaEnabled);
    writer.U32(c.kaIntervalDays);
    writer.U32(c.kaAction);
    writer.Text(c.kaTarget);
    writer.Text(c.kaUrl);
    writer.Text(if portable then [] else c.kaProfile);
    writer.U32(if portable then 0 else c.kaLastTime);
  }

  method EncodeClock(c: Config, writer: Writer, portable: bool)
    requires writer.Valid()
    modifies writer
    ensures writer.Valid() && writer.written == old(writer.written) + Clock(Shown(c, portable))
  {
    hide Writer.Valid, Ascii, Word32;
    ghost var start, all := writer.written, Clock(Shown(c, portable));
    Seven(start, all[0], all[1], all[2], all[3], all[4], all[5], all[6]);
    writer.U32(c.tzOffsetMin);
    writer.Text(c.ntpServer);
    WriteBool(writer, c.rebootEnabled);
    writer.U32(c.rebootHour);
    WriteBool(writer, c.smsHealthEnabled);
    writer.U32(c.smsHealthHour);
    WriteBool(writer, c.smsHealthNotify);
  }

  method EncodeModem(c: Config, writer: Writer, portable: bool)
    requires writer.Valid()
    modifies writer
    ensures writer.Valid() && writer.written == old(writer.written) + Modem(Shown(c, portable))
  {
    hide Writer.Valid, Ascii;
    ghost var start, all := writer.written, Modem(Shown(c, portable));
    Seven(start, all[0], all[1], all[2], all[3], all[4], all[5], all[6]);
    WriteBool(writer, c.netLedEnabled);
    WriteBool(writer, c.callNotifyEnabled);
    WriteBool(writer, c.dataEnabled);
    WriteBool(writer, !portable && c.roamingEnabled);
    writer.Text(c.apn);
    writer.Text(c.operatorPlmn);
    writer.Text(if portable then [] else c.phoneNumber);
  }

  method EncodeSim(m: Sim, writer: Writer)
    requires writer.Valid()
    modifies writer
    ensures writer.Valid() && writer.written == old(writer.written) + SimRow(m)
  {
    hide Writer.Valid, Word32;
    ghost var start, all := writer.written, SimRow(m);
    Seven(start, all[0], all[1], all[2], all[3], all[4], all[5], all[6]);
    SmallWord(m.pinMax);
    SmallWord(m.pukMax);
    SmallWord(m.pinFailed);
    SmallWord(m.pukFailed);
    writer.Text(m.iccid);
    writer.Text(m.pin);
    writer.Text(m.puk);
    writer.U32(m.pinMax);
    writer.U32(m.pukMax);
    writer.U32(m.pinFailed);
    writer.U32(m.pukFailed);
  }

  method EncodeSims(c: Config, writer: Writer, portable: bool)
    requires writer.Valid() && Sized(c)
    modifies writer
    ensures writer.Valid()
    ensures writer.written == old(writer.written) + [B(5)] + Rows(Shown(c, portable).simCredentials, SimRow)
  {
    hide Writer.Valid, Rows, Sized, SimRow;
    ShownSized(c, portable);
    ghost var items := Shown(c, portable).simCredentials;
    writer.U8(5);
    ghost var start := writer.written;
    var i := 0;
    RowsAll(items, SimRow);
    while i < |c.simCredentials|
      invariant 0 <= i <= 5 && writer.Valid()
      invariant writer.written == start + Rows(items[..i], SimRow)
    {
      RowsNext(items, SimRow, i);
      EncodeSim(if portable then NO_SIM else c.simCredentials[i], writer);
      i := i + 1;
    }
  }

  method EncodeTaskPlan(t: Task, writer: Writer, portable: bool)
    requires writer.Valid()
    modifies writer
    ensures writer.Valid() && writer.written == old(writer.written) + TaskPlan(if portable then PortableTask(t) else t)
  {
    hide Writer.Valid, Word32;
    ghost var start, all := writer.written, TaskPlan(if portable then PortableTask(t) else t);
    Six(start, all[0], all[1], all[2], all[3], all[4], all[5]);
    SmallWord(t.action);
    WriteBool(writer, t.enabled);
    writer.Text(t.name);
    writer.Text(if portable then [] else t.profile);
    WriteBool(writer, t.switchBack);
    writer.U32(t.intervalDays);
    writer.U32(t.action);
  }

  method EncodeTask(t: Task, writer: Writer, portable: bool)
    requires writer.Valid()
    modifies writer
    ensures writer.Valid() && writer.written == old(writer.written) + TaskRow(if portable then PortableTask(t) else t)
  {
    hide Writer.Valid, TaskPlan, Word32;
    SmallWord(t.lastRun);
    SmallWord(0);
    ghost var start, p := writer.written, if portable then PortableTask(t) else t;
    EncodeTaskPlan(t, writer, portable);
    writer.Text(t.target);
    writer.Text(t.payload);
    writer.U32(if portable then 0 else t.lastRun);
    assert writer.written == start + TaskPlan(p) + TaskText(p);
  }

  method EncodeTasks(c: Config, writer: Writer, portable: bool)
    requires writer.Valid() && Sized(c)
    modifies writer
    ensures writer.Valid()
    ensures writer.written == old(writer.written) + [B(6)] + Rows(Shown(c, portable).schedTasks, TaskRow)
  {
    hide Writer.Valid, Rows, Sized, TaskRow;
    ShownSized(c, portable);
    ghost var items := Shown(c, portable).schedTasks;
    writer.U8(6);
    ghost var start := writer.written;
    var i := 0;
    RowsAll(items, TaskRow);
    while i < |c.schedTasks|
      invariant 0 <= i <= 6 && writer.Valid()
      invariant writer.written == start + Rows(items[..i], TaskRow)
    {
      RowsNext(items, TaskRow, i);
      EncodeTask(c.schedTasks[i], writer, portable);
      i := i + 1;
    }
  }

  /** All fields, in the order of the schema. */
  method EncodeFields(c: Config, writer: Writer, portable: bool, traffic: bool, cellular: bool)
    requires writer.Valid() && writer.written == [] && Sized(c)
    modifies writer
    ensures writer.Valid() && writer.written == Values(Shown(c, portable), cellular, traffic)
  {
    hide Writer.Valid, Word32, Rows, Sized, Identity, Mail, Network, Keepalive, Clock, Modem, Shown;
    ghost var p := Shown(c, portable);
    EncodeIdentity(c, writer, portable);
    EncodeMail(c, writer, portable);
    EncodeAccounts(c, writer, portable);
    EncodeChannels(c, writer, portable, cellular);
    EncodeWifi(c, writer, portable);
    ghost var start := Identity(p) + Mail(p);
    assert writer.written == start + FirstArrays(p, cellular);
    start := writer.written;
    EncodeNetwork(c, writer, portable);
    EncodeKeepalive(c, writer, portable);
    EncodeClock(c, writer, portable);
    EncodeModem(c, writer, portable);
    assert writer.written == start + Plain(p);
    start := writer.written;
    EncodeSims(c, writer, portable);
    EncodeTasks(c, writer, portable);
    assert writer.written == start + LastArrays(p);
    if traffic { writer.U32(c.kaTrafficKB); }
    assert p.kaTrafficKB == c.kaTrafficKB by { ShownTraffic(c, portable); }
    assert writer.written == start + LastArrays(p) + Traffic(p, traffic);
  }

  lemma ShownTraffic(c: Config, portable: bool)
    ensures Shown(c, portable).kaTrafficKB == c.kaTrafficKB
  {
  }

  // ----- what the decoder demands -----

  function IntKind(): Kind { Between(0, MAX_INT) }

  function ByteKind(): Kind { Between(0, 0xFF) }

  function WordKind(): Kind { Between(0, 0xFFFF_FFFF) }

  function IdentityKinds(): (r: seq<Kind>)
    ensures |r| == 4
  {
    [IntKind(), Chars(64), Chars(32), Chars(16)]
  }

  function MailKinds(): (r: seq<Kind>)
    ensures |r| == 6
  {
    [Chars(253), Chars(254), Chars(256), Chars(256), Chars(64), Chars(1024)]
  }

  function AccountKinds(): (r: seq<Kind>)
    ensures |r| == 2
  {
    [Chars(64), Chars(96)]
  }

  function ChannelKeyKinds(): (r: seq<Kind>)
    ensures |r| == 6
  {
    [Flag, Between(0, PUSH_TYPE_NTFY), Chars(64), Chars(512), Chars(256), Chars(256)]
  }

  function ChannelTextKinds(): (r: seq<Kind>)
    ensures |r| == 3
  {
    [Chars(256), Chars(2048), Chars(2048)]
  }

  function CellularKinds(cellular: bool): (r: seq<Kind>)
    ensures |r| == if cellular then 2 else 0
  {
    if cellular then [Flag, Chars(512)] else []
  }

  function ChannelKinds(cellular: bool): seq<Kind> { ChannelKeyKinds() + ChannelTextKinds() + CellularKinds(cellular) }

  function WifiKinds(): (r: seq<Kind>)
    ensures |r| == 2
  {
    [Chars(31), Chars(63)]
  }

  function NetworkKinds(): (r: seq<Kind>)
    ensures |r| == 7
  {
    [Between(0, NETWORK_MODE_MIX), Flag, IntKind(), Power, Flag, Flag, Chars(2048)]
  }

  function KeepaliveKinds(): (r: seq<Kind>)
    ensures |r| == 7
  {
    [Flag, IntKind(), ByteKind(), Chars(64), Chars(256), Chars(64), WordKind()]
  }

  function ClockKinds(): (r: seq<Kind>)
    ensures |r| == 7
  {
    [WordKind(), Chars(128), Flag, IntKind(), Flag, IntKind(), Flag]
  }

  function ModemKinds(): (r: seq<Kind>)
    ensures |r| == 7
  {
    [Flag, Flag, Flag, Flag, Chars(96), Chars(16), Chars(32)]
  }

  function SimKinds(): (r: seq<Kind>)
    ensures |r| == 7
  {
    [Chars(22), Chars(8), Chars(8), ByteKind(), ByteKind(), ByteKind(), ByteKind()]
  }

  function TaskPlanKinds(): (r: seq<Kind>)
    ensures |r| == 6
  {
    [Flag, Chars(32), Chars(64), Flag, IntKind(), ByteKind()]
  }

  function TaskTextKinds(): (r: seq<Kind>)
    ensures |r| == 3
  {
    [Chars(128), Chars(128), WordKind()]
  }

  function TaskKinds(): seq<Kind> { TaskPlanKinds() + TaskTextKinds() }

  function Repeat(ks: seq<Kind>, n: nat): seq<Kind> { if n == 0 then [] else ks + Repeat(ks, n - 1) }

  function TrafficKinds(traffic: bool): seq<Kind> { if traffic then [Between(1, 10000)] else [] }

  function ArrayKinds(cellular: bool): seq<Kind> {
    [Exactly(10)] + Repeat(AccountKinds(), 10) + [Exactly(5)] + Repeat(ChannelKinds(cellular), 5)
    + [Exactly(5)] + Repeat(WifiKinds(), 5)
  }

  function PlainKinds(): seq<Kind> { NetworkKinds() + KeepaliveKinds() + ClockKinds() + ModemKinds() }

  function LastKinds(): seq<Kind> { [Exactly(5)] + Repeat(SimKinds(), 5) + [Exactly(6)] + Repeat(TaskKinds(), 6) }

  function OldLayout(cellular: bool): seq<Kind> {
    IdentityKinds() + MailKinds() + ArrayKinds(cellular) + PlainKinds() + LastKinds()
  }

  function Layout(cellular: bool, traffic: bool): seq<Kind> { OldLayout(cellular) + TrafficKinds(traffic) }

  // ----- decoding -----

  /** The plan goes on with a group of demands. */
  ghost predicate Ahead(reader: Reader, ks: seq<Kind>)
    reads reader
  {
    At(reader.plan, |reader.taken|, ks)
  }

  predicate At(plan: seq<Kind>, n: nat, ks: seq<Kind>) { n + |ks| <= |plan| && plan[n..n + |ks|] == ks }

  lemma AtSplit(plan: seq<Kind>, n: nat, a: seq<Kind>, b: seq<Kind>)
    requires At(plan, n, a + b)
    ensures At(plan, n, a) && At(plan, n + |a|, b)
  {
    assert plan[n..n + |a|] == (a + b)[..|a|] && plan[n + |a|..n + |a| + |b|] == (a + b)[|a|..];
  }

  lemma AtRepeat(plan: seq<Kind>, n: nat, ks: seq<Kind>, times: nat)
    requires At(plan, n, Repeat(ks, times)) && times > 0
    ensures At(plan, n, ks) && At(plan, n + |ks|, Repeat(ks, times - 1))
  {
    AtSplit(plan, n, ks, Repeat(ks, times - 1));
  }

  lemma RowsSnoc<A>(items: seq<A>, row: A -> seq<Value>, item: A)
    ensures Rows(items + [item], row) == Rows(items, row) + row(item)
  {
    assert (items + [item])[..|items|] == items;
  }

  /** The demands of a group, one by one. */
  lemma AheadAt(reader: Reader, ks: seq<Kind>)
    requires Ahead(reader, ks) && |ks| <= 7
    ensures var p, n := reader.plan, |reader.taken|;
            && (|ks| > 0 ==> p[n] == ks[0]) && (|ks| > 1 ==> p[n + 1] == ks[1]) && (|ks| > 2 ==> p[n + 2] == ks[2])
            && (|ks| > 3 ==> p[n + 3] == ks[3]) && (|ks| > 4 ==> p[n + 4] == ks[4]) && (|ks| > 5 ==> p[n + 5] == ks[5])
            && (|ks| > 6 ==> p[n + 6] == ks[6])
  {
    var p, n := reader.plan, |reader.taken|;
    forall i | 0 <= i < |ks| ensures p[n + i] == ks[i] {
      assert p[n..n + |ks|][i] == ks[i];
    }
  }

  /** A group of fields has been read. */
  twostate predicate Took(reader: Reader, ok: bool, vs: seq<Value>)
    reads reader
  {
    if ok then reader.Valid() && reader.taken == old(reader.taken) + vs else reader.Refused()
  }

  method DecodeIdentity(reader: Reader, c: Config) returns (ok: bool, r: Config)
    requires reader.Valid() && Ahead(reader, IdentityKinds())
    modifies reader
    ensures Took(reader, ok, Identity(r))
    ensures ok ==> r == c.(smtpPort := r.smtpPort, deviceName := r.deviceName, hostname := r.hostname,
                           notificationLocale := r.notificationLocale)
    ensures ok ==> 0 <= r.smtpPort <= MAX_INT
  {
    hide Reader.Valid, Reader.Refused, Word32;
    AheadAt(reader, IdentityKinds());
    r := c;
    var port, name, host, locale;
    ok, port := reader.Number(0, MAX_INT);
    if !ok { return; }
    ok, name := reader.String(64);
    if !ok { return; }
    ok, host := reader.String(32);
    if !ok { return; }
    ok, locale := reader.String(16);
    if !ok { return; }
    SmallWord(port);
    r := c.(smtpPort := port, deviceName := name, hostname := host, notificationLocale := locale);
  }

  method DecodeMail(reader: Reader, c: Config) returns (ok: bool, r: Config)
    requires reader.Valid() && Ahead(reader, MailKinds())
    modifies reader
    ensures Took(reader, ok, Mail(r))
    ensures ok ==> r == c.(smtpServer := r.smtpServer, smtpUser := r.smtpUser, smtpPass := r.smtpPass,
                           smtpSendTo := r.smtpSendTo, adminPhone := r.adminPhone, numberBlackList := r.numberBlackList)
  {
    hide Reader.Valid, Reader.Refused;
    ghost var start := reader.taken;
    AheadAt(reader, MailKinds());
    r := c;
    var server, user, pass, sendTo, phone, blackList;
    ok, server := reader.String(253);
    if !ok { return; }
    ok, user := reader.String(254);
    if !ok { return; }
    ok, pass := reader.String(256);
    if !ok { return; }
    ok, sendTo := reader.String(256);
    if !ok { return; }
    ok, phone := reader.String(64);
    if !ok { return; }
    ok, blackList := reader.String(1024);
    if !ok { return; }
    r := c.(smtpServer := server, smtpUser := user, smtpPass := pass, smtpSendTo := sendTo,
            adminPhone := phone, numberBlackList := blackList);
    ghost var all := Mail(r);
    Six(start, all[0], all[1], all[2], all[3], all[4], all[5]);
  }

  method DecodeAccount(reader: Reader) returns (ok: bool, a: Account)
    requires reader.Valid() && Ahead(reader, AccountKinds())
    modifies reader
    ensures Took(reader, ok, AccountRow(a))
  {
    hide Reader.Valid, Reader.Refused;
    AheadAt(reader, AccountKinds());
    a := NO_ACCOUNT;
    var user, pass;
    ok, user := reader.String(64);
    if !ok { return; }
    ok, pass := reader.String(96);
    a := Account(user, pass);
  }

  method DecodeAccounts(reader: Reader) returns (ok: bool, accounts: seq<Account>)
    requires reader.Valid() && Ahead(reader, [Exactly(10)] + Repeat(AccountKinds(), 10))
    modifies reader
    ensures Took(reader, ok, [B(10)] + Rows(accounts, AccountRow))
    ensures ok ==> |accounts| == 10
  {
    hide Reader.Valid, Reader.Refused, Rows, Repeat, At;
    AtSplit(reader.plan, |reader.taken|, [Exactly(10)], Repeat(AccountKinds(), 10));
    AheadAt(reader, [Exactly(10)]);
    accounts := [];
    ok := reader.Count(10);
    if !ok { return; }
    ghost var start := reader.taken;
    RowsAll(accounts, AccountRow);
    while |accounts| < 10
      invariant |accounts| <= 10 && reader.Valid()
      invariant reader.taken == start + Rows(accounts, AccountRow)
      invariant Ahead(reader, Repeat(AccountKinds(), 10 - |accounts|))
    {
      AtRepeat(reader.plan, |reader.taken|, AccountKinds(), 10 - |accounts|);
      var a;
      ok, a := DecodeAccount(reader);
      if !ok { return; }
      RowsSnoc(accounts, AccountRow, a);
      accounts := accounts + [a];
    }
  }

  method DecodeChannelKeys(reader: Reader) returns (ok: bool, h: Channel)
    requires reader.Valid() && Ahead(reader, ChannelKeyKinds())
    modifies reader
    ensures Took(reader, ok, ChannelKeys(h)) && h.cellularEnabled && h.cellularUrl == []
  {
    hide Reader.Valid, Reader.Refused;
    ghost var start := reader.taken;
    AheadAt(reader, ChannelKeyKinds());
    h := Channel(false, 1, [], [], [], [], [], [], [], true, []);
    var enabled, kind, name, url, key1, key2;
    ok, enabled := reader.Bool();
    if !ok { return; }
    ok, kind := reader.Number(0, PUSH_TYPE_NTFY);
    if !ok { return; }
    ok, name := reader.String(64);
    if !ok { return; }
    ok, url := reader.String(512);
    if !ok { return; }
    ok, key1 := reader.String(256);
    if !ok { return; }
    ok, key2 := reader.String(256);
    if !ok { return; }
    h := h.(enabled := enabled, kind := kind, name := name, url := url, key1 := key1, key2 := key2);
    ghost var all := ChannelKeys(h);
    Six(start, all[0], all[1], all[2], all[3], all[4], all[5]);
  }

  method DecodeChannelTexts(reader: Reader, h: Channel) returns (ok: bool, r: Channel)
    requires reader.Valid() && Ahead(reader, ChannelTextKinds())
    modifies reader
    ensures Took(reader, ok, ChannelTexts(r))
    ensures ok ==> r == h.(titleTemplate := r.titleTemplate, bodyTemplate := r.bodyTemplate, customBody := r.customBody)
  {
    hide Reader.Valid, Reader.Refused;
    AheadAt(reader, ChannelTextKinds());
    r := h;
    var title, body, custom;
    ok, title := reader.String(256);
    if !ok { return; }
    ok, body := reader.String(2048);
    if !ok { return; }
    ok, custom := reader.String(2048);
    if !ok { return; }
    r := h.(titleTemplate := title, bodyTemplate := body, customBody := custom);
  }

  /** Without the cellular fields a channel keeps their defaults. */
  method DecodeCellular(reader: Reader, h: Channel, cellular: bool) returns (ok: bool, r: Channel)
    requires reader.Valid() && Ahead(reader, CellularKinds(cellular)) && DefaultCellular(h)
    modifies reader
    ensures Took(reader, ok, Cellular(r, cellular))
    ensures ok ==>
      r == h.(cellularEnabled := r.cellularEnabled, cellularUrl := r.cellularUrl) && (!cellular ==> DefaultCellular(r))
  {
    hide Reader.Valid, Reader.Refused;
    AheadAt(reader, CellularKinds(cellular));
    r := h;
    if !cellular {
      assert reader.taken == reader.taken + [];
      return true, h;
    }
    var enabled, url;
    ok, enabled := reader.Bool();
    if !ok { return; }
    ok, url := reader.String(512);
    if !ok { return; }
    r := h.(cellularEnabled := enabled, cellularUrl := url);
  }

  method DecodeChannel(reader: Reader, cellular: bool) returns (ok: bool, h: Channel)
    requires reader.Valid() && Ahead(reader, ChannelKinds(cellular))
    modifies reader
    ensures Took(reader, ok, ChannelRow(h, cellular))
    ensures ok && !cellular ==> DefaultCellular(h)
  {
    hide Reader.Valid, Reader.Refused, At, ChannelKeyKinds, ChannelTextKinds, CellularKinds;
    AtSplit(reader.plan, |reader.taken|, ChannelKeyKinds() + ChannelTextKinds(), CellularKinds(cellular));
    AtSplit(reader.plan, |reader.taken|, ChannelKeyKinds(), ChannelTextKinds());
    ok, h := DecodeChannelKeys(reader);
    if !ok { return; }
    ok, h := DecodeChannelTexts(reader, h);
    if !ok { return; }
    ok, h := DecodeCellular(reader, h, cellular);
  }

  method DecodeChannels(reader: Reader, cellular: bool) returns (ok: bool, channels: seq<Channel>)
    requires reader.Valid() && Ahead(reader, [Exactly(5)] + Repeat(ChannelKinds(cellular), 5))
    modifies reader
    ensures Took(reader, ok, [B(5)] + Channels(channels, cellular))
    ensures ok ==> |channels| == 5 && (!cellular ==> forall h | h in channels :: DefaultCellular(h))
  {
    hide Reader.Valid, Reader.Refused, Rows, Repeat, At, ChannelKinds, ChannelRow, DefaultCellular;
    AtSplit(reader.plan, |reader.taken|, [Exactly(5)], Repeat(ChannelKinds(cellular), 5));
    AheadAt(reader, [Exactly(5)]);
    channels := [];
    ok := reader.Count(5);
    if !ok { return; }
    ghost var start, row := reader.taken, ChannelRower(cellular);
    RowsAll(channels, row);
    while |channels| < 5
      invariant |channels| <= 5 && reader.Valid() && (!cellular ==> forall h | h in channels :: DefaultCellular(h))
      invariant reader.taken == start + Rows(channels, row)
      invariant Ahead(reader, Repeat(ChannelKinds(cellular), 5 - |channels|))
    {
      AtRepeat(reader.plan, |reader.taken|, ChannelKinds(cellular), 5 - |channels|);
      var h;
      ok, h := DecodeChannel(reader, cellular);
      if !ok { return; }
      RowsSnoc(channels, row, h);
      channels := channels + [h];
      KindsOfChannel(cellular);
    }
  }

  lemma KindsOfChannel(cellular: bool)
    ensures |ChannelKinds(cellular)| == if cellular then 11 else 9
  {
  }

  method DecodeWifi(reader: Reader) returns (ok: bool, networks: seq<Wifi>)
    requires reader.Valid() && Ahead(reader, [Exactly(5)] + Repeat(WifiKinds(), 5))
    modifies reader
    ensures Took(reader, ok, [B(5)] + Rows(networks, WifiRow))
    ensures ok ==> |networks| == 5
  {
    hide Reader.Valid, Reader.Refused, Rows, Repeat, At;
    AtSplit(reader.plan, |reader.taken|, [Exactly(5)], Repeat(WifiKinds(), 5));
    AheadAt(reader, [Exactly(5)]);
    networks := [];
    ok := reader.Count(5);
    if !ok { return; }
    ghost var start := reader.taken;
    RowsAll(networks, WifiRow);
    while |networks| < 5
      invariant |networks| <= 5 && reader.Valid()
      invariant reader.taken == start + Rows(networks, WifiRow)
      invariant Ahead(reader, Repeat(WifiKinds(), 5 - |networks|))
    {
      AtRepeat(reader.plan, |reader.taken|, WifiKinds(), 5 - |networks|);
      var w;
      ok, w := DecodeNetworkRow(reader);
      if !ok { return; }
      RowsSnoc(networks, WifiRow, w);
      networks := networks + [w];
    }
  }

  method DecodeNetworkRow(reader: Reader) returns (ok: bool, w: Wifi)
    requires reader.Valid() && Ahead(reader, WifiKinds())
    modifies reader
    ensures Took(reader, ok, WifiRow(w))
  {
    hide Reader.Valid, Reader.Refused;
    AheadAt(reader, WifiKinds());
    w := Wifi([], []);
    var ssid, pass;
    ok, ssid := reader.String(31);
    if !ok { return; }
    ok, pass := reader.String(63);
    w := Wifi(ssid, pass);
  }

  method DecodeNetwork(reader: Reader, c: Config) returns (ok: bool, r: Config)
    requires reader.Valid() && Ahead(reader, NetworkKinds())
    modifies reader
    ensures Took(reader, ok, Network(r))
    ensures ok ==> r == c.(networkMode := r.networkMode, heartbeatEnable := r.heartbeatEnable,
                           heartbeatInterval := r.heartbeatInterval, txPower := r.txPower,
                           emailEnabled := r.emailEnabled, pushEnabled := r.pushEnabled, forwardRules := r.forwardRules)
    ensures ok ==> 0 <= r.networkMode <= 2 && 0 <= r.heartbeatInterval <= MAX_INT
  {
    hide Reader.Valid, Reader.Refused, Word32;
    ghost var start := reader.taken;
    AheadAt(reader, NetworkKinds());
    r := c;
    var mode, beat, hours, power, email, push, rules;
    ok, mode := reader.Number(0, NETWORK_MODE_MIX);
    if !ok { return; }
    ok, beat := reader.Bool();
    if !ok { return; }
    ok, hours := reader.Number(0, MAX_INT);
    if !ok { return; }
    ok, power := reader.TxPower();
    if !ok { return; }
    ok, email := reader.Bool();
    if !ok { return; }
    ok, push := reader.Bool();
    if !ok { return; }
    ok, rules := reader.String(2048);
    if !ok { return; }
    SmallWord(mode);
    SmallWord(hours);
    r := c.(networkMode := mode, heartbeatEnable := beat, heartbeatInterval := hours, txPower := power,
            emailEnabled := email, pushEnabled := push, forwardRules := rules);
    ghost var all := Network(r);
    Seven(start, all[0], all[1], all[2], all[3], all[4], all[5], all[6]);
  }

  method DecodeKeepalive(reader: Reader, c: Config) returns (ok: bool, r: Config)
    requires reader.Valid() && Ahead(reader, KeepaliveKinds())
    modifies reader
    ensures Took(reader, ok, Keepalive(r))
    ensures ok ==> r == c.(kaEnabled := r.kaEnabled, kaIntervalDays := r.kaIntervalDays, kaAction := r.kaAction,
                           kaTarget := r.kaTarget, kaUrl := r.kaUrl, kaProfile := r.kaProfile,
                           kaLastTime := r.kaLastTime)
    ensures ok ==> 0 <= r.kaIntervalDays <= MAX_INT
  {
    hide Reader.Valid, Reader.Refused, Word32;
    ghost var start := reader.taken;
    AheadAt(reader, KeepaliveKinds());
    r := c;
    var enabled, days, action, target, url, profile, last;
    ok, enabled := reader.Bool();
    if !ok { return; }
    ok, days := reader.Number(0, MAX_INT);
    if !ok { return; }
    ok, action := reader.Number(0, 0xFF);
    if !ok { return; }
    ok, target := reader.String(64);
    if !ok { return; }
    ok, url := reader.String(256);
    if !ok { return; }
    ok, profile := reader.String(64);
    if !ok { return; }
    ok, last := reader.Number(0, 0xFFFF_FFFF);
    if !ok { return; }
    SmallWord(days);
    r := c.(kaEnabled := enabled, kaIntervalDays := days, kaAction := action, kaTarget := target, kaUrl := url,
            kaProfile := profile, kaLastTime := last);
    ghost var all := Keepalive(r);
    Seven(start, all[0], all[1], all[2], all[3], all[4], all[5], all[6]);
  }

  method DecodeClock(reader: Reader, c: Config) returns (ok: bool, r: Config)
    requires reader.Valid() && Ahead(reader, ClockKinds())
    modifies reader
    ensures Took(reader, ok, Clock(r))
    ensures ok ==> r == c.(tzOffsetMin := r.tzOffsetMin, ntpServer := r.ntpServer, rebootEnabled := r.rebootEnabled,
                           rebootHour := r.rebootHour, smsHealthEnabled := r.smsHealthEnabled,
                           smsHealthHour := r.smsHealthHour, smsHealthNotify := r.smsHealthNotify)
    ensures ok ==>
      -0x8000_0000 <= r.tzOffsetMin < 0x8000_0000 && 0 <= r.rebootHour <= MAX_INT && 0 <= r.smsHealthHour <= MAX_INT
  {
    hide Reader.Valid, Reader.Refused, Word32;
    ghost var start := reader.taken;
    AheadAt(reader, ClockKinds());
    r := c;
    var offset, server, reboot, rebootHour, health, healthHour, notify;
    ok, offset := reader.Signed();
    if !ok { return; }
    ok, server := reader.String(128);
    if !ok { return; }
    ok, reboot := reader.Bool();
    if !ok { return; }
    ok, rebootHour := reader.Number(0, MAX_INT);
    if !ok { return; }
    ok, health := reader.Bool();
    if !ok { return; }
    ok, healthHour := reader.Number(0, MAX_INT);
    if !ok { return; }
    ok, notify := reader.Bool();
    if !ok { return; }
    SmallWord(rebootHour);
    SmallWord(healthHour);
    r := c.(tzOffsetMin := offset, ntpServer := server, rebootEnabled := reboot, rebootHour := rebootHour,
            smsHealthEnabled := health, smsHealthHour := healthHour, smsHealthNotify := notify);
    ghost var all := Clock(r);
    Seven(start, all[0], all[1], all[2], all[3], all[4], all[5], all[6]);
  }

  method DecodeModem(reader: Reader, c: Config) returns (ok: bool, r: Config)
    requires reader.Valid() && Ahead(reader, ModemKinds())
    modifies reader
    ensures Took(reader, ok, Modem(r))
    ensures ok ==> r == c.(netLedEnabled := r.netLedEnabled, callNotifyEnabled := r.callNotifyEnabled,
                           dataEnabled := r.dataEnabled, roamingEnabled := r.roamingEnabled,
                           apn := r.apn, operatorPlmn := r.operatorPlmn, phoneNumber := r.phoneNumber)
  {
    hide Reader.Valid, Reader.Refused;
    ghost var start := reader.taken;
    AheadAt(reader, ModemKinds());
    r := c;
    var led, call, mobile, roaming, apn, plmn, phone;
    ok, led := reader.Bool();
    if !ok { return; }
    ok, call := reader.Bool();
    if !ok { return; }
    ok, mobile := reader.Bool();
    if !ok { return; }
    ok, roaming := reader.Bool();
    if !ok { return; }
    ok, apn := reader.String(96);
    if !ok { return; }
    ok, plmn := reader.String(16);
    if !ok { return; }
    ok, phone := reader.String(32);
    if !ok { return; }
    r := c.(netLedEnabled := led, callNotifyEnabled := call, dataEnabled := mobile, roamingEnabled := roaming,
            apn := apn, operatorPlmn := plmn, phoneNumber := phone);
    ghost var all := Modem(r);
    Seven(start, all[0], all[1], all[2], all[3], all[4], all[5], all[6]);
  }

  method DecodeSim(reader: Reader) returns (ok: bool, m: Sim)
    requires reader.Valid() && Ahead(reader, SimKinds())
    modifies reader
    ensures Took(reader, ok, SimRow(m))
  {
    hide Reader.Valid, Reader.Refused;
    ghost var start := reader.taken;
    AheadAt(reader, SimKinds());
    m := NO_SIM;
    var iccid, pin, puk, pinMax, pukMax, pinFailed, pukFailed;
    ok, iccid := reader.String(22);
    if !ok { return; }
    ok, pin := reader.String(8);
    if !ok { return; }
    ok, puk := reader.String(8);
    if !ok { return; }
    ok, pinMax := reader.Number(0, 0xFF);
    if !ok { return; }
    ok, pukMax := reader.Number(0, 0xFF);
    if !ok { return; }
    ok, pinFailed := reader.Number(0, 0xFF);
    if !ok { return; }
    ok, pukFailed := reader.Number(0, 0xFF);
    if !ok { return; }
    m := Sim(iccid, pin, puk, pinMax, pukMax, pinFailed, pukFailed);
    ghost var all := SimRow(m);
    Seven(start, all[0], all[1], all[2], all[3], all[4], all[5], all[6]);
  }

  method DecodeSims(reader: Reader) returns (ok: bool, sims: seq<Sim>)
    requires reader.Valid() && Ahead(reader, [Exactly(5)] + Repeat(SimKinds(), 5))
    modifies reader
    ensures Took(reader, ok, [B(5)] + Rows(sims, SimRow))
    ensures ok ==> |sims| == 5
  {
    hide Reader.Valid, Reader.Refused, Rows, Repeat, At, SimRow;
    AtSplit(reader.plan, |reader.taken|, [Exactly(5)], Repeat(SimKinds(), 5));
    AheadAt(reader, [Exactly(5)]);
    sims := [];
    ok := reader.Count(5);
    if !ok { return; }
    ghost var start := reader.taken;
    RowsAll(sims, SimRow);
    while |sims| < 5
      invariant |sims| <= 5 && reader.Valid()
      invariant reader.taken == start + Rows(sims, SimRow)
      invariant Ahead(reader, Repeat(SimKinds(), 5 - |sims|))
    {
      AtRepeat(reader.plan, |reader.taken|, SimKinds(), 5 - |sims|);
      var m;
      ok, m := DecodeSim(reader);
      if !ok { return; }
      RowsSnoc(sims, SimRow, m);
      sims := sims + [m];
    }
  }

  method DecodeTaskPlan(reader: Reader) returns (ok: bool, t: Task)
    requires reader.Valid() && Ahead(reader, TaskPlanKinds())
    modifies reader
    ensures Took(reader, ok, TaskPlan(t))
    ensures ok ==> 0 <= t.intervalDays <= MAX_INT
  {
    hide Reader.Valid, Reader.Refused, Word32;
    ghost var start := reader.taken;
    AheadAt(reader, TaskPlanKinds());
    t := Task(false, [], [], true, 30, 0, [], [], 0);
    var enabled, name, profile, back, days, action;
    ok, enabled := reader.Bool();
    if !ok { return; }
    ok, name := reader.String(32);
    if !ok { return; }
    ok, profile := reader.String(64);
    if !ok { return; }
    ok, back := reader.Bool();
    if !ok { return; }
    ok, days := reader.Number(0, MAX_INT);
    if !ok { return; }
    ok, action := reader.Number(0, 0xFF);
    if !ok { return; }
    SmallWord(days);
    t := t.(enabled := enabled, name := name, profile := profile, switchBack := back, intervalDays := days,
      action := action);
    ghost var all := TaskPlan(t);
    Six(start, all[0], all[1], all[2], all[3], all[4], all[5]);
  }

  method DecodeTask(reader: Reader) returns (ok: bool, t: Task)
    requires reader.Valid() && Ahead(reader, TaskKinds())
    modifies reader
    ensures Took(reader, ok, TaskRow(t))
    ensures ok ==> 0 <= t.intervalDays <= MAX_INT
  {
    hide Reader.Valid, Reader.Refused, At, TaskPlanKinds;
    AtSplit(reader.plan, |reader.taken|, TaskPlanKinds(), TaskTextKinds());
    ok, t := DecodeTaskPlan(reader);
    if !ok { return; }
    AheadAt(reader, TaskTextKinds());
    ghost var start, plan := reader.taken, TaskPlan(t);
    var target, payload, last;
    ok, target := reader.String(128);
    if !ok { return; }
    ok, payload := reader.String(128);
    if !ok { return; }
    ok, last := reader.Number(0, 0xFFFF_FFFF);
    if !ok { return; }
    t := t.(target := target, payload := payload, lastRun := last);
    assert TaskPlan(t) == plan && reader.taken == start + TaskText(t);
  }

  method DecodeTasks(reader: Reader) returns (ok: bool, tasks: seq<Task>)
    requires reader.Valid() && Ahead(reader, [Exactly(6)] + Repeat(TaskKinds(), 6))
    modifies reader
    ensures Took(reader, ok, [B(6)] + Rows(tasks, TaskRow))
    ensures ok ==> |tasks| == 6 && forall t | t in tasks :: 0 <= t.intervalDays <= MAX_INT
  {
    hide Reader.Valid, Reader.Refused, Rows, Repeat, At, TaskRow, TaskKinds;
    AtSplit(reader.plan, |reader.taken|, [Exactly(6)], Repeat(TaskKinds(), 6));
    AheadAt(reader, [Exactly(6)]);
    tasks := [];
    ok := reader.Count(6);
    if !ok { return; }
    ghost var start := reader.taken;
    RowsAll(tasks, TaskRow);
    while |tasks| < 6
      invariant |tasks| <= 6 && reader.Valid() && forall t | t in tasks :: 0 <= t.intervalDays <= MAX_INT
      invariant reader.taken == start + Rows(tasks, TaskRow)
      invariant Ahead(reader, Repeat(TaskKinds(), 6 - |tasks|))
    {
      AtRepeat(reader.plan, |reader.taken|, TaskKinds(), 6 - |tasks|);
      var t;
      ok, t := DecodeTask(reader);
      if !ok { return; }
      RowsSnoc(tasks, TaskRow, t);
      tasks := tasks + [t];
      KindsOfTask();
    }
  }

  lemma KindsOfTask()
    ensures |TaskKinds()| == 9
  {
  }

  // ----- a configuration is determined by its fields -----

  predicate IntOk(n: int) { 0 <= n <= MAX_INT }

  /** The numbers are ones that their wire form can hold. */
  predicate InRange(c: Config) {
    && IntOk(c.smtpPort) && IntOk(c.networkMode) && IntOk(c.heartbeatInterval) && IntOk(c.kaIntervalDays)
    && -0x8000_0000 <= c.tzOffsetMin < 0x8000_0000 && IntOk(c.rebootHour) && IntOk(c.smsHealthHour)
    && (forall t | t in c.schedTasks :: IntOk(t.intervalDays)) && IntOk(c.kaTrafficKB)
  }

  lemma SplitEqual<A>(a1: seq<A>, a2: seq<A>, b1: seq<A>, b2: seq<A>)
    requires a1 + a2 == b1 + b2 && |a1| == |b1|
    ensures a1 == b1 && a2 == b2
  {
    assert a1 == (a1 + a2)[..|a1|] && b1 == (b1 + b2)[..|b1|];
    assert a2 == (a1 + a2)[|a1|..] && b2 == (b1 + b2)[|b1|..];
  }

  lemma {:induction false} RowsLength<A(!new)>(items: seq<A>, row: A -> seq<Value>, w: nat)
    requires forall x :: |row(x)| == w
    ensures |Rows(items, row)| == |items| * w
  {
    if items != [] {
      RowsLength(items[..|items| - 1], row, w);
      assert |items| * w == (|items| - 1) * w + w;
    }
  }

  lemma {:induction false} RowsUnique<A(!new)>(a: seq<A>, b: seq<A>, row: A -> seq<Value>, w: nat, ok: A -> bool)
    requires |a| == |b| && Rows(a, row) == Rows(b, row)
    requires forall x :: |row(x)| == w
    requires forall x, y :: ok(x) && ok(y) && row(x) == row(y) ==> x == y
    requires (forall x | x in a :: ok(x)) && (forall x | x in b :: ok(x))
    ensures a == b
  {
    if a != [] {
      var n := |a| - 1;
      RowsLength(a[..n], row, w);
      RowsLength(b[..n], row, w);
      SplitEqual(Rows(a[..n], row), row(a[n]), Rows(b[..n], row), row(b[n]));
      RowsUnique(a[..n], b[..n], row, w, ok);
      assert a == a[..n] + [a[n]] && b == b[..n] + [b[n]];
    }
  }

  lemma AccountsUnique(a: seq<Account>, b: seq<Account>)
    requires |a| == |b| && Rows(a, AccountRow) == Rows(b, AccountRow)
    ensures a == b
  {
    forall x: Account, y: Account | AccountRow(x) == AccountRow(y) ensures x == y {
      assert AccountRow(x)[0] == AccountRow(y)[0] && AccountRow(x)[1] == AccountRow(y)[1];
    }
    RowsUnique(a, b, AccountRow, 2, _ => true);
  }

  lemma WifisUnique(a: seq<Wifi>, b: seq<Wifi>)
    requires |a| == |b| && Rows(a, WifiRow) == Rows(b, WifiRow)
    ensures a == b
  {
    forall x: Wifi, y: Wifi | WifiRow(x) == WifiRow(y) ensures x == y {
      assert WifiRow(x)[0] == WifiRow(y)[0] && WifiRow(x)[1] == WifiRow(y)[1];
    }
    RowsUnique(a, b, WifiRow, 2, _ => true);
  }

  lemma SimUnique(x: Sim, y: Sim)
    requires SimRow(x) == SimRow(y)
    ensures x == y
  {
    var a, b := SimRow(x), SimRow(y);
    assert a[0] == b[0] && a[1] == b[1] && a[2] == b[2] && a[3] == b[3] && a[4] == b[4] && a[5] == b[5] && a[6] == b[6];
  }

  lemma SimsUnique(a: seq<Sim>, b: seq<Sim>)
    requires |a| == |b| && Rows(a, SimRow) == Rows(b, SimRow)
    ensures a == b
  {
    forall x: Sim, y: Sim | SimRow(x) == SimRow(y) ensures x == y { SimUnique(x, y); }
    RowsUnique(a, b, SimRow, 7, _ => true);
  }

  lemma TaskUnique(x: Task, y: Task)
    requires TaskRow(x) == TaskRow(y) && IntOk(x.intervalDays) && IntOk(y.intervalDays)
    ensures x == y
  {
    SplitEqual(TaskPlan(x), TaskText(x), TaskPlan(y), TaskText(y));
    var a, b, d, e := TaskPlan(x), TaskPlan(y), TaskText(x), TaskText(y);
    assert a[0] == b[0] && a[1] == b[1] && a[2] == b[2] && a[3] == b[3] && a[4] == b[4] && a[5] == b[5];
    assert d[0] == e[0] && d[1] == e[1] && d[2] == e[2];
  }

  lemma TasksUnique(a: seq<Task>, b: seq<Task>)
    requires |a| == |b| && Rows(a, TaskRow) == Rows(b, TaskRow)
    requires (forall t | t in a :: IntOk(t.intervalDays)) && (forall t | t in b :: IntOk(t.intervalDays))
    ensures a == b
  {
    var ok := (t: Task) => IntOk(t.intervalDays);
    forall x: Task, y: Task | ok(x) && ok(y) && TaskRow(x) == TaskRow(y) ensures x == y { TaskUnique(x, y); }
    RowsUnique(a, b, TaskRow, 9, ok);
  }

  lemma ChannelUnique(x: Channel, y: Channel, cellular: bool)
    requires ChannelRow(x, cellular) == ChannelRow(y, cellular)
    requires !cellular ==> DefaultCellular(x) && DefaultCellular(y)
    ensures x == y
  {
    SplitEqual(ChannelKeys(x) + ChannelTexts(x), Cellular(x, cellular), ChannelKeys(y) + ChannelTexts(y),
      Cellular(y, cellular));
    SplitEqual(ChannelKeys(x), ChannelTexts(x), ChannelKeys(y), ChannelTexts(y));
    var a, b, d, e := ChannelKeys(x), ChannelKeys(y), ChannelTexts(x), ChannelTexts(y);
    assert a[0] == b[0] && a[1] == b[1] && a[2] == b[2] && a[3] == b[3] && a[4] == b[4] && a[5] == b[5];
    assert d[0] == e[0] && d[1] == e[1] && d[2] == e[2];
    if cellular {
      assert Cellular(x, cellular)[0] == Cellular(y, cellular)[0]
        && Cellular(x, cellular)[1] == Cellular(y, cellular)[1];
    }
  }

  lemma ChannelsUnique(a: seq<Channel>, b: seq<Channel>, cellular: bool)
    requires |a| == |b| && Channels(a, cellular) == Channels(b, cellular)
    requires !cellular ==> (forall h | h in a :: DefaultCellular(h)) && (forall h | h in b :: DefaultCellular(h))
    ensures a == b
  {
    var row := ChannelRower(cellular);
    var ok := (h: Channel) => cellular || DefaultCellular(h);
    forall x: Channel, y: Channel | ok(x) && ok(y) && row(x) == row(y) ensures x == y {
      ChannelUnique(x, y, cellular);
    }
    RowsUnique(a, b, row, if cellular then 11 else 9, ok);
  }

  lemma IdentityUnique(a: Config, b: Config)
    requires Identity(a) == Identity(b) && IntOk(a.smtpPort) && IntOk(b.smtpPort)
    ensures a.smtpPort == b.smtpPort && a.deviceName == b.deviceName && a.hostname == b.hostname
    ensures a.notificationLocale == b.notificationLocale
  {
    var x, y := Identity(a), Identity(b);
    assert x[0] == y[0] && x[1] == y[1] && x[2] == y[2] && x[3] == y[3];
  }

  lemma MailUnique(a: Config, b: Config)
    requires Mail(a) == Mail(b)
    ensures a.smtpServer == b.smtpServer && a.smtpUser == b.smtpUser && a.smtpPass == b.smtpPass
    ensures a.smtpSendTo == b.smtpSendTo && a.adminPhone == b.adminPhone && a.numberBlackList == b.numberBlackList
  {
    var x, y := Mail(a), Mail(b);
    assert x[0] == y[0] && x[1] == y[1] && x[2] == y[2] && x[3] == y[3] && x[4] == y[4] && x[5] == y[5];
  }

  lemma NetworkUnique(a: Config, b: Config)
    requires Network(a) == Network(b) && InRange(a) && InRange(b)
    ensures a.networkMode == b.networkMode && a.heartbeatEnable == b.heartbeatEnable
    ensures a.heartbeatInterval == b.heartbeatInterval && a.txPower == b.txPower
    ensures a.emailEnabled == b.emailEnabled && a.pushEnabled == b.pushEnabled && a.forwardRules == b.forwardRules
  {
    var x, y := Network(a), Network(b);
    assert x[0] == y[0] && x[1] == y[1] && x[2] == y[2] && x[3] == y[3] && x[4] == y[4] && x[5] == y[5] && x[6] == y[6];
  }

  lemma KeepaliveUnique(a: Config, b: Config)
    requires Keepalive(a) == Keepalive(b) && InRange(a) && InRange(b)
    ensures a.kaEnabled == b.kaEnabled && a.kaIntervalDays == b.kaIntervalDays && a.kaAction == b.kaAction
    ensures a.kaTarget == b.kaTarget && a.kaUrl == b.kaUrl && a.kaProfile == b.kaProfile && a.kaLastTime == b.kaLastTime
  {
    var x, y := Keepalive(a), Keepalive(b);
    assert x[0] == y[0] && x[1] == y[1] && x[2] == y[2] && x[3] == y[3] && x[4] == y[4] && x[5] == y[5] && x[6] == y[6];
  }

  lemma ClockUnique(a: Config, b: Config)
    requires Clock(a) == Clock(b) && InRange(a) && InRange(b)
    ensures a.tzOffsetMin == b.tzOffsetMin && a.ntpServer == b.ntpServer && a.rebootEnabled == b.rebootEnabled
    ensures a.rebootHour == b.rebootHour && a.smsHealthEnabled == b.smsHealthEnabled
    ensures a.smsHealthHour == b.smsHealthHour && a.smsHealthNotify == b.smsHealthNotify
  {
    var x, y := Clock(a), Clock(b);
    assert x[0] == y[0] && x[1] == y[1] && x[2] == y[2] && x[3] == y[3] && x[4] == y[4] && x[5] == y[5] && x[6] == y[6];
  }

  lemma ModemUnique(a: Config, b: Config)
    requires Modem(a) == Modem(b)
    ensures a.netLedEnabled == b.netLedEnabled && a.callNotifyEnabled == b.callNotifyEnabled
    ensures a.dataEnabled == b.dataEnabled && a.roamingEnabled == b.roamingEnabled
    ensures a.apn == b.apn && a.operatorPlmn == b.operatorPlmn && a.phoneNumber == b.phoneNumber
  {
    var x, y := Modem(a), Modem(b);
    assert x[0] == y[0] && x[1] == y[1] && x[2] == y[2] && x[3] == y[3] && x[4] == y[4] && x[5] == y[5] && x[6] == y[6];
  }

  lemma PlainSplit(a: Config, b: Config)
    requires Plain(a) == Plain(b)
    ensures Network(a) == Network(b) && Keepalive(a) == Keepalive(b) && Clock(a) == Clock(b) && Modem(a) == Modem(b)
  {
    hide Network, Keepalive, Clock, Modem;
    SplitEqual(Network(a) + Keepalive(a) + Clock(a), Modem(a), Network(b) + Keepalive(b) + Clock(b), Modem(b));
    SplitEqual(Network(a) + Keepalive(a), Clock(a), Network(b) + Keepalive(b), Clock(b));
    SplitEqual(Network(a), Keepalive(a), Network(b), Keepalive(b));
  }

  lemma ArrayLengths(c: Config, cellular: bool)
    requires Sized(c)
    ensures |Rows(c.webAccounts, AccountRow)| == 20 && |Rows(c.wifiNetworks, WifiRow)| == 10
    ensures |Channels(c.pushChannels, cellular)| == if cellular then 55 else 45
    ensures |Rows(c.simCredentials, SimRow)| == 35 && |Rows(c.schedTasks, TaskRow)| == 54
  {
    hide Rows;
    RowsLength(c.webAccounts, AccountRow, 2);
    RowsLength(c.wifiNetworks, WifiRow, 2);
    RowsLength(c.pushChannels, ChannelRower(cellular), if cellular then 11 else 9);
    RowsLength(c.simCredentials, SimRow, 7);
    RowsLength(c.schedTasks, TaskRow, 9);
  }

  lemma FirstArraysUnique(a: Config, b: Config, cellular: bool)
    requires Sized(a) && Sized(b) && FirstArrays(a, cellular) == FirstArrays(b, cellular)
    requires !cellular ==> !RequiresV7(a) && !RequiresV7(b)
    ensures a.webAccounts == b.webAccounts && a.pushChannels == b.pushChannels && a.wifiNetworks == b.wifiNetworks
  {
    hide Rows, Channels, DefaultCellular;
    ArrayLengths(a, cellular);
    ArrayLengths(b, cellular);
    var a1, a2, a3 := Rows(a.webAccounts, AccountRow), Channels(a.pushChannels, cellular),
      Rows(a.wifiNetworks, WifiRow);
    var b1, b2, b3 := Rows(b.webAccounts, AccountRow), Channels(b.pushChannels, cellular),
      Rows(b.wifiNetworks, WifiRow);
    SplitEqual([B(10)] + a1 + [B(5)] + a2 + [B(5)], a3, [B(10)] + b1 + [B(5)] + b2 + [B(5)], b3);
    SplitEqual([B(10)] + a1 + [B(5)] + a2, [B(5)], [B(10)] + b1 + [B(5)] + b2, [B(5)]);
    SplitEqual([B(10)] + a1 + [B(5)], a2, [B(10)] + b1 + [B(5)], b2);
    SplitEqual([B(10)] + a1, [B(5)], [B(10)] + b1, [B(5)]);
    SplitEqual([B(10)], a1, [B(10)], b1);
    AccountsUnique(a.webAccounts, b.webAccounts);
    ChannelsUnique(a.pushChannels, b.pushChannels, cellular);
    WifisUnique(a.wifiNetworks, b.wifiNetworks);
  }

  lemma LastArraysUnique(a: Config, b: Config)
    requires Sized(a) && Sized(b) && LastArrays(a) == LastArrays(b) && InRange(a) && InRange(b)
    ensures a.simCredentials == b.simCredentials && a.schedTasks == b.schedTasks
  {
    hide Rows;
    ArrayLengths(a, false);
    ArrayLengths(b, false);
    var a1, a2 := Rows(a.simCredentials, SimRow), Rows(a.schedTasks, TaskRow);
    var b1, b2 := Rows(b.simCredentials, SimRow), Rows(b.schedTasks, TaskRow);
    SplitEqual([B(5)] + a1 + [B(6)], a2, [B(5)] + b1 + [B(6)], b2);
    SplitEqual([B(5)] + a1, [B(6)], [B(5)] + b1, [B(6)]);
    SplitEqual([B(5)], a1, [B(5)], b1);
    SimsUnique(a.simCredentials, b.simCredentials);
    TasksUnique(a.schedTasks, b.schedTasks);
  }

  lemma GroupLengths(c: Config, cellular: bool)
    requires Sized(c)
    ensures |FirstArrays(c, cellular)| == if cellular then 88 else 78
    ensures |LastArrays(c)| == 91 && |Plain(c)| == 28
    ensures |OldValues(c, cellular)| == if cellular then 217 else 207
  {
    hide Rows, Channels, Network, Keepalive, Clock, Modem, Identity, Mail;
    ArrayLengths(c, cellular);
  }

  /** The same fields from everything but the traffic limit mean the same configuration, as far as it is stored. */
  lemma OldValuesUnique(a: Config, b: Config, cellular: bool)
    requires Sized(a) && Sized(b) && InRange(a) && InRange(b) && OldValues(a, cellular) == OldValues(b, cellular)
    requires !cellular ==> !RequiresV7(a) && !RequiresV7(b)
    requires Normal(a) == a && Normal(b) == b
    ensures a == b.(kaTrafficKB := a.kaTrafficKB)
  {
    hide Identity, Mail, FirstArrays, Plain, LastArrays, RequiresV7, InRange, IntOk;
    GroupLengths(a, cellular);
    GroupLengths(b, cellular);
    var a1, a2, a3, a4, a5 := Identity(a), Mail(a), FirstArrays(a, cellular), Plain(a), LastArrays(a);
    var b1, b2, b3, b4, b5 := Identity(b), Mail(b), FirstArrays(b, cellular), Plain(b), LastArrays(b);
    SplitEqual(a1 + a2 + a3 + a4, a5, b1 + b2 + b3 + b4, b5);
    SplitEqual(a1 + a2 + a3, a4, b1 + b2 + b3, b4);
    SplitEqual(a1 + a2, a3, b1 + b2, b3);
    SplitEqual(a1, a2, b1, b2);
    RangeOfPort(a);
    RangeOfPort(b);
    IdentityUnique(a, b);
    MailUnique(a, b);
    FirstArraysUnique(a, b, cellular);
    PlainSplit(a, b);
    NetworkUnique(a, b);
    KeepaliveUnique(a, b);
    ClockUnique(a, b);
    ModemUnique(a, b);
    LastArraysUnique(a, b);
  }

  lemma RangeOfPort(c: Config)
    requires InRange(c)
    ensures IntOk(c.smtpPort) && IntOk(c.kaTrafficKB)
  {
  }
}
