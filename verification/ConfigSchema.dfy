/**
 * Schemas 6 and 7 as a whole: the decoders against the relation between a configuration
 * and its payload, which configurations survive being stored, and what schema 6 loses.
 */
module ConfigSchema {
  import opened Bytes
  import opened ConfigTypes
  import opened ConfigWire
  import opened ConfigCodec

  /** `payload` is what schema 7 (`cellular`) or schema 6 holds for `c`, and a decoder accepts it. */
  ghost predicate Stored(c: Config, cellular: bool, payload: seq<byte>) {
    && Sized(c) && Normal(c) == c && SemanticallyValid(c, false) && (!cellular ==> !RequiresV7(c))
    && FitsAll(Layout(cellular, true), Values(c, cellular, true))
    && payload == WireAll(Values(c, cellular, true))
  }

  lemma ValidInRange(c: Config, portable: bool)
    requires SemanticallyValid(c, portable)
    ensures InRange(c) && TrafficValid(c.kaTrafficKB)
  {
    hide Bounded, BoundedLines, HostnameValid, LocaleValid, TxPowerValid;
    forall t | t in c.schedTasks ensures IntOk(t.intervalDays) {
      assert TaskValid(t, portable);
    }
  }

  lemma FitsPrefixed(ks: seq<Kind>, vs: seq<Value>)
    requires FitsAll(ks, vs)
    ensures Shaped(ks, vs) && forall v | v in vs :: Prefixed(v)
  {
    forall i | 0 <= i < |ks| ensures Shape(ks[i], vs[i]) && Prefixed(vs[i]) {
      assert Fits(ks[i], vs[i]);
    }
  }

  lemma StoredParses(c: Config, cellular: bool, payload: seq<byte>)
    requires Stored(c, cellular, payload)
    ensures Parse(Layout(cellular, true), payload) == Some((Values(c, cellular, true), []))
  {
    hide Layout, Values, SemanticallyValid, RequiresV7, WireAll, Parse, FitsAll;
    FitsPrefixed(Layout(cellular, true), Values(c, cellular, true));
    AllWrittenAreRead(Layout(cellular, true), Values(c, cellular, true), []);
    assert payload + [] == payload;
  }

  lemma TrafficSplit(a: Config, b: Config, cellular: bool)
    requires Sized(a) && Sized(b) && Values(a, cellular, true) == Values(b, cellular, true) && InRange(a) && InRange(b)
    ensures OldValues(a, cellular) == OldValues(b, cellular) && a.kaTrafficKB == b.kaTrafficKB
  {
    hide OldValues;
    GroupLengths(a, cellular);
    GroupLengths(b, cellular);
    SplitEqual(OldValues(a, cellular), Traffic(a, true), OldValues(b, cellular), Traffic(b, true));
    assert Traffic(a, true)[0] == Traffic(b, true)[0];
  }

  /** A payload holds at most one configuration. */
  lemma StoredUnique(a: Config, b: Config, cellular: bool, payload: seq<byte>)
    requires Stored(a, cellular, payload) && Stored(b, cellular, payload)
    ensures a == b
  {
    hide Layout, Values, SemanticallyValid, RequiresV7, WireAll, Parse, FitsAll, InRange;
    StoredParses(a, cellular, payload);
    StoredParses(b, cellular, payload);
    ValidInRange(a, false);
    ValidInRange(b, false);
    TrafficSplit(a, b, cellular);
    OldValuesUnique(a, b, cellular);
  }

  // ----- the decoders -----

  /** Every default that a decoder starts from. */
  function Defaults(): Config {
    Config(
      465, Ascii("SMS Forwarder"), Ascii("sms"), Ascii("zh-TW"), [], [], [], [], [], [],
      seq(WEB_ACCOUNTS, i => if i == 0 then Account(Ascii(DEFAULT_WEB_USER), Ascii(DEFAULT_WEB_PASS)) else NO_ACCOUNT),
      seq(PUSH_CHANNELS, i requires 0 <= i < 5 => Channel(false, 1, ChannelName(i), [], [], [], [], [], [], true, [])),
      seq(WIFI_NETWORKS, _ => Wifi([], [])),
      0, true, 6, 34, true, true, [],
      false, 175, 1, [], KeepaliveUrl(), [], 0, 480, Ascii("ntp.aliyun.com"), false, 4, false, 10, true,
      true, true, false, false, [], [], [],
      seq(SIM_CREDENTIALS, _ => NO_SIM), seq(SCHED_TASKS, _ => Task(false, [], [], true, 30, 0, [], [], 0)), 1,
      Fresh())
  }

  function ChannelName(i: nat): text
    requires i < 5
  {
    Ascii("Channel ") + [0x31 + i]
  }

  function KeepaliveUrl(): text { Ascii("http://gg.incrafttime.top/api/payload?size=64342") }

  /** The fields that no decoder reads are at their defaults. */
  predicate Unread(c: Config) { c.unstored == Fresh() }

  lemma UnreadMirrors(c: Config)
    requires Unread(c) && c.webAccounts != []
    ensures SyncMirrors(c) == Normal(c)
  {
    hide Fresh;
    assert c.(unstored := Fresh()) == c;
  }

  lemma UnreadIsNormal(c: Config)
    requires Unread(c) && c.webAccounts != []
    ensures SyncMirrors(c) == Normal(c) && Normal(SyncMirrors(c)) == SyncMirrors(c)
    ensures Sized(c) ==> Sized(SyncMirrors(c))
    ensures SemanticallyValid(SyncMirrors(c), false) == SemanticallyValid(c, false)
    ensures RequiresV7(SyncMirrors(c)) == RequiresV7(c)
  {
    hide Sized, SemanticallyValid, RequiresV7, Ascii, Normal, SyncMirrors, Unread, KeepaliveBounded;
    UnreadMirrors(c);
    NormalIsStored(c);
  }

  lemma {:induction false} RepeatLength(ks: seq<Kind>, n: nat)
    ensures |Repeat(ks, n)| == n * |ks|
  {
    if n > 0 {
      RepeatLength(ks, n - 1);
      assert n * |ks| == (n - 1) * |ks| + |ks|;
    }
  }

  lemma ArrayKindLengths(cellular: bool)
    ensures |Repeat(AccountKinds(), 10)| == 20 && |Repeat(WifiKinds(), 5)| == 10
    ensures |Repeat(ChannelKinds(cellular), 5)| == if cellular then 55 else 45
    ensures |Repeat(SimKinds(), 5)| == 35 && |Repeat(TaskKinds(), 6)| == 54
  {
    hide Repeat;
    RepeatLength(AccountKinds(), 10);
    RepeatLength(WifiKinds(), 5);
    RepeatLength(ChannelKinds(cellular), 5);
    RepeatLength(SimKinds(), 5);
    RepeatLength(TaskKinds(), 6);
  }

  /** A group of fields does not depend on fields outside it. */
  lemma KeepsIdentity(a: Config, b: Config)
    requires a.smtpPort == b.smtpPort && a.deviceName == b.deviceName && a.hostname == b.hostname
    requires a.notificationLocale == b.notificationLocale
    ensures Identity(a) == Identity(b)
  {
  }

  lemma KeepsMail(a: Config, b: Config)
    requires a.smtpServer == b.smtpServer && a.smtpUser == b.smtpUser && a.smtpPass == b.smtpPass
    requires a.smtpSendTo == b.smtpSendTo && a.adminPhone == b.adminPhone && a.numberBlackList == b.numberBlackList
    ensures Mail(a) == Mail(b)
  {
  }

  lemma DefaultsUnread()
    ensures Unread(Defaults()) && Defaults().kaTrafficKB == 1
  {
    hide Fresh, Ascii;
  }

  /** The identity, the mail settings and the first three arrays. */
  method DecodeFirst(reader: Reader, cellular: bool) returns (ok: bool, c: Config)
    requires reader.Valid() && Ahead(reader, IdentityKinds() + MailKinds() + ArrayKinds(cellular))
    modifies reader
    ensures Took(reader, ok, Identity(c) + Mail(c) + FirstArrays(c, cellular))
    ensures ok ==>
      && Unread(c) && c.kaTrafficKB == 1 && IntOk(c.smtpPort) && (!cellular ==> !RequiresV7(c))
      && |c.webAccounts| == 10 && |c.pushChannels| == 5 && |c.wifiNetworks| == 5
  {
    hide Reader.Valid, Reader.Refused, At, IdentityKinds, MailKinds, Repeat, Rows, Identity, Mail, Ascii,
      DefaultCellular, ChannelKinds, AccountKinds, WifiKinds, Defaults;
    ghost var plan, n := reader.plan, |reader.taken|;
    AtSplit(plan, n, IdentityKinds() + MailKinds(), ArrayKinds(cellular));
    AtSplit(plan, n, IdentityKinds(), MailKinds());
    ghost var k1, k2, k3 := [Exactly(10)] + Repeat(AccountKinds(), 10),
      [Exactly(5)] + Repeat(ChannelKinds(cellular), 5),
      [Exactly(5)] + Repeat(WifiKinds(), 5);
    assert ArrayKinds(cellular) == k1 + k2 + k3;
    AtSplit(plan, n + 10, k1 + k2, k3);
    AtSplit(plan, n + 10, k1, k2);
    ArrayKindLengths(cellular);
    DefaultsUnread();
    ok, c := DecodeIdentity(reader, Defaults());
    if !ok { return; }
    ghost var first := c;
    ok, c := DecodeMail(reader, c);
    if !ok { return; }
    KeepsIdentity(first, c);
    var accounts, channels, networks;
    ok, accounts := DecodeAccounts(reader);
    if !ok { return; }
    RowsLength(accounts, AccountRow, 2);
    ok, channels := DecodeChannels(reader, cellular);
    if !ok { return; }
    RowsLength(channels, ChannelRower(cellular), if cellular then 11 else 9);
    ok, networks := DecodeWifi(reader);
    if !ok { return; }
    ghost var before := c;
    c := c.(webAccounts := accounts, pushChannels := channels, wifiNetworks := networks);
    KeepsIdentity(before, c);
    KeepsMail(before, c);
  }

  /** The other fields of schema 5, behind the first arrays. */
  method DecodePlain(reader: Reader, first: Config) returns (ok: bool, c: Config)
    requires reader.Valid() && Ahead(reader, PlainKinds())
    requires Unread(first)
    modifies reader
    ensures Took(reader, ok, Plain(c))
    ensures ok ==>
      && Unread(c) && Identity(c) == Identity(first) && Mail(c) == Mail(first) && c.kaTrafficKB == first.kaTrafficKB
      && c.smtpPort == first.smtpPort && c.webAccounts == first.webAccounts && c.pushChannels == first.pushChannels
      && c.wifiNetworks == first.wifiNetworks && NumbersInRange(c)
  {
    hide Reader.Valid, Reader.Refused, At, NetworkKinds, KeepaliveKinds, ClockKinds, ModemKinds, Network, Keepalive,
      Clock, Modem, Ascii;
    ghost var plan, n := reader.plan, |reader.taken|;
    AtSplit(plan, n, NetworkKinds() + KeepaliveKinds() + ClockKinds(), ModemKinds());
    AtSplit(plan, n, NetworkKinds() + KeepaliveKinds(), ClockKinds());
    AtSplit(plan, n, NetworkKinds(), KeepaliveKinds());
    ok, c := DecodeNetwork(reader, first);
    if !ok { return; }
    ghost var c1 := c;
    ok, c := DecodeKeepalive(reader, c);
    if !ok { return; }
    ghost var c2 := c;
    ok, c := DecodeClock(reader, c);
    if !ok { return; }
    ghost var c3 := c;
    ok, c := DecodeModem(reader, c);
    if !ok { return; }
    PlainKept(first, c1, c2, c3, c);
  }

  predicate NumbersInRange(c: Config) {
    && IntOk(c.networkMode) && IntOk(c.heartbeatInterval) && IntOk(c.kaIntervalDays)
    && -0x8000_0000 <= c.tzOffsetMin < 0x8000_0000 && IntOk(c.rebootHour) && IntOk(c.smsHealthHour)
  }

  lemma PlainKept(c0: Config, c1: Config, c2: Config, c3: Config, c4: Config)
    requires c1 == c0.(networkMode := c1.networkMode, heartbeatEnable := c1.heartbeatEnable,
                       heartbeatInterval := c1.heartbeatInterval, txPower := c1.txPower,
                       emailEnabled := c1.emailEnabled, pushEnabled := c1.pushEnabled, forwardRules := c1.forwardRules)
    requires c2 == c1.(kaEnabled := c2.kaEnabled, kaIntervalDays := c2.kaIntervalDays, kaAction := c2.kaAction,
                       kaTarget := c2.kaTarget, kaUrl := c2.kaUrl, kaProfile := c2.kaProfile,
                       kaLastTime := c2.kaLastTime)
    requires c3 == c2.(tzOffsetMin := c3.tzOffsetMin, ntpServer := c3.ntpServer, rebootEnabled := c3.rebootEnabled,
                       rebootHour := c3.rebootHour, smsHealthEnabled := c3.smsHealthEnabled,
                       smsHealthHour := c3.smsHealthHour, smsHealthNotify := c3.smsHealthNotify)
    requires c4 == c3.(netLedEnabled := c4.netLedEnabled, callNotifyEnabled := c4.callNotifyEnabled,
                       dataEnabled := c4.dataEnabled, roamingEnabled := c4.roamingEnabled,
                       apn := c4.apn, operatorPlmn := c4.operatorPlmn, phoneNumber := c4.phoneNumber)
    ensures Network(c4) == Network(c1) && Keepalive(c4) == Keepalive(c2) && Clock(c4) == Clock(c3)
    ensures Identity(c4) == Identity(c0) && Mail(c4) == Mail(c0)
  {
  }

  /** `decodeV5`: everything but the traffic limit, with the check at its end. */
  method DecodeV5(reader: Reader, cellular: bool) returns (ok: bool, c: Config)
    requires reader.Valid() && reader.taken == [] && reader.plan == Layout(cellular, true)
    modifies reader
    ensures ok ==>
      && reader.Valid() && reader.taken == OldValues(c, cellular) && c.kaTrafficKB == 1
      && Sized(c) && Normal(c) == c && InRange(c) && (!cellular ==> !RequiresV7(c)) && SemanticallyValid(c, false)
    ensures !ok ==> forall x :: !Stored(x, cellular, reader.data)
  {
    hide Reader.Valid, Reader.Refused, At, Stored, SemanticallyValid, RequiresV7, Sized, InRange, Identity, Mail,
      FirstArrays, Plain, Rows, PlainKinds, Repeat, SimKinds, TaskKinds, IdentityKinds, MailKinds, ArrayKinds, Unread,
      SyncMirrors, Normal, Fresh;
    LayoutSplit(reader.plan, cellular);
    ok, c := DecodeFirst(reader, cellular);
    if !ok {
      RefusedNeverStored(reader, cellular);
      return;
    }
    FirstLength(c, cellular);
    ghost var first := c;
    ok, c := DecodePlain(reader, c);
    if !ok {
      RefusedNeverStored(reader, cellular);
      return;
    }
    PlainLength(c);
    ArraysKept(first, c, cellular);
    ok, c := DecodeLast(reader, cellular, c);
    if !ok {
      RefusedNeverStored(reader, cellular);
      return;
    }
    SyncedFields(c, cellular);
    c := SyncMirrors(c);
    if !SemanticallyValid(c, false) {
      InvalidNeverStored(reader, c, cellular);
      return false, c;
    }
  }

  /** The credentials and the tasks, which complete schema 5. */
  method DecodeLast(reader: Reader, cellular: bool, plain: Config) returns (ok: bool, c: Config)
    requires reader.Valid() && Ahead(reader, LastKinds())
    requires Unread(plain) && NumbersInRange(plain) && IntOk(plain.smtpPort) && plain.kaTrafficKB == 1
    requires |plain.webAccounts| == 10 && |plain.pushChannels| == 5 && |plain.wifiNetworks| == 5
    requires !cellular ==> !RequiresV7(plain)
    requires reader.taken == Identity(plain) + Mail(plain) + FirstArrays(plain, cellular) + Plain(plain)
    modifies reader
    ensures !ok ==> reader.Refused()
    ensures ok ==>
      && reader.Valid() && reader.taken == OldValues(c, cellular) && Unread(c) && Sized(c) && InRange(c)
      && c.kaTrafficKB == 1 && (!cellular ==> !RequiresV7(c)) && c.webAccounts != []
  {
    hide Reader.Valid, Reader.Refused, At, Rows, Repeat, SimKinds, TaskKinds, Identity, Mail, FirstArrays, Plain,
      Unread, DefaultCellular;
    ghost var k1, k2 := [Exactly(5)] + Repeat(SimKinds(), 5), [Exactly(6)] + Repeat(TaskKinds(), 6);
    assert LastKinds() == k1 + k2;
    AtSplit(reader.plan, |reader.taken|, k1, k2);
    ArrayKindLengths(cellular);
    var sims, tasks;
    c := plain;
    ok, sims := DecodeSims(reader);
    if !ok { return; }
    RowsLength(sims, SimRow, 7);
    ok, tasks := DecodeTasks(reader);
    if !ok { return; }
    c := plain.(simCredentials := sims, schedTasks := tasks);
    LastKept(plain, c, cellular);
  }

  lemma LastKept(a: Config, b: Config, cellular: bool)
    requires b == a.(simCredentials := b.simCredentials, schedTasks := b.schedTasks)
    ensures Identity(a) == Identity(b) && Mail(a) == Mail(b) && FirstArrays(a, cellular) == FirstArrays(b, cellular)
    ensures Plain(a) == Plain(b) && Unread(a) == Unread(b)
  {
    hide Rows, Channels, Ascii;
  }

  lemma LayoutSplit(plan: seq<Kind>, cellular: bool)
    requires plan == Layout(cellular, true)
    ensures var m := 10 + |ArrayKinds(cellular)|;
            && |ArrayKinds(cellular)| == (if cellular then 88 else 78)
            && At(plan, 0, IdentityKinds() + MailKinds() + ArrayKinds(cellular))
            && At(plan, m, PlainKinds()) && At(plan, m + 28, LastKinds()) && At(plan, m + 119, TrafficKinds(true))
            && |plan| == m + 120
  {
    hide Repeat, IdentityKinds, MailKinds, NetworkKinds, KeepaliveKinds, ClockKinds, ModemKinds;
    ArrayKindLengths(cellular);
    var a, b, c := IdentityKinds() + MailKinds() + ArrayKinds(cellular), PlainKinds(), LastKinds();
    assert |PlainKinds()| == 28 && |LastKinds()| == 91;
    AtSplit(plan, 0, a + b + c, TrafficKinds(true));
    AtSplit(plan, 0, a + b, c);
    AtSplit(plan, 0, a, b);
  }

  lemma FirstLength(c: Config, cellular: bool)
    requires |c.webAccounts| == 10 && |c.pushChannels| == 5 && |c.wifiNetworks| == 5
    ensures |FirstArrays(c, cellular)| == (if cellular then 88 else 78) && |Identity(c) + Mail(c)| == 10
  {
    hide Rows;
    RowsLength(c.webAccounts, AccountRow, 2);
    RowsLength(c.wifiNetworks, WifiRow, 2);
    RowsLength(c.pushChannels, ChannelRower(cellular), if cellular then 11 else 9);
  }

  lemma PlainLength(c: Config)
    ensures |Plain(c)| == 28
  {
  }

  lemma ArraysKept(a: Config, b: Config, cellular: bool)
    requires a.webAccounts == b.webAccounts && a.pushChannels == b.pushChannels && a.wifiNetworks == b.wifiNetworks
    ensures FirstArrays(a, cellular) == FirstArrays(b, cellular) && RequiresV7(a) == RequiresV7(b)
  {
    hide Rows, Channels, DefaultCellular;
  }

  /** What is kept in memory only is not written. */
  lemma UnstoredAside(c: Config, u: Unstored, cellular: bool)
    ensures var d := c.(unstored := u);
            && Identity(d) == Identity(c) && Mail(d) == Mail(c) && FirstArrays(d, cellular) == FirstArrays(c, cellular)
            && Plain(d) == Plain(c) && LastArrays(d) == LastArrays(c) && InRange(d) == InRange(c)
  {
    hide Rows, Channels;
  }

  /** Setting the mirrors changes nothing that is stored. */
  lemma SyncedFields(c: Config, cellular: bool)
    requires Unread(c) && Sized(c)
    ensures var d := SyncMirrors(c);
            && OldValues(d, cellular) == OldValues(c, cellular) && d.kaTrafficKB == c.kaTrafficKB
            && Sized(d) && Normal(d) == d && InRange(d) == InRange(c) && RequiresV7(d) == RequiresV7(c)
  {
    hide Identity, Mail, FirstArrays, Plain, LastArrays, InRange, RequiresV7, Ascii, Normal, Unread, SemanticallyValid;
    UnstoredAside(c, SyncMirrors(c).unstored, cellular);
    UnreadIsNormal(c);
  }

  lemma RefusedNeverStored(reader: Reader, cellular: bool)
    requires reader.Refused() && reader.plan == Layout(cellular, true)
    ensures forall x :: !Stored(x, cellular, reader.data)
  {
    hide Stored, Layout, Values, Parse;
    forall x ensures !Stored(x, cellular, reader.data) {
      if Stored(x, cellular, reader.data) { StoredParses(x, cellular, reader.data); assert false; }
    }
  }

  /** What has been read so far is the start of what any stored configuration writes. */
  lemma TakenOfStored(reader: Reader, c: Config, x: Config, cellular: bool)
    requires reader.Valid() && reader.plan == Layout(cellular, true) && reader.taken == OldValues(c, cellular)
    requires Sized(c) && Normal(c) == c && InRange(c) && (!cellular ==> !RequiresV7(c))
    requires Stored(x, cellular, reader.data)
    ensures c == x.(kaTrafficKB := c.kaTrafficKB)
  {
    hide Layout, SemanticallyValid, RequiresV7, WireAll, Parse, FitsAll, InRange, OldValues, Sized, Normal;
    StoredParses(x, cellular, reader.data);
    ValidInRange(x, false);
    GroupLengths(x, cellular);
    GroupLengths(c, cellular);
    var q := Parse(reader.plan[|reader.taken|..], reader.data[reader.cursor..]).value;
    assert Values(x, cellular, true) == reader.taken + q.0;
    SplitEqual(OldValues(x, cellular), Traffic(x, true), reader.taken, q.0);
    OldValuesUnique(c, x, cellular);
  }

  lemma TrafficAside(c: Config, x: Config)
    requires c == x.(kaTrafficKB := c.kaTrafficKB) && TrafficValid(c.kaTrafficKB)
    ensures SemanticallyValid(x, false) ==> SemanticallyValid(c, false)
  {
    hide Bounded, BoundedLines, HostnameValid, LocaleValid, TxPowerValid, TrafficValid;
  }

  lemma InvalidNeverStored(reader: Reader, c: Config, cellular: bool)
    requires reader.Valid() && reader.plan == Layout(cellular, true) && reader.taken == OldValues(c, cellular)
    requires Sized(c) && Normal(c) == c && InRange(c) && (!cellular ==> !RequiresV7(c))
    requires !SemanticallyValid(c, false) && c.kaTrafficKB == 1
    ensures forall x :: !Stored(x, cellular, reader.data)
  {
    hide Layout, SemanticallyValid, RequiresV7, Values, OldValues, InRange, Sized, Normal, Reader.Valid;
    forall x ensures !Stored(x, cellular, reader.data) {
      if Stored(x, cellular, reader.data) {
        TakenOfStored(reader, c, x, cellular);
        TrafficAside(c, x);
        assert false;
      }
    }
  }

  /** `decodeV6` and `decodeV7`: the fields of schema 5, then the traffic limit. */
  method DecodeWithTraffic(reader: Reader, cellular: bool) returns (ok: bool, c: Config)
    requires reader.Valid() && reader.taken == [] && reader.plan == Layout(cellular, true)
    modifies reader
    ensures ok ==>
      && reader.Valid() && reader.taken == Values(c, cellular, true)
      && Sized(c) && Normal(c) == c && (!cellular ==> !RequiresV7(c)) && SemanticallyValid(c, false)
    ensures !ok ==> forall x :: !Stored(x, cellular, reader.data)
  {
    hide Reader.Valid, Reader.Refused, At, Stored, SemanticallyValid, RequiresV7, Sized, InRange, OldValues, Layout,
      Normal, Values;
    ok, c := DecodeV5(reader, cellular);
    if !ok { return; }
    ghost var read := c;
    ok, c := DecodeTraffic(reader, cellular, c);
    if !ok {
      RefusedNeverStored(reader, cellular);
      return;
    }
    TrafficKept(read, c, cellular);
    if !SemanticallyValid(c, false) { assert false; }
  }

  lemma TrafficAhead(plan: seq<Kind>, c: Config, cellular: bool)
    requires plan == Layout(cellular, true) && Sized(c)
    ensures var n := |OldValues(c, cellular)|; |plan| == n + 1 && plan[n] == Between(1, 10000)
  {
    hide OldValues, Layout, ArrayKinds, PlainKinds, LastKinds;
    GroupLengths(c, cellular);
    LayoutSplit(plan, cellular);
    var n := |OldValues(c, cellular)|;
    assert plan[n..n + 1] == TrafficKinds(true);
    assert plan[n] == plan[n..n + 1][0];
  }

  method DecodeTraffic(reader: Reader, cellular: bool, c: Config) returns (ok: bool, r: Config)
    requires reader.Valid() && reader.plan == Layout(cellular, true) && reader.taken == OldValues(c, cellular)
    requires Sized(c)
    modifies reader
    ensures !ok ==> reader.Refused()
    ensures ok ==>
      && reader.Valid() && r == c.(kaTrafficKB := r.kaTrafficKB) && TrafficValid(r.kaTrafficKB)
      && reader.taken == Values(r, cellular, true)
  {
    hide Reader.Valid, Reader.Refused, Sized, OldValues, Layout;
    TrafficAhead(reader.plan, c, cellular);
    r := c;
    var kb;
    ok, kb := reader.Number(1, 10000);
    if !ok { return; }
    r := c.(kaTrafficKB := kb);
    TrafficGroups(c, r, cellular);
  }

  lemma TrafficKept(a: Config, b: Config, cellular: bool)
    requires b == a.(kaTrafficKB := b.kaTrafficKB) && TrafficValid(b.kaTrafficKB) && Sized(a)
    ensures OldValues(a, cellular) == OldValues(b, cellular) && Sized(b) && RequiresV7(a) == RequiresV7(b)
    ensures Normal(a) == a ==> Normal(b) == b
    ensures SemanticallyValid(a, false) ==> SemanticallyValid(b, false)
  {
    hide SemanticallyValid;
    TrafficAside(b, a);
    TrafficGroups(a, b, cellular);
    TrafficNormal(a, b);
  }

  lemma TrafficGroups(a: Config, b: Config, cellular: bool)
    requires b == a.(kaTrafficKB := b.kaTrafficKB)
    ensures OldValues(a, cellular) == OldValues(b, cellular)
  {
    hide Rows, Channels;
  }

  lemma TrafficNormal(a: Config, b: Config)
    requires b == a.(kaTrafficKB := b.kaTrafficKB) && a.webAccounts != []
    ensures Normal(a) == a ==> Normal(b) == b
  {
    hide Mirrored, Fresh, Normal;
    NormalIs(a);
    NormalIs(b);
  }

  /** A whole payload of schema 6 or 7: accepted exactly when it is what some configuration is stored as. */
  method DecodePayload(payload: seq<byte>, cellular: bool) returns (ok: bool, c: Config)
    ensures ok ==> Stored(c, cellular, payload)
    ensures !ok ==> forall x :: !Stored(x, cellular, payload)
  {
    hide Reader.Valid, SemanticallyValid, RequiresV7, Sized, Values, Layout, Normal;
    var reader := new Reader(payload, Layout(cellular, true));
    ok, c := DecodeWithTraffic(reader, cellular);
    if !ok { return; }
    EverythingTaken(reader, c, cellular);
    ok := reader.cursor == |payload|;
  }

  lemma EverythingTaken(reader: Reader, c: Config, cellular: bool)
    requires reader.Valid() && reader.plan == Layout(cellular, true) && reader.taken == Values(c, cellular, true)
    requires Sized(c)
    requires Normal(c) == c && SemanticallyValid(c, false) && (!cellular ==> !RequiresV7(c))
    ensures if reader.cursor == |reader.data| then Stored(c, cellular, reader.data)
            else forall x :: !Stored(x, cellular, reader.data)
  {
    hide SemanticallyValid, RequiresV7, Values, Layout, Normal, Sized;
    ValuesFillLayout(c, cellular);
    var rest := reader.data[reader.cursor..];
    assert reader.plan[|reader.taken|..] == [];
    assert Parse([], rest) == Some(([], rest));
    assert reader.taken + [] == reader.taken;
    AllReadAreWritten(reader.plan, reader.data);
    if reader.cursor == |reader.data| {
      assert WireAll(reader.taken) + [] == reader.data;
    } else {
      forall x ensures !Stored(x, cellular, reader.data) {
        if Stored(x, cellular, reader.data) { StoredParses(x, cellular, reader.data); assert false; }
      }
    }
  }

  lemma ValuesFillLayout(c: Config, cellular: bool)
    requires Sized(c)
    ensures |Values(c, cellular, true)| == |Layout(cellular, true)|
  {
    hide OldValues, OldLayout;
    GroupLengths(c, cellular);
    LayoutSplit(Layout(cellular, true), cellular);
  }
}
