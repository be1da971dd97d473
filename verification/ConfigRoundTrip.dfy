/**
 * Which configurations come back from storage as they went in. Every valid one does, if
 * and only if the three keep-alive texts are within the limits of the decoder.
 */
module ConfigRoundTrip {
  import opened Bytes
  import opened ConfigTypes
  import opened ConfigWire
  import opened ConfigCodec
  import opened ConfigSchema

  lemma FitsAppend(k1: seq<Kind>, v1: seq<Value>, k2: seq<Kind>, v2: seq<Value>)
    requires |k1| == |v1| && |k2| == |v2|
    ensures FitsAll(k1 + k2, v1 + v2) <==> FitsAll(k1, v1) && FitsAll(k2, v2)
  {
    hide Fits;
    if FitsAll(k1 + k2, v1 + v2) {
      forall i | 0 <= i < |k1| ensures Fits(k1[i], v1[i]) { assert Fits((k1 + k2)[i], (v1 + v2)[i]); }
      forall i | 0 <= i < |k2| ensures Fits(k2[i], v2[i]) { assert Fits((k1 + k2)[|k1| + i], (v1 + v2)[|k1| + i]); }
    }
    if FitsAll(k1, v1) && FitsAll(k2, v2) {
      forall i | 0 <= i < |k1 + k2| ensures Fits((k1 + k2)[i], (v1 + v2)[i]) {
        if i >= |k1| { assert Fits(k2[i - |k1|], v2[i - |k1|]); }
      }
    }
  }

  lemma {:induction false} RepeatSnoc(ks: seq<Kind>, n: nat)
    ensures Repeat(ks, n + 1) == Repeat(ks, n) + ks
  {
    if n > 0 {
      RepeatSnoc(ks, n - 1);
      assert ks + (Repeat(ks, n - 1) + ks) == Repeat(ks, n) + ks;
    } else {
      assert ks + [] == [] + ks;
    }
  }

  lemma {:induction false} RowsFit<A(!new)>(items: seq<A>, row: A -> seq<Value>, ks: seq<Kind>)
    requires forall x | x in items :: FitsAll(ks, row(x))
    requires forall x :: |row(x)| == |ks|
    ensures FitsAll(Repeat(ks, |items|), Rows(items, row))
  {
    hide FitsAll;
    if items == [] {
      NothingFits();
    } else {
      var n := |items| - 1;
      RowsFit(items[..n], row, ks);
      RepeatSnoc(ks, n);
      RowsLength(items[..n], row, |ks|);
      RepeatLength(ks, n);
      FitsAppend(Repeat(ks, n), Rows(items[..n], row), ks, row(items[n]));
    }
  }

  lemma NothingFits()
    ensures FitsAll([], [])
  {
  }

  // ----- group by group -----

  lemma HostnameHasNoNul(s: text)
    requires HostnameValid(s)
    ensures NoNul(s) && |s| <= 32
  {
  }

  lemma DigitsHaveNoNul(s: text, min: nat, max: nat)
    requires s == [] || DigitsOnly(s, min, max)
    ensures NoNul(s) && |s| <= max
  {
  }

  lemma IdentityFits(c: Config)
    requires NumbersValid(c, false) && TextsValid(c, false)
    ensures FitsAll(IdentityKinds(), Identity(c))
  {
    hide Utf8From, NoControls, HostnameValid, LocaleValid, TxPowerValid, TrafficValid;
    HostnameHasNoNul(c.hostname);
  }

  lemma MailFits(c: Config)
    requires TextsValid(c, false)
    ensures FitsAll(MailKinds(), Mail(c))
  {
    hide Utf8From, NoControls, HostnameValid, LocaleValid, NoNul;
  }

  lemma AccountsFit(items: seq<Account>)
    requires forall a | a in items :: AccountValid(a)
    ensures FitsAll(Repeat(AccountKinds(), |items|), Rows(items, AccountRow))
  {
    hide Utf8From, NoControls, NoNul, Repeat, Rows;
    RowsFit(items, AccountRow, AccountKinds());
  }

  lemma WifisFit(items: seq<Wifi>)
    requires forall w | w in items :: WifiValid(w)
    ensures FitsAll(Repeat(WifiKinds(), |items|), Rows(items, WifiRow))
  {
    hide Utf8From, NoControls, Repeat, Rows;
    RowsFit(items, WifiRow, WifiKinds());
  }

  lemma SimFits(m: Sim)
    requires SimValid(m)
    ensures FitsAll(SimKinds(), SimRow(m))
  {
    hide DigitsOnly, NoNul;
    DigitsHaveNoNul(m.iccid, 15, 22);
    DigitsHaveNoNul(m.pin, 4, 8);
    DigitsHaveNoNul(m.puk, 8, 8);
  }

  lemma SimsFit(items: seq<Sim>)
    requires forall m | m in items :: SimValid(m)
    ensures FitsAll(Repeat(SimKinds(), |items|), Rows(items, SimRow))
  {
    hide SimValid, Repeat, Rows, FitsAll;
    forall m | m in items ensures FitsAll(SimKinds(), SimRow(m)) { SimFits(m); }
    RowsFit(items, SimRow, SimKinds());
  }

  lemma TaskFits(t: Task)
    requires TaskValid(t, false)
    ensures FitsAll(TaskKinds(), TaskRow(t))
  {
    hide Utf8From, NoControls, NoNul;
    FitsAppend(TaskPlanKinds(), TaskPlan(t), TaskTextKinds(), TaskText(t));
  }

  lemma TasksFit(items: seq<Task>)
    requires forall t | t in items :: TaskValid(t, false)
    ensures FitsAll(Repeat(TaskKinds(), |items|), Rows(items, TaskRow))
  {
    hide TaskValid, Repeat, Rows, FitsAll, TaskKinds;
    KindsOfTask();
    forall t | t in items ensures FitsAll(TaskKinds(), TaskRow(t)) { TaskFits(t); }
    RowsFit(items, TaskRow, TaskKinds());
  }

  lemma ChannelFits(h: Channel, cellular: bool)
    requires ChannelValid(h)
    ensures FitsAll(ChannelKinds(cellular), ChannelRow(h, cellular))
  {
    hide Utf8From, NoControls, NoNul;
    FitsAppend(ChannelKeyKinds() + ChannelTextKinds(), ChannelKeys(h) + ChannelTexts(h),
      CellularKinds(cellular), Cellular(h, cellular));
    FitsAppend(ChannelKeyKinds(), ChannelKeys(h), ChannelTextKinds(), ChannelTexts(h));
  }

  lemma ChannelsFit(items: seq<Channel>, cellular: bool)
    requires forall h | h in items :: ChannelValid(h)
    ensures FitsAll(Repeat(ChannelKinds(cellular), |items|), Channels(items, cellular))
  {
    hide ChannelValid, Repeat, Rows, FitsAll, ChannelKinds, ChannelRow;
    KindsOfChannel(cellular);
    var row := ChannelRower(cellular);
    forall h | h in items ensures FitsAll(ChannelKinds(cellular), row(h)) { ChannelFits(h, cellular); }
    RowsFit(items, row, ChannelKinds(cellular));
  }

  lemma NetworkFits(c: Config)
    requires NumbersValid(c, false) && TextsValid(c, false)
    ensures FitsAll(NetworkKinds(), Network(c))
  {
    hide Utf8From, NoControls, HostnameValid, LocaleValid, NoNul, TxPowerValid, TrafficValid;
  }

  /** The keep-alive texts are the only fields that the check lets through and the decoder may not. */
  lemma KeepaliveFits(c: Config)
    requires NumbersValid(c, false)
    ensures FitsAll(KeepaliveKinds(), Keepalive(c)) <==> KeepaliveBounded(c)
  {
    hide NoNul, TxPowerValid, TrafficValid;
    var k, v := KeepaliveKinds(), Keepalive(c);
    if FitsAll(k, v) {
      assert Fits(k[3], v[3]) && Fits(k[4], v[4]) && Fits(k[5], v[5]);
    }
  }

  lemma ClockFits(c: Config)
    requires NumbersValid(c, false) && TextsValid(c, false)
    ensures FitsAll(ClockKinds(), Clock(c))
  {
    hide Utf8From, NoControls, HostnameValid, LocaleValid, NoNul, TxPowerValid, TrafficValid;
  }

  lemma ModemFits(c: Config)
    requires TextsValid(c, false)
    ensures FitsAll(ModemKinds(), Modem(c))
  {
    hide Utf8From, NoControls, HostnameValid, LocaleValid, NoNul;
  }

  lemma PlainFits(c: Config)
    requires NumbersValid(c, false) && TextsValid(c, false)
    ensures FitsAll(PlainKinds(), Plain(c)) <==> KeepaliveBounded(c)
  {
    hide NumbersValid, TextsValid, KeepaliveBounded, FitsAll, NetworkKinds, KeepaliveKinds, ClockKinds, ModemKinds,
      Network, Keepalive, Clock, Modem;
    FitsAppend(NetworkKinds() + KeepaliveKinds() + ClockKinds(), Network(c) + Keepalive(c) + Clock(c), ModemKinds(),
      Modem(c));
    FitsAppend(NetworkKinds() + KeepaliveKinds(), Network(c) + Keepalive(c), ClockKinds(), Clock(c));
    FitsAppend(NetworkKinds(), Network(c), KeepaliveKinds(), Keepalive(c));
    NetworkFits(c);
    KeepaliveFits(c);
    ClockFits(c);
    ModemFits(c);
  }

  lemma CountFits(n: byte)
    ensures FitsAll([Exactly(n)], [B(n)])
  {
  }

  lemma FirstArraysFit(c: Config, cellular: bool)
    requires Sized(c) && ArraysValid(c, false)
    ensures FitsAll(ArrayKinds(cellular), FirstArrays(c, cellular))
  {
    hide FitsAll, Repeat, Rows, Channels, AccountValid, ChannelValid, WifiValid, SimValid, TaskValid;
    ArrayLengths(c, cellular);
    ArrayKindLengths(cellular);
    var k1, k2, k3 := Repeat(AccountKinds(), 10), Repeat(ChannelKinds(cellular), 5), Repeat(WifiKinds(), 5);
    var v1, v2, v3 := Rows(c.webAccounts, AccountRow), Channels(c.pushChannels, cellular),
      Rows(c.wifiNetworks, WifiRow);
    FitsAppend([Exactly(10)] + k1 + [Exactly(5)] + k2 + [Exactly(5)], [B(10)] + v1 + [B(5)] + v2 + [B(5)], k3, v3);
    FitsAppend([Exactly(10)] + k1 + [Exactly(5)] + k2, [B(10)] + v1 + [B(5)] + v2, [Exactly(5)], [B(5)]);
    FitsAppend([Exactly(10)] + k1 + [Exactly(5)], [B(10)] + v1 + [B(5)], k2, v2);
    FitsAppend([Exactly(10)] + k1, [B(10)] + v1, [Exactly(5)], [B(5)]);
    FitsAppend([Exactly(10)], [B(10)], k1, v1);
    CountFits(10);
    CountFits(5);
    AccountsFit(c.webAccounts);
    ChannelsFit(c.pushChannels, cellular);
    WifisFit(c.wifiNetworks);
  }

  lemma LastArraysFit(c: Config)
    requires Sized(c) && ArraysValid(c, false)
    ensures FitsAll(LastKinds(), LastArrays(c))
  {
    hide FitsAll, Repeat, Rows, AccountValid, ChannelValid, WifiValid, SimValid, TaskValid;
    ArrayLengths(c, false);
    ArrayKindLengths(false);
    var k1, k2 := Repeat(SimKinds(), 5), Repeat(TaskKinds(), 6);
    var v1, v2 := Rows(c.simCredentials, SimRow), Rows(c.schedTasks, TaskRow);
    FitsAppend([Exactly(5)] + k1 + [Exactly(6)], [B(5)] + v1 + [B(6)], k2, v2);
    FitsAppend([Exactly(5)] + k1, [B(5)] + v1, [Exactly(6)], [B(6)]);
    FitsAppend([Exactly(5)], [B(5)], k1, v1);
    CountFits(5);
    CountFits(6);
    SimsFit(c.simCredentials);
    TasksFit(c.schedTasks);
  }

  lemma TrafficFits(c: Config)
    requires NumbersValid(c, false)
    ensures FitsAll(TrafficKinds(true), Traffic(c, true))
  {
    hide TxPowerValid;
  }

  /** What the encoder writes for a valid configuration is accepted exactly when the keep-alive texts are bounded. */
  lemma ValuesFit(c: Config, cellular: bool)
    requires Sized(c) && SemanticallyValid(c, false)
    ensures FitsAll(Layout(cellular, true), Values(c, cellular, true)) <==> KeepaliveBounded(c)
  {
    hide NumbersValid, TextsValid, ArraysValid, KeepaliveBounded, FitsAll, IdentityKinds, MailKinds, ArrayKinds,
      PlainKinds, LastKinds, TrafficKinds, Identity, Mail, FirstArrays, Plain, LastArrays, Traffic;
    LayoutSplit(Layout(cellular, true), cellular);
    KindLengths(cellular);
    GroupLengths(c, cellular);
    var k1, k2, k3, k4, k5 := IdentityKinds(), MailKinds(), ArrayKinds(cellular), PlainKinds(), LastKinds();
    var v1, v2, v3, v4, v5 := Identity(c), Mail(c), FirstArrays(c, cellular), Plain(c), LastArrays(c);
    FitsAppend(k1 + k2 + k3 + k4 + k5, v1 + v2 + v3 + v4 + v5, TrafficKinds(true), Traffic(c, true));
    FitsAppend(k1 + k2 + k3 + k4, v1 + v2 + v3 + v4, k5, v5);
    FitsAppend(k1 + k2 + k3, v1 + v2 + v3, k4, v4);
    FitsAppend(k1 + k2, v1 + v2, k3, v3);
    FitsAppend(k1, v1, k2, v2);
    IdentityFits(c);
    MailFits(c);
    FirstArraysFit(c, cellular);
    PlainFits(c);
    LastArraysFit(c);
    TrafficFits(c);
  }

  lemma KindLengths(cellular: bool)
    ensures |PlainKinds()| == 28 && |LastKinds()| == 91 && |TrafficKinds(true)| == 1
    ensures forall c: Config :: |Traffic(c, true)| == 1
  {
    hide Repeat;
    ArrayKindLengths(cellular);
  }

  // ----- how large it can get -----

  function MaxWire(k: Kind): nat {
    match k
    case Exactly(_) => 1
    case Flag => 1
    case Between(_, _) => 4
    case Power => 4
    case Chars(max) => 2 + max
  }

  function MaxAll(ks: seq<Kind>): nat { if ks == [] then 0 else MaxWire(ks[0]) + MaxAll(ks[1..]) }

  lemma {:induction false} SizeFits(ks: seq<Kind>, vs: seq<Value>)
    requires FitsAll(ks, vs)
    ensures |WireAll(vs)| <= MaxAll(ks)
  {
    hide FitsAll, Fits, Wire, MaxWire;
    SameCount(ks, vs);
    if ks != [] {
      FitsFirst(ks, vs);
      SizeFits(ks[1..], vs[1..]);
      OneFits(ks[0], vs[0]);
    }
  }

  lemma SameCount(ks: seq<Kind>, vs: seq<Value>)
    requires FitsAll(ks, vs)
    ensures |ks| == |vs|
  {
  }

  lemma OneFits(k: Kind, v: Value)
    requires Fits(k, v)
    ensures |Wire(v)| <= MaxWire(k)
  {
  }

  lemma {:induction false} MaxAppend(a: seq<Kind>, b: seq<Kind>)
    ensures MaxAll(a + b) == MaxAll(a) + MaxAll(b)
  {
    if a == [] {
      assert a + b == b;
    } else {
      MaxAppend(a[1..], b);
      assert (a + b)[1..] == a[1..] + b;
    }
  }

  lemma {:induction false} MaxRepeat(ks: seq<Kind>, n: nat)
    ensures MaxAll(Repeat(ks, n)) == n * MaxAll(ks)
  {
    if n > 0 {
      MaxRepeat(ks, n - 1);
      MaxAppend(ks, Repeat(ks, n - 1));
      assert n * MaxAll(ks) == (n - 1) * MaxAll(ks) + MaxAll(ks);
    }
  }

  lemma NetworkMaxima()
    ensures MaxAll(NetworkKinds()) == 2065
  {
  }

  lemma ClockMaximum()
    ensures MaxAll(ClockKinds()) == 145
  {
  }

  lemma ModemMaximum()
    ensures MaxAll(ModemKinds()) == 154
  {
  }

  lemma ArrayMaxima()
    ensures MaxAll(AccountKinds()) == 164 && MaxAll(WifiKinds()) == 98 && MaxAll(SimKinds()) == 60
  {
  }

  lemma TaskMaxima()
    ensures MaxAll(TaskPlanKinds()) == 110 && MaxAll(TaskTextKinds()) == 264
  {
  }

  lemma ChannelMaxima()
    ensures MaxAll(ChannelKeyKinds()) == 1101 && MaxAll(CellularKinds(true)) == 515 && MaxAll(CellularKinds(false)) == 0
    ensures MaxAll([Chars(0), Chars(0), Chars(2048)]) == 2054 && MaxAll([Chars(256), Chars(2048), Chars(0)]) == 2310
  {
  }

  lemma FirstMaxima()
    ensures MaxAll([IntKind(), Chars(64), Chars(32), Chars(5)]) == 111 && MaxAll(MailKinds()) == 2119
  {
  }

  lemma NoWire()
    ensures WireAll([]) == []
  {
  }

  lemma {:induction false} RowsSize<A(!new)>(items: seq<A>, row: A -> seq<Value>, w: nat)
    requires forall x | x in items :: |WireAll(row(x))| <= w
    ensures |WireAll(Rows(items, row))| <= |items| * w
  {
    hide WireAll;
    if items == [] {
      assert |WireAll([])| == 0 by { NoWire(); }
    } else {
      var n := |items| - 1;
      RowsSize(items[..n], row, w);
      WireAllAppend(Rows(items[..n], row), row(items[n]));
      OneMoreTimes(n, w);
    }
  }

  lemma OneMoreTimes(n: nat, w: nat)
    ensures (n + 1) * w == n * w + w
  {
  }

  lemma IdentitySize(c: Config)
    requires NumbersValid(c, false) && TextsValid(c, false)
    ensures |WireAll(Identity(c))| <= 111
  {
    hide Utf8From, NoControls, HostnameValid, LocaleValid, TxPowerValid, TrafficValid, WireAll, MaxAll;
    HostnameHasNoNul(c.hostname);
    LocaleIsShort(c.notificationLocale);
    var ks := [IntKind(), Chars(64), Chars(32), Chars(5)];
    assert FitsAll(ks, Identity(c));
    SizeFits(ks, Identity(c));
    FirstMaxima();
  }

  lemma LocaleIsShort(s: text)
    requires LocaleValid(s)
    ensures |s| <= 5
  {
    assert |Ascii("zh-TW")| == 5 && |Ascii("zh-CN")| == 5 && |Ascii("en")| == 2;
  }

  lemma ChannelSize(h: Channel, cellular: bool)
    requires ChannelValid(h)
    ensures |WireAll(ChannelRow(h, cellular))| <= 3926
  {
    hide Utf8From, NoControls, NoNul, WireAll, MaxAll, ChannelKeys, ChannelKeyKinds, Cellular, CellularKinds;
    WireAllAppend(ChannelKeys(h) + ChannelTexts(h), Cellular(h, cellular));
    WireAllAppend(ChannelKeys(h), ChannelTexts(h));
    ChannelMaxima();
    var custom := h.kind == PUSH_TYPE_CUSTOM;
    var ks := if custom then [Chars(0), Chars(0), Chars(2048)] else [Chars(256), Chars(2048), Chars(0)];
    NoTextNoNul();
    assert FitsAll(ks, ChannelTexts(h));
    SizeFits(ks, ChannelTexts(h));
    ChannelFits(h, cellular);
    FitsAppend(ChannelKeyKinds() + ChannelTextKinds(), ChannelKeys(h) + ChannelTexts(h), CellularKinds(cellular),
      Cellular(h, cellular));
    FitsAppend(ChannelKeyKinds(), ChannelKeys(h), ChannelTextKinds(), ChannelTexts(h));
    SizeFits(ChannelKeyKinds(), ChannelKeys(h));
    SizeFits(CellularKinds(cellular), Cellular(h, cellular));
  }

  lemma NoTextNoNul()
    ensures NoNul([])
  {
  }

  lemma FirstArraysSize(c: Config, cellular: bool)
    requires Sized(c) && ArraysValid(c, false)
    ensures |WireAll(FirstArrays(c, cellular))| <= 1641 + 19631 + 491
  {
    hide FitsAll, Repeat, Rows, AccountValid, ChannelValid, WifiValid, SimValid, TaskValid, WireAll, MaxAll, ChannelRow;
    var v1, v2, v3 := Rows(c.webAccounts, AccountRow), Channels(c.pushChannels, cellular),
      Rows(c.wifiNetworks, WifiRow);
    WireAllAppend([B(10)] + v1 + [B(5)] + v2 + [B(5)], v3);
    WireAllAppend([B(10)] + v1 + [B(5)] + v2, [B(5)]);
    WireAllAppend([B(10)] + v1 + [B(5)], v2);
    WireAllAppend([B(10)] + v1, [B(5)]);
    WireAllAppend([B(10)], v1);
    OneCount(10);
    OneCount(5);
    AccountsFit(c.webAccounts);
    SizeFits(Repeat(AccountKinds(), 10), v1);
    MaxRepeat(AccountKinds(), 10);
    WifisFit(c.wifiNetworks);
    SizeFits(Repeat(WifiKinds(), 5), v3);
    MaxRepeat(WifiKinds(), 5);
    ArrayMaxima();
    forall h | h in c.pushChannels ensures |WireAll(ChannelRower(cellular)(h))| <= 3926 { ChannelSize(h, cellular); }
    RowsSize(c.pushChannels, ChannelRower(cellular), 3926);
  }

  lemma OneCount(n: byte)
    ensures |WireAll([B(n)])| == 1
  {
    assert [B(n)][1..] == [];
  }

  lemma LastArraysSize(c: Config)
    requires Sized(c) && ArraysValid(c, false)
    ensures |WireAll(LastArrays(c))| <= 301 + 2245
  {
    hide FitsAll, Repeat, Rows, AccountValid, ChannelValid, WifiValid, SimValid, TaskValid, WireAll, MaxAll;
    var v1, v2 := Rows(c.simCredentials, SimRow), Rows(c.schedTasks, TaskRow);
    WireAllAppend([B(5)] + v1 + [B(6)], v2);
    WireAllAppend([B(5)] + v1, [B(6)]);
    WireAllAppend([B(5)], v1);
    OneCount(5);
    OneCount(6);
    SimsFit(c.simCredentials);
    SizeFits(Repeat(SimKinds(), 5), v1);
    MaxRepeat(SimKinds(), 5);
    TasksFit(c.schedTasks);
    SizeFits(Repeat(TaskKinds(), 6), v2);
    MaxRepeat(TaskKinds(), 6);
    MaxAppend(TaskPlanKinds(), TaskTextKinds());
    ArrayMaxima();
    TaskMaxima();
  }

  function KeepaliveBytes(c: Config): nat { |c.kaTarget| + |c.kaUrl| + |c.kaProfile| }

  lemma KeepaliveSize(c: Config)
    ensures |WireAll(Keepalive(c))| == 19 + KeepaliveBytes(c)
  {
    hide WireAll, Little;
    var vs := Keepalive(c);
    OneMoreWire(vs, 0);
    OneMoreWire(vs, 1);
    OneMoreWire(vs, 2);
    OneMoreWire(vs, 3);
    OneMoreWire(vs, 4);
    OneMoreWire(vs, 5);
    OneMoreWire(vs, 6);
    NoWire();
    assert vs[0..] == vs && vs[7..] == [];
  }

  lemma OneMoreWire(vs: seq<Value>, i: nat)
    requires i < |vs|
    ensures WireAll(vs[i..]) == Wire(vs[i]) + WireAll(vs[i + 1..])
  {
    assert vs[i..][1..] == vs[i + 1..];
  }

  lemma PlainSize(c: Config)
    requires NumbersValid(c, false) && TextsValid(c, false)
    ensures |WireAll(Plain(c))| <= 2383 + KeepaliveBytes(c)
  {
    hide NumbersValid, TextsValid, FitsAll, NetworkKinds, ClockKinds, ModemKinds, Network, Keepalive, Clock, Modem,
      WireAll, MaxAll, KeepaliveBytes;
    WireAllAppend(Network(c) + Keepalive(c) + Clock(c), Modem(c));
    WireAllAppend(Network(c) + Keepalive(c), Clock(c));
    WireAllAppend(Network(c), Keepalive(c));
    NetworkFits(c);
    SizeFits(NetworkKinds(), Network(c));
    KeepaliveSize(c);
    ClockFits(c);
    SizeFits(ClockKinds(), Clock(c));
    ModemFits(c);
    SizeFits(ModemKinds(), Modem(c));
    NetworkMaxima();
    ClockMaximum();
    ModemMaximum();
  }

  lemma MailSize(c: Config)
    requires TextsValid(c, false)
    ensures |WireAll(Mail(c))| <= 2119
  {
    hide TextsValid, FitsAll, MailKinds, Mail, WireAll, MaxAll;
    MailFits(c);
    SizeFits(MailKinds(), Mail(c));
    FirstMaxima();
  }

  lemma TrafficSize(c: Config)
    ensures |WireAll(Traffic(c, true))| == 4
  {
    assert Traffic(c, true)[1..] == [];
  }

  const CONFIG_WIRE_PAYLOAD_BYTES := 29311

  /** How large a valid configuration can get depends on the keep-alive texts. */
  lemma ValidFits(c: Config, cellular: bool)
    requires Sized(c) && SemanticallyValid(c, false)
    ensures |WireAll(Values(c, cellular, true))| < CONFIG_WIRE_PAYLOAD_BYTES - 384 + KeepaliveBytes(c)
  {
    hide NumbersValid, TextsValid, ArraysValid, Identity, Mail, FirstArrays, Plain, LastArrays, Traffic, WireAll,
      KeepaliveBytes;
    var v1, v2, v3, v4, v5 := Identity(c), Mail(c), FirstArrays(c, cellular), Plain(c), LastArrays(c);
    WireAllAppend(v1 + v2 + v3 + v4 + v5, Traffic(c, true));
    WireAllAppend(v1 + v2 + v3 + v4, v5);
    WireAllAppend(v1 + v2 + v3, v4);
    WireAllAppend(v1 + v2, v3);
    WireAllAppend(v1, v2);
    IdentitySize(c);
    MailSize(c);
    FirstArraysSize(c, cellular);
    PlainSize(c);
    LastArraysSize(c);
    TrafficSize(c);
  }

  /** Every configuration that can be stored and read back fits the payload size of the schema, with a byte to spare. */
  lemma StoredFits(c: Config, cellular: bool)
    requires Sized(c) && SemanticallyValid(c, false) && KeepaliveBounded(c)
    ensures |WireAll(Values(c, cellular, true))| < CONFIG_WIRE_PAYLOAD_BYTES
  {
    hide SemanticallyValid, WireAll, Values;
    ValidFits(c, cellular);
  }

  // ----- the round trip -----

  lemma ShapedAppend(k1: seq<Kind>, v1: seq<Value>, k2: seq<Kind>, v2: seq<Value>)
    requires Shaped(k1, v1) && Shaped(k2, v2)
    ensures Shaped(k1 + k2, v1 + v2)
  {
    hide Shape;
    forall i | 0 <= i < |k1 + k2| ensures Shape((k1 + k2)[i], (v1 + v2)[i]) {
      if i >= |k1| { assert Shape(k2[i - |k1|], v2[i - |k1|]); }
    }
  }

  lemma KeepaliveShaped(c: Config)
    ensures Shaped(KeepaliveKinds(), Keepalive(c))
  {
  }

  lemma PlainShaped(c: Config)
    requires NumbersValid(c, false) && TextsValid(c, false)
    ensures Shaped(PlainKinds(), Plain(c))
  {
    hide NumbersValid, TextsValid, Shaped, FitsAll, NetworkKinds, KeepaliveKinds, ClockKinds, ModemKinds,
      Network, Keepalive, Clock, Modem;
    NetworkFits(c);
    ClockFits(c);
    ModemFits(c);
    FitsPrefixed(NetworkKinds(), Network(c));
    FitsPrefixed(ClockKinds(), Clock(c));
    FitsPrefixed(ModemKinds(), Modem(c));
    KeepaliveShaped(c);
    ShapedAppend(NetworkKinds(), Network(c), KeepaliveKinds(), Keepalive(c));
    ShapedAppend(NetworkKinds() + KeepaliveKinds(), Network(c) + Keepalive(c), ClockKinds(), Clock(c));
    ShapedAppend(NetworkKinds() + KeepaliveKinds() + ClockKinds(), Network(c) + Keepalive(c) + Clock(c), ModemKinds(),
      Modem(c));
  }

  lemma ValuesShaped(c: Config, cellular: bool)
    requires Sized(c) && SemanticallyValid(c, false)
    ensures Shaped(Layout(cellular, true), Values(c, cellular, true))
  {
    hide NumbersValid, TextsValid, ArraysValid, Shaped, FitsAll, IdentityKinds, MailKinds, ArrayKinds, PlainKinds,
      LastKinds, TrafficKinds, Identity, Mail, FirstArrays, Plain, LastArrays, Traffic;
    var k1, k2, k3, k4, k5 := IdentityKinds(), MailKinds(), ArrayKinds(cellular), PlainKinds(), LastKinds();
    var v1, v2, v3, v4, v5 := Identity(c), Mail(c), FirstArrays(c, cellular), Plain(c), LastArrays(c);
    IdentityFits(c);
    MailFits(c);
    FirstArraysFit(c, cellular);
    LastArraysFit(c);
    TrafficFits(c);
    FitsPrefixed(k1, v1);
    FitsPrefixed(k2, v2);
    FitsPrefixed(k3, v3);
    PlainShaped(c);
    FitsPrefixed(k5, v5);
    FitsPrefixed(TrafficKinds(true), Traffic(c, true));
    ShapedAppend(k1, v1, k2, v2);
    ShapedAppend(k1 + k2, v1 + v2, k3, v3);
    ShapedAppend(k1 + k2 + k3, v1 + v2 + v3, k4, v4);
    ShapedAppend(k1 + k2 + k3 + k4, v1 + v2 + v3 + v4, k5, v5);
    ShapedAppend(k1 + k2 + k3 + k4 + k5, v1 + v2 + v3 + v4 + v5, TrafficKinds(true), Traffic(c, true));
  }

  lemma {:induction false} ShortIsPrefixed(vs: seq<Value>)
    requires |WireAll(vs)| <= 0xFFFF
    ensures forall v | v in vs :: Prefixed(v)
  {
    if vs != [] {
      ShortIsPrefixed(vs[1..]);
      forall v | v in vs ensures Prefixed(v) {
        if v != vs[0] { assert v in vs[1..]; }
      }
    }
  }

  lemma NormalValues(c: Config, cellular: bool)
    requires c.webAccounts != []
    ensures Values(Normal(c), cellular, true) == Values(c, cellular, true)
  {
    hide Identity, Mail, FirstArrays, Plain, LastArrays, Normal, Derived;
    NormalIs(c);
    UnstoredAside(c, Derived(c), cellular);
    assert Traffic(c.(unstored := Derived(c)), true) == Traffic(c, true);
  }

  /**
   * A valid configuration that has been written is read back, with everything that is not
   * stored at its default, if and only if its keep-alive texts are bounded; otherwise the
   * decoder refuses what the encoder has written.
   */
  lemma ReadBack(c: Config, cellular: bool)
    requires Sized(c) && SemanticallyValid(c, false) && (!cellular ==> !RequiresV7(c))
    requires |WireAll(Values(c, cellular, true))| <= 0xFFFF
    ensures var payload := WireAll(Values(c, cellular, true));
            && (KeepaliveBounded(c) <==> Stored(Normal(c), cellular, payload))
            && (forall x :: Stored(x, cellular, payload) ==> x == Normal(c))
  {
    hide SemanticallyValid, RequiresV7, Layout, Values, KeepaliveBounded, FitsAll, Shaped, WireAll, Parse, Normal,
      Sized, Prefixed;
    var ks, vs := Layout(cellular, true), Values(c, cellular, true);
    ValuesFit(c, cellular);
    NormalStays(c);
    NormalWrites(c, cellular);
    forall x | Stored(x, cellular, WireAll(vs)) ensures KeepaliveBounded(c) && x == Normal(c) {
      StoredParses(x, cellular, WireAll(vs));
      ValuesShaped(c, cellular);
      ShortIsPrefixed(vs);
      AllWrittenAreRead(ks, vs, []);
      assert WireAll(vs) + [] == WireAll(vs);
      StoredUnique(x, Normal(c), cellular, WireAll(vs));
    }
  }

  lemma NormalStays(c: Config)
    requires Sized(c)
    ensures c.webAccounts != [] && Normal(Normal(c)) == Normal(c) && Sized(Normal(c))
    ensures SemanticallyValid(Normal(c), false) == SemanticallyValid(c, false) && RequiresV7(Normal(c)) == RequiresV7(c)
  {
    hide SemanticallyValid, RequiresV7, KeepaliveBounded, Normal;
    NormalIsStored(c);
  }

  lemma NormalWrites(c: Config, cellular: bool)
    requires Sized(c)
    ensures Values(Normal(c), cellular, true) == Values(c, cellular, true)
  {
    hide Values, Normal;
    NormalValues(c, cellular);
  }

  /** What schema 6 holds for a configuration that needs schema 7 is some other configuration. */
  lemma SchemaSixLoses(c: Config, x: Config)
    requires Sized(c) && SemanticallyValid(c, false) && Stored(x, false, WireAll(Values(c, false, true)))
    requires |WireAll(Values(c, false, true))| <= 0xFFFF
    ensures x == Normal(c) <==> !RequiresV7(c)
  {
    hide SemanticallyValid, Layout, Values, FitsAll, WireAll, Normal, Sized;
    NormalStays(c);
    if !RequiresV7(c) { ReadBack(c, false); }
  }

  /** Writing again what has been read gives the same payload. */
  lemma Rewritten(c: Config, cellular: bool, payload: seq<byte>)
    requires Stored(c, cellular, payload)
    ensures payload == WireAll(Values(c, cellular, true)) && KeepaliveBounded(c)
  {
    hide SemanticallyValid, RequiresV7, Layout, Values, KeepaliveBounded, FitsAll, WireAll, Normal;
    ValuesFit(c, cellular);
  }
}
