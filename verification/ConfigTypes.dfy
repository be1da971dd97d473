/** The device configuration, and which configurations may be stored. */
module ConfigTypes {
  import opened Bytes

  type text = seq<byte>

  const WEB_ACCOUNTS := 10
  const PUSH_CHANNELS := 5
  const WIFI_NETWORKS := 5
  const SIM_CREDENTIALS := 5
  const SCHED_TASKS := 6

  const PUSH_TYPE_POST_JSON := 1
  const PUSH_TYPE_CUSTOM := 7
  const PUSH_TYPE_NTFY := 12
  const NETWORK_MODE_MIX := 2
  const MAX_INT := 0x7FFF_FFFF

  datatype Account = Account(username: text, password: text)

  datatype Wifi = Wifi(ssid: text, pass: text)

  datatype Sim = Sim(iccid: text, pin: text, puk: text, pinMax: byte, pukMax: byte, pinFailed: byte, pukFailed: byte)

  datatype Channel = Channel(enabled: bool, kind: byte, name: text, url: text, key1: text, key2: text,
                             titleTemplate: text, bodyTemplate: text, customBody: text,
                             cellularEnabled: bool, cellularUrl: text)

  datatype Task = Task(enabled: bool, name: text, profile: text, switchBack: bool, intervalDays: int,
                       action: byte, target: text, payload: text, lastRun: u32)

  /** Fields that are kept in memory only; the last four mirror others for callers of older firmware. */
  datatype Unstored = Unstored(
    wifiFromFallback: bool, hbHour: int, mdnsHost: text, hbEnabled: bool, webUser: text, webPass: text)

  datatype Config = Config(
    smtpPort: int, deviceName: text, hostname: text, notificationLocale: text,
    smtpServer: text, smtpUser: text, smtpPass: text, smtpSendTo: text, adminPhone: text, numberBlackList: text,
    webAccounts: seq<Account>, pushChannels: seq<Channel>, wifiNetworks: seq<Wifi>,
    networkMode: int, heartbeatEnable: bool, heartbeatInterval: int, txPower: byte,
    emailEnabled: bool, pushEnabled: bool, forwardRules: text,
    kaEnabled: bool, kaIntervalDays: int, kaAction: byte, kaTarget: text, kaUrl: text, kaProfile: text, kaLastTime: u32,
    tzOffsetMin: int, ntpServer: text, rebootEnabled: bool, rebootHour: int,
    smsHealthEnabled: bool, smsHealthHour: int, smsHealthNotify: bool,
    netLedEnabled: bool, callNotifyEnabled: bool, dataEnabled: bool, roamingEnabled: bool,
    apn: text, operatorPlmn: text, phoneNumber: text,
    simCredentials: seq<Sim>, schedTasks: seq<Task>, kaTrafficKB: int,
    unstored: Unstored)

  function Ascii(s: string): text { seq(|s|, i requires 0 <= i < |s| => s[i] as int % 0x100) }

  /** The arrays have the sizes that the firmware gives them. */
  predicate Sized(c: Config) {
    && |c.webAccounts| == WEB_ACCOUNTS && |c.pushChannels| == PUSH_CHANNELS && |c.wifiNetworks| == WIFI_NETWORKS
    && |c.simCredentials| == SIM_CREDENTIALS && |c.schedTasks| == SCHED_TASKS
  }

  // ----- which configurations may be stored -----

  predicate Tail(b: byte) { b / 0x40 == 2 }

  /** Well-formed UTF-8 from position `i` on. */
  predicate Utf8From(s: text, i: nat)
    requires i <= |s|
    decreases |s| - i
  {
    if i == |s| then true
    else if s[i] <= 0x7F then Utf8From(s, i + 1)
    else
      var extra := if s[i] / 0x20 == 6 then 1 else if s[i] / 0x10 == 14 then 2 else if s[i] / 8 == 30 then 3 else 0;
      && extra != 0 && (extra == 1 ==> s[i] > 0xC1)
      && i + extra < |s| && (forall j :: i < j <= i + extra ==> Tail(s[j]))
      && CodePointOk(s[i..i + extra + 1]) && Utf8From(s, i + extra + 1)
  }

  /** No overlong form, no surrogate, nothing above U+10FFFF. */
  predicate CodePointOk(s: text)
    requires 2 <= |s| <= 4
  {
    var n := |s| - 1;
    var lead := if n == 1 then s[0] % 0x20 else if n == 2 then s[0] % 0x10 else s[0] % 8;
    var two := (lead as int) * 0x40 + s[1] % 0x40;
    var point := if n == 1 then two
                 else if n == 2 then two * 0x40 + s[2] % 0x40
                 else (two * 0x40 + s[2] % 0x40) * 0x40 + s[3] % 0x40;
    (n == 2 ==> point >= 0x800) && (n == 3 ==> point >= 0x1_0000) && point <= 0x10_FFFF
    && !(0xD800 <= point <= 0xDFFF)
  }

  predicate NoNul(s: text) { 0 !in s }

  predicate NoControls(s: text) { forall b | b in s :: b >= 0x20 && b != 0x7F }

  predicate Bounded(s: text, max: nat) { |s| <= max && NoNul(s) && Utf8From(s, 0) && NoControls(s) }

  /** Line breaks and other controls allowed. */
  predicate BoundedLines(s: text, max: nat) { |s| <= max && NoNul(s) && Utf8From(s, 0) }

  predicate HostnameValid(s: text) {
    && 0 < |s| <= 32 && s[0] != '-' as int && s[|s| - 1] != '-' as int
    && forall b | b in s :: 'a' as int <= b <= 'z' as int || '0' as int <= b <= '9' as int || b == '-' as int
  }

  predicate WifiPasswordValid(s: text) {
    s == [] || (8 <= |s| <= 63 && forall b | b in s :: 0x20 <= b <= 0x7E)
  }

  predicate DigitsOnly(s: text, min: nat, max: nat) {
    min <= |s| <= max && forall b | b in s :: '0' as int <= b <= '9' as int
  }

  predicate TxPowerValid(n: int) { n in {8, 20, 28, 34, 44, 52, 56, 60, 66, 72, 80} }

  predicate TrafficValid(n: int) { 1 <= n <= 10000 }

  predicate NumbersValid(c: Config, portable: bool) {
    && 1 <= c.smtpPort <= 65535 && 0 <= c.networkMode <= NETWORK_MODE_MIX && 1 <= c.heartbeatInterval <= 240
    && (portable || TxPowerValid(c.txPower))
    && 1 <= c.kaIntervalDays <= 3650 && c.kaAction <= 3 && TrafficValid(c.kaTrafficKB)
    && -720 <= c.tzOffsetMin <= 840 && 0 <= c.rebootHour <= 23 && 0 <= c.smsHealthHour <= 23
  }

  predicate LocaleValid(s: text) { s in {Ascii("zh-TW"), Ascii("zh-CN"), Ascii("en")} }

  predicate TextsValid(c: Config, portable: bool) {
    && (portable || (c.deviceName != [] && Bounded(c.deviceName, 64) && HostnameValid(c.hostname)))
    && LocaleValid(c.notificationLocale) && Bounded(c.notificationLocale, 16)
    && Bounded(c.smtpServer, 253) && Bounded(c.smtpUser, 254) && Bounded(c.smtpPass, 256)
    && Bounded(c.smtpSendTo, 256) && Bounded(c.adminPhone, 64) && BoundedLines(c.numberBlackList, 1024)
    && BoundedLines(c.forwardRules, 2048) && Bounded(c.ntpServer, 128) && Bounded(c.apn, 96)
    && Bounded(c.operatorPlmn, 16) && (portable || Bounded(c.phoneNumber, 32))
  }

  predicate AccountValid(a: Account) { Bounded(a.username, 64) && Bounded(a.password, 96) }

  predicate ChannelValid(h: Channel) {
    && PUSH_TYPE_POST_JSON <= h.kind <= PUSH_TYPE_NTFY
    && Bounded(h.name, 64) && Bounded(h.url, 512) && Bounded(h.key1, 256) && Bounded(h.key2, 256)
    && Bounded(h.titleTemplate, 256) && BoundedLines(h.bodyTemplate, 2048) && BoundedLines(h.customBody, 2048)
    && Bounded(h.cellularUrl, 512)
    && 0x0D !in h.titleTemplate && 0x0A !in h.titleTemplate
    && (if h.kind == PUSH_TYPE_CUSTOM then h.titleTemplate == [] && h.bodyTemplate == [] else h.customBody == [])
  }

  predicate WifiValid(w: Wifi) {
    Bounded(w.ssid, 31) && WifiPasswordValid(w.pass) && (w.ssid == [] ==> w.pass == [])
  }

  predicate SimValid(m: Sim) {
    && (m.iccid == [] || DigitsOnly(m.iccid, 15, 22)) && (m.pin == [] || DigitsOnly(m.pin, 4, 8))
    && (m.puk == [] || DigitsOnly(m.puk, 8, 8))
    && 1 <= m.pinMax <= 2 && 1 <= m.pukMax <= 5 && m.pinFailed <= m.pinMax && m.pukFailed <= m.pukMax
  }

  predicate SimsDistinct(ms: seq<Sim>) {
    forall j, i :: 0 <= j < i < |ms| && ms[i].iccid != [] ==> ms[i].iccid != ms[j].iccid
  }

  predicate TaskValid(t: Task, portable: bool) {
    && Bounded(t.name, 32) && (portable || Bounded(t.profile, 64)) && Bounded(t.target, 128) && Bounded(t.payload, 128)
    && 1 <= t.intervalDays <= 3650 && t.action <= 3
  }

  predicate ArraysValid(c: Config, portable: bool) {
    && (portable || forall a | a in c.webAccounts :: AccountValid(a))
    && (forall h | h in c.pushChannels :: ChannelValid(h))
    && (forall w | w in c.wifiNetworks :: WifiValid(w))
    && (portable || ((forall m | m in c.simCredentials :: SimValid(m)) && SimsDistinct(c.simCredentials)))
    && (forall t | t in c.schedTasks :: TaskValid(t, portable))
  }

  /**
   * The check before a configuration is stored. It says nothing of the length of `kaTarget`, `kaUrl` and `kaProfile`.
   */
  predicate SemanticallyValid(c: Config, portable: bool) {
    NumbersValid(c, portable) && TextsValid(c, portable) && ArraysValid(c, portable)
  }

  /** The three fields that the check leaves out, within the limits of the decoder. */
  predicate KeepaliveBounded(c: Config) {
    && |c.kaTarget| <= 64 && NoNul(c.kaTarget) && |c.kaUrl| <= 256 && NoNul(c.kaUrl)
    && |c.kaProfile| <= 64 && NoNul(c.kaProfile)
  }

  predicate DefaultCellular(h: Channel) { h.cellularEnabled && h.cellularUrl == [] }

  predicate RequiresV7(c: Config) { exists h | h in c.pushChannels :: !DefaultCellular(h) }

  // ----- what is not stored -----

  const DEFAULT_WEB_USER: string := "admin"
  const DEFAULT_WEB_PASS: string := "admin123"

  function Mirrored(u: Unstored, hostname: text, beat: bool, a: Account): Unstored {
    u.(mdnsHost := hostname, hbEnabled := beat,
       webUser := if a.username != [] then a.username else u.webUser,
       webPass := if a.password != [] then a.password else u.webPass)
  }

  /** The fields for callers of older firmware follow the ones that are stored. */
  function SyncMirrors(c: Config): Config
    requires c.webAccounts != []
  {
    c.(unstored := Mirrored(c.unstored, c.hostname, c.heartbeatEnable, c.webAccounts[0]))
  }

  function Fresh(): Unstored {
    Unstored(false, 9, Ascii("sms"), true, Ascii(DEFAULT_WEB_USER), Ascii(DEFAULT_WEB_PASS))
  }

  /** A configuration as a decoder leaves it: everything that is not stored at its default. */
  function Normal(c: Config): Config
    requires c.webAccounts != []
  {
    SyncMirrors(c.(unstored := Fresh()))
  }

  /** The memory-only fields of a configuration that has just been decoded. */
  function Derived(c: Config): Unstored
    requires c.webAccounts != []
  {
    Mirrored(Fresh(), c.hostname, c.heartbeatEnable, c.webAccounts[0])
  }

  lemma NormalIs(c: Config)
    requires c.webAccounts != []
    ensures Normal(c) == c.(unstored := Derived(c)) && (Normal(c) == c <==> c.unstored == Derived(c))
  {
    hide Mirrored, Fresh;
    assert c.(unstored := c.unstored) == c;
  }

  lemma NormalIsStored(c: Config)
    requires c.webAccounts != []
    ensures Normal(Normal(c)) == Normal(c) && (Sized(c) <==> Sized(Normal(c)))
    ensures SemanticallyValid(Normal(c), false) == SemanticallyValid(c, false)
    ensures SemanticallyValid(Normal(c), true) == SemanticallyValid(c, true)
    ensures KeepaliveBounded(Normal(c)) == KeepaliveBounded(c) && RequiresV7(Normal(c)) == RequiresV7(c)
  {
    hide Bounded, BoundedLines, HostnameValid, TxPowerValid, TrafficValid, LocaleValid, Fresh;
  }
}
