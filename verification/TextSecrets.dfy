/** What a redacted export tells of a configuration, field by field. */
module TextSecrets {
  import opened ConfigTypes
  import opened Decimals
  import opened TextFields
  import opened ConfigText
  import opened TextImport
  import opened TextDevice

  // ----- an export can be read in only one way -----

  lemma OneLine(a: text, more: text, b: text, rest: text)
    requires NEWLINE !in a && NEWLINE !in b && a + [NEWLINE] + more == b + [NEWLINE] + rest
    ensures a == b && more == rest
  {
    FirstOfIs(a, NEWLINE, more);
    FirstOfIs(b, NEWLINE, rest);
    var s := a + [NEWLINE] + more;
    assert a == s[..|a|] && b == s[..|b|] && more == s[|a| + 1..] && rest == s[|b| + 1..];
  }

  lemma SameKey(key: text, x: text, y: text)
    requires key + [EQUALS] + x == key + [EQUALS] + y
    ensures x == y
  {
    assert x == (key + [EQUALS] + x)[|key| + 1..] && y == (key + [EQUALS] + y)[|key| + 1..];
  }

  lemma {:induction false} LinesTell(fs: seq<Field>, a: Settings, b: Settings, full: bool)
    requires AllFit(a) && AllFit(b) && (forall f | f in fs :: FieldOk(f)) && Lines(fs, a, full) == Lines(fs, b, full)
    ensures forall f | f in fs :: Shown(f, a[f], full) == Shown(f, b[f], full)
  {
    hide Shown, KeyOf, Escaped, Unescaped, Ascii, KindOf, Fits;
    if fs != [] {
      var f := fs[0];
      var x, y := Shown(f, a[f], full), Shown(f, b[f], full);
      var key := Ascii(KeyOf(f));
      KeyIsClean(f);
      CleanKeyBytes(KeyOf(f));
      EscapedBack(x);
      EscapedBack(y);
      OneLine(key + [EQUALS] + Escaped(x), Lines(fs[1..], a, full), key + [EQUALS] + Escaped(y),
        Lines(fs[1..], b, full));
      SameKey(key, Escaped(x), Escaped(y));
      LinesTell(fs[1..], a, b, full);
      assert fs == [f] + fs[1..];
    }
  }

  lemma {:induction false} SameLines(fs: seq<Field>, a: Settings, b: Settings, full: bool)
    requires AllFit(a) && AllFit(b) && forall f | f in fs :: FieldOk(f)
    requires forall f | f in fs :: Shown(f, a[f], full) == Shown(f, b[f], full)
    ensures Lines(fs, a, full) == Lines(fs, b, full)
  {
    hide Shown, KeyOf, Escaped, Ascii, KindOf, Fits;
    if fs != [] { SameLines(fs[1..], a, b, full); }
  }

  lemma ShownTells(f: Field, v: Value, w: Value)
    requires Fits(f, v) && Fits(f, w)
    ensures Shown(f, v, false) == Shown(f, w, false) <==> AlikeButSecret(f, v, w)
  {
    hide PrintedInt, ParseInt, ParseWord, KindOf, Ascii;
    if v.T? {
      DefaultsAreNotEmpty(0);
    } else {
      ShownBack(f, v, false);
      ShownBack(f, w, false);
      assert Accepted(f, Shown(f, v, false), v) == v && Accepted(f, Shown(f, w, false), v) == w;
    }
  }

  // ----- the fields -----

  /** Of a secret only whether there is one. */
  predicate BothOrNone(x: text, y: text) { x == [] <==> y == [] }

  predicate MailAlike(c: Config, d: Config) {
    && c.txPower == d.txPower && c.smtpServer == d.smtpServer && c.smtpPort == d.smtpPort && c.smtpUser == d.smtpUser
    && c.smtpSendTo == d.smtpSendTo && c.adminPhone == d.adminPhone && c.numberBlackList == d.numberBlackList
    && c.forwardRules == d.forwardRules && c.unstored.webUser == d.unstored.webUser
    && BothOrNone(c.smtpPass, d.smtpPass) && BothOrNone(c.unstored.webPass, d.unstored.webPass)
  }

  predicate ClockAlike(c: Config, d: Config) {
    && c.emailEnabled == d.emailEnabled && c.pushEnabled == d.pushEnabled && c.tzOffsetMin == d.tzOffsetMin
    && c.ntpServer == d.ntpServer && c.unstored.mdnsHost == d.unstored.mdnsHost && c.rebootEnabled == d.rebootEnabled
    && c.rebootHour == d.rebootHour && c.unstored.hbEnabled == d.unstored.hbEnabled
    && c.unstored.hbHour == d.unstored.hbHour && c.smsHealthEnabled == d.smsHealthEnabled
    && c.smsHealthHour == d.smsHealthHour && c.smsHealthNotify == d.smsHealthNotify
  }

  predicate KeepaliveAlike(c: Config, d: Config) {
    && c.kaEnabled == d.kaEnabled && c.kaIntervalDays == d.kaIntervalDays && c.kaAction == d.kaAction
    && c.kaTarget == d.kaTarget && c.kaUrl == d.kaUrl && c.kaProfile == d.kaProfile && c.kaLastTime == d.kaLastTime
    && c.kaTrafficKB == d.kaTrafficKB
  }

  predicate ModemAlike(c: Config, d: Config) {
    && c.netLedEnabled == d.netLedEnabled && c.callNotifyEnabled == d.callNotifyEnabled
    && c.dataEnabled == d.dataEnabled && c.roamingEnabled == d.roamingEnabled && c.apn == d.apn
    && c.operatorPlmn == d.operatorPlmn && c.phoneNumber == d.phoneNumber
  }

  predicate WifiAlike(x: Wifi, y: Wifi) { x.ssid == y.ssid && BothOrNone(x.pass, y.pass) }

  predicate SimAlike(x: Sim, y: Sim) {
    && x.iccid == y.iccid && x.pinMax == y.pinMax && x.pukMax == y.pukMax && x.pinFailed == y.pinFailed
    && x.pukFailed == y.pukFailed && BothOrNone(x.pin, y.pin) && BothOrNone(x.puk, y.puk)
  }

  predicate PushAlike(x: Channel, y: Channel) {
    && x.enabled == y.enabled && x.kind == y.kind && x.name == y.name && x.cellularEnabled == y.cellularEnabled
    && BothOrNone(x.url, y.url) && BothOrNone(x.key1, y.key1) && BothOrNone(x.key2, y.key2)
    && BothOrNone(x.customBody, y.customBody) && BothOrNone(x.cellularUrl, y.cellularUrl)
  }

  predicate RowsAlike(c: Config, d: Config)
    requires Sized(c) && Sized(d)
  {
    && (forall i | 0 <= i < WIFI_NETWORKS :: WifiAlike(c.wifiNetworks[i], d.wifiNetworks[i]))
    && (forall i | 0 <= i < SIM_CREDENTIALS :: SimAlike(c.simCredentials[i], d.simCredentials[i]))
    && (forall i | 0 <= i < PUSH_CHANNELS :: PushAlike(c.pushChannels[i], d.pushChannels[i]))
    && (forall i | 0 <= i < SCHED_TASKS :: c.schedTasks[i] == d.schedTasks[i])
  }

  /** The same in everything that is exported, and of every secret in whether there is one. */
  predicate Alike(c: Config, d: Config)
    requires Sized(c) && Sized(d)
  {
    MailAlike(c, d) && ClockAlike(c, d) && KeepaliveAlike(c, d) && ModemAlike(c, d) && RowsAlike(c, d)
  }

  lemma MailMeans(c: Config, d: Config)
    ensures MailAlike(c, d) <==> forall p: MailPart :: AlikeButSecret(MailField(p), MailValue(c, p), MailValue(d, p))
  {
    if forall p: MailPart :: AlikeButSecret(MailField(p), MailValue(c, p), MailValue(d, p)) {
      assert AlikeButSecret(MailField(TxPower), MailValue(c, TxPower), MailValue(d, TxPower));
      assert AlikeButSecret(MailField(SmtpServer), MailValue(c, SmtpServer), MailValue(d, SmtpServer));
      assert AlikeButSecret(MailField(SmtpPort), MailValue(c, SmtpPort), MailValue(d, SmtpPort));
      assert AlikeButSecret(MailField(SmtpUser), MailValue(c, SmtpUser), MailValue(d, SmtpUser));
      assert AlikeButSecret(MailField(SmtpPass), MailValue(c, SmtpPass), MailValue(d, SmtpPass));
      assert AlikeButSecret(MailField(SmtpSendTo), MailValue(c, SmtpSendTo), MailValue(d, SmtpSendTo));
      assert AlikeButSecret(MailField(AdminPhone), MailValue(c, AdminPhone), MailValue(d, AdminPhone));
      assert AlikeButSecret(MailField(WebUser), MailValue(c, WebUser), MailValue(d, WebUser));
      assert AlikeButSecret(MailField(WebPass), MailValue(c, WebPass), MailValue(d, WebPass));
      assert AlikeButSecret(MailField(BlackList), MailValue(c, BlackList), MailValue(d, BlackList));
      assert AlikeButSecret(MailField(ForwardRules), MailValue(c, ForwardRules), MailValue(d, ForwardRules));
    }
  }

  lemma ClockMeans(c: Config, d: Config)
    ensures ClockAlike(c, d) <==>
      forall p: ClockPart :: AlikeButSecret(ClockField(p), ClockValue(c, p), ClockValue(d, p))
  {
    if forall p: ClockPart :: AlikeButSecret(ClockField(p), ClockValue(c, p), ClockValue(d, p)) {
      assert AlikeButSecret(ClockField(EmailEnabled), ClockValue(c, EmailEnabled), ClockValue(d, EmailEnabled));
      assert AlikeButSecret(ClockField(PushEnabled), ClockValue(c, PushEnabled), ClockValue(d, PushEnabled));
      assert AlikeButSecret(ClockField(TzOffset), ClockValue(c, TzOffset), ClockValue(d, TzOffset));
      assert AlikeButSecret(ClockField(NtpServer), ClockValue(c, NtpServer), ClockValue(d, NtpServer));
      assert AlikeButSecret(ClockField(MdnsHost), ClockValue(c, MdnsHost), ClockValue(d, MdnsHost));
      assert AlikeButSecret(ClockField(RebootEnabled), ClockValue(c, RebootEnabled), ClockValue(d, RebootEnabled));
      assert AlikeButSecret(ClockField(RebootHour), ClockValue(c, RebootHour), ClockValue(d, RebootHour));
      assert AlikeButSecret(ClockField(HbEnabled), ClockValue(c, HbEnabled), ClockValue(d, HbEnabled));
      assert AlikeButSecret(ClockField(HbHour), ClockValue(c, HbHour), ClockValue(d, HbHour));
      assert AlikeButSecret(ClockField(HealthEnabled), ClockValue(c, HealthEnabled), ClockValue(d, HealthEnabled));
      assert AlikeButSecret(ClockField(HealthHour), ClockValue(c, HealthHour), ClockValue(d, HealthHour));
      assert AlikeButSecret(ClockField(HealthNotify), ClockValue(c, HealthNotify), ClockValue(d, HealthNotify));
    }
  }

  lemma KeepaliveMeans(c: Config, d: Config)
    ensures KeepaliveAlike(c, d) <==>
      forall p: KeepalivePart :: AlikeButSecret(KeepaliveField(p), KeepaliveValue(c, p), KeepaliveValue(d, p))
  {
    if forall p: KeepalivePart :: AlikeButSecret(KeepaliveField(p), KeepaliveValue(c, p), KeepaliveValue(d, p)) {
      assert AlikeButSecret(KeepaliveField(KaEnabled), KeepaliveValue(c, KaEnabled), KeepaliveValue(d, KaEnabled));
      assert AlikeButSecret(KeepaliveField(KaInterval), KeepaliveValue(c, KaInterval), KeepaliveValue(d, KaInterval));
      assert AlikeButSecret(KeepaliveField(KaAction), KeepaliveValue(c, KaAction), KeepaliveValue(d, KaAction));
      assert AlikeButSecret(KeepaliveField(KaTarget), KeepaliveValue(c, KaTarget), KeepaliveValue(d, KaTarget));
      assert AlikeButSecret(KeepaliveField(KaUrl), KeepaliveValue(c, KaUrl), KeepaliveValue(d, KaUrl));
      assert AlikeButSecret(KeepaliveField(KaProfile), KeepaliveValue(c, KaProfile), KeepaliveValue(d, KaProfile));
      assert AlikeButSecret(KeepaliveField(KaLast), KeepaliveValue(c, KaLast), KeepaliveValue(d, KaLast));
      assert AlikeButSecret(KeepaliveField(KaTraffic), KeepaliveValue(c, KaTraffic), KeepaliveValue(d, KaTraffic));
    }
  }

  lemma ModemMeans(c: Config, d: Config)
    ensures ModemAlike(c, d) <==>
      forall p: ModemPart :: AlikeButSecret(ModemField(p), ModemValue(c, p), ModemValue(d, p))
  {
    if forall p: ModemPart :: AlikeButSecret(ModemField(p), ModemValue(c, p), ModemValue(d, p)) {
      assert AlikeButSecret(ModemField(NetLed), ModemValue(c, NetLed), ModemValue(d, NetLed));
      assert AlikeButSecret(ModemField(CallNotify), ModemValue(c, CallNotify), ModemValue(d, CallNotify));
      assert AlikeButSecret(ModemField(DataEnabled), ModemValue(c, DataEnabled), ModemValue(d, DataEnabled));
      assert AlikeButSecret(ModemField(Roaming), ModemValue(c, Roaming), ModemValue(d, Roaming));
      assert AlikeButSecret(ModemField(Apn), ModemValue(c, Apn), ModemValue(d, Apn));
      assert AlikeButSecret(ModemField(Plmn), ModemValue(c, Plmn), ModemValue(d, Plmn));
      assert AlikeButSecret(ModemField(Phone), ModemValue(c, Phone), ModemValue(d, Phone));
    }
  }

  lemma SimMeans(x: Sim, y: Sim, i: nat)
    ensures SimAlike(x, y) <==> forall p: SimPart :: AlikeButSecret(SimField(i, p), SimValue(x, p), SimValue(y, p))
  {
    if forall p: SimPart :: AlikeButSecret(SimField(i, p), SimValue(x, p), SimValue(y, p)) {
      assert AlikeButSecret(SimField(i, Iccid), SimValue(x, Iccid), SimValue(y, Iccid));
      assert AlikeButSecret(SimField(i, Pin), SimValue(x, Pin), SimValue(y, Pin));
      assert AlikeButSecret(SimField(i, Puk), SimValue(x, Puk), SimValue(y, Puk));
      assert AlikeButSecret(SimField(i, PinMax), SimValue(x, PinMax), SimValue(y, PinMax));
      assert AlikeButSecret(SimField(i, PukMax), SimValue(x, PukMax), SimValue(y, PukMax));
      assert AlikeButSecret(SimField(i, PinFail), SimValue(x, PinFail), SimValue(y, PinFail));
      assert AlikeButSecret(SimField(i, PukFail), SimValue(x, PukFail), SimValue(y, PukFail));
    }
  }

  lemma PushMeans(x: Channel, y: Channel, i: nat)
    ensures PushAlike(x, y) <==> forall p: PushPart :: AlikeButSecret(PushField(i, p), PushValue(x, p), PushValue(y, p))
  {
    if forall p: PushPart :: AlikeButSecret(PushField(i, p), PushValue(x, p), PushValue(y, p)) {
      assert AlikeButSecret(PushField(i, Enabled), PushValue(x, Enabled), PushValue(y, Enabled));
      assert AlikeButSecret(PushField(i, ChannelKind), PushValue(x, ChannelKind), PushValue(y, ChannelKind));
      assert AlikeButSecret(PushField(i, Url), PushValue(x, Url), PushValue(y, Url));
      assert AlikeButSecret(PushField(i, Name), PushValue(x, Name), PushValue(y, Name));
      assert AlikeButSecret(PushField(i, Key1), PushValue(x, Key1), PushValue(y, Key1));
      assert AlikeButSecret(PushField(i, Key2), PushValue(x, Key2), PushValue(y, Key2));
      assert AlikeButSecret(PushField(i, Body), PushValue(x, Body), PushValue(y, Body));
      assert AlikeButSecret(PushField(i, CellularEnabled), PushValue(x, CellularEnabled),
        PushValue(y, CellularEnabled));
      assert AlikeButSecret(PushField(i, CellularUrl), PushValue(x, CellularUrl), PushValue(y, CellularUrl));
    }
  }

  lemma TaskMeans(x: Task, y: Task, i: nat)
    ensures x == y <==> forall p: TaskPart :: AlikeButSecret(TaskField(i, p), TaskValue(x, p), TaskValue(y, p))
  {
    if forall p: TaskPart :: AlikeButSecret(TaskField(i, p), TaskValue(x, p), TaskValue(y, p)) {
      assert AlikeButSecret(TaskField(i, Enable), TaskValue(x, Enable), TaskValue(y, Enable));
      assert AlikeButSecret(TaskField(i, TaskName), TaskValue(x, TaskName), TaskValue(y, TaskName));
      assert AlikeButSecret(TaskField(i, Profile), TaskValue(x, Profile), TaskValue(y, Profile));
      assert AlikeButSecret(TaskField(i, Back), TaskValue(x, Back), TaskValue(y, Back));
      assert AlikeButSecret(TaskField(i, Days), TaskValue(x, Days), TaskValue(y, Days));
      assert AlikeButSecret(TaskField(i, Act), TaskValue(x, Act), TaskValue(y, Act));
      assert AlikeButSecret(TaskField(i, Target), TaskValue(x, Target), TaskValue(y, Target));
      assert AlikeButSecret(TaskField(i, Payload), TaskValue(x, Payload), TaskValue(y, Payload));
      assert AlikeButSecret(TaskField(i, LastRun), TaskValue(x, LastRun), TaskValue(y, LastRun));
    }
  }

  lemma WifiMeans(x: Wifi, y: Wifi, i: nat)
    ensures WifiAlike(x, y) <==>
      AlikeButSecret(WifiSsid(i), T(x.ssid), T(y.ssid)) && AlikeButSecret(WifiPass(i), T(x.pass), T(y.pass))
  {
  }

  predicate AlikeAt(c: Config, d: Config, f: Field)
    requires Sized(c) && Sized(d) && FieldOk(f)
  {
    AlikeButSecret(f, FieldValue(c, f), FieldValue(d, f))
  }

  lemma AlikeThere(c: Config, d: Config, f: Field)
    requires Sized(c) && Sized(d) && Alike(c, d) && FieldOk(f)
    ensures AlikeAt(c, d, f)
  {
    hide AlikeButSecret, MailAlike, ClockAlike, KeepaliveAlike, ModemAlike, WifiAlike, SimAlike, PushAlike, MailValue,
      ClockValue, KeepaliveValue, ModemValue, SimValue, PushValue, TaskValue;
    match f
    case WifiSsid(i) => WifiMeans(c.wifiNetworks[i], d.wifiNetworks[i], i);
    case WifiPass(i) => WifiMeans(c.wifiNetworks[i], d.wifiNetworks[i], i);
    case MailField(p) => MailMeans(c, d);
    case ClockField(p) => ClockMeans(c, d);
    case KeepaliveField(p) => KeepaliveMeans(c, d);
    case ModemField(p) => ModemMeans(c, d);
    case SimField(i, p) => SimMeans(c.simCredentials[i], d.simCredentials[i], i);
    case PushField(i, p) => PushMeans(c.pushChannels[i], d.pushChannels[i], i);
    case TaskField(i, p) => TaskMeans(c.schedTasks[i], d.schedTasks[i], i);
  }

  lemma AlikeFrom(c: Config, d: Config)
    requires Sized(c) && Sized(d) && forall f | FieldOk(f) :: AlikeAt(c, d, f)
    ensures Alike(c, d)
  {
    hide AlikeButSecret, MailAlike, ClockAlike, KeepaliveAlike, ModemAlike, WifiAlike, SimAlike, PushAlike, MailValue,
      ClockValue, KeepaliveValue, ModemValue, SimValue, PushValue, TaskValue, Sized;
    forall p: MailPart ensures AlikeButSecret(MailField(p), MailValue(c, p), MailValue(d, p)) {
      assert AlikeAt(c, d, MailField(p));
    }
    MailMeans(c, d);
    forall p: ClockPart ensures AlikeButSecret(ClockField(p), ClockValue(c, p), ClockValue(d, p)) {
      assert AlikeAt(c, d, ClockField(p));
    }
    ClockMeans(c, d);
    forall p: KeepalivePart ensures AlikeButSecret(KeepaliveField(p), KeepaliveValue(c, p), KeepaliveValue(d, p)) {
      assert AlikeAt(c, d, KeepaliveField(p));
    }
    KeepaliveMeans(c, d);
    forall p: ModemPart ensures AlikeButSecret(ModemField(p), ModemValue(c, p), ModemValue(d, p)) {
      assert AlikeAt(c, d, ModemField(p));
    }
    ModemMeans(c, d);
    RowsFrom(c, d);
  }

  lemma RowsFrom(c: Config, d: Config)
    requires Sized(c) && Sized(d) && forall f | FieldOk(f) :: AlikeAt(c, d, f)
    ensures RowsAlike(c, d)
  {
    hide AlikeButSecret, WifiAlike, SimAlike, PushAlike, SimValue, PushValue, TaskValue;
    forall i | 0 <= i < WIFI_NETWORKS ensures WifiAlike(c.wifiNetworks[i], d.wifiNetworks[i]) {
      assert AlikeAt(c, d, WifiSsid(i)) && AlikeAt(c, d, WifiPass(i));
      WifiMeans(c.wifiNetworks[i], d.wifiNetworks[i], i);
    }
    forall i | 0 <= i < SIM_CREDENTIALS ensures SimAlike(c.simCredentials[i], d.simCredentials[i]) {
      forall p: SimPart
        ensures AlikeButSecret(SimField(i, p), SimValue(c.simCredentials[i], p), SimValue(d.simCredentials[i], p))
      {
        assert AlikeAt(c, d, SimField(i, p));
      }
      SimMeans(c.simCredentials[i], d.simCredentials[i], i);
    }
    forall i | 0 <= i < PUSH_CHANNELS ensures PushAlike(c.pushChannels[i], d.pushChannels[i]) {
      forall p: PushPart
        ensures AlikeButSecret(PushField(i, p), PushValue(c.pushChannels[i], p), PushValue(d.pushChannels[i], p))
      {
        assert AlikeAt(c, d, PushField(i, p));
      }
      PushMeans(c.pushChannels[i], d.pushChannels[i], i);
    }
    forall i | 0 <= i < SCHED_TASKS ensures c.schedTasks[i] == d.schedTasks[i] {
      forall p: TaskPart
        ensures AlikeButSecret(TaskField(i, p), TaskValue(c.schedTasks[i], p), TaskValue(d.schedTasks[i], p))
      {
        assert AlikeAt(c, d, TaskField(i, p));
      }
      TaskMeans(c.schedTasks[i], d.schedTasks[i], i);
    }
  }

  /**
   * Two configurations have the same redacted export if and only if they agree on everything that is exported, and
   * have the same secrets set: it tells all the rest, and nothing of what a secret is.
   */
  lemma RedactedTells(c: Config, d: Config)
    requires Sized(c) && Sized(d) && Typed(c) && Typed(d)
    ensures AllFit(SettingsOf(c)) && AllFit(SettingsOf(d))
    ensures Export(SettingsOf(c), false) == Export(SettingsOf(d), false) <==> Alike(c, d)
  {
    hide Alike, Typed, SettingsOf, FieldValue, Shown, Fits, AlikeButSecret, Exported, Lines;
    SettingsFit(c);
    SettingsFit(d);
    ExportedOk();
    var a, b := SettingsOf(c), SettingsOf(d);
    if Export(a, false) == Export(b, false) {
      LinesTell(Exported(), a, b, false);
      forall f | FieldOk(f) ensures AlikeAt(c, d, f) {
        AllExported(f);
        ShownTells(f, a[f], b[f]);
      }
      AlikeFrom(c, d);
    }
    if Alike(c, d) {
      forall f | f in Exported() ensures Shown(f, a[f], false) == Shown(f, b[f], false) {
        AlikeThere(c, d, f);
        ShownTells(f, a[f], b[f]);
      }
      SameLines(Exported(), a, b, false);
    }
  }
}
