/** The settings of a device's configuration, and what becomes of them when it imports its own export. */
module TextDevice {
  import opened ConfigTypes
  import opened TextFields
  import opened ConfigText
  import opened TextImport
  import opened TextUpdate

  function MailValue(c: Config, p: MailPart): Value {
    match p
    case TxPower => N(c.txPower) case SmtpServer => T(c.smtpServer) case SmtpPort => N(c.smtpPort)
    case SmtpUser => T(c.smtpUser)
    case SmtpPass => T(c.smtpPass) case SmtpSendTo => T(c.smtpSendTo) case AdminPhone => T(c.adminPhone)
    case WebUser => T(c.unstored.webUser) case WebPass => T(c.unstored.webPass)
    case BlackList => T(c.numberBlackList) case ForwardRules => T(c.forwardRules)
  }

  function ClockValue(c: Config, p: ClockPart): Value {
    match p
    case EmailEnabled => B(c.emailEnabled) case PushEnabled => B(c.pushEnabled) case TzOffset => N(c.tzOffsetMin)
    case NtpServer => T(c.ntpServer) case MdnsHost => T(c.unstored.mdnsHost) case RebootEnabled => B(c.rebootEnabled)
    case RebootHour => N(c.rebootHour) case HbEnabled => B(c.unstored.hbEnabled) case HbHour => N(c.unstored.hbHour)
    case HealthEnabled => B(c.smsHealthEnabled) case HealthHour => N(c.smsHealthHour)
    case HealthNotify => B(c.smsHealthNotify)
  }

  function KeepaliveValue(c: Config, p: KeepalivePart): Value {
    match p
    case KaEnabled => B(c.kaEnabled) case KaInterval => N(c.kaIntervalDays) case KaAction => N(c.kaAction)
    case KaTarget => T(c.kaTarget) case KaUrl => T(c.kaUrl) case KaProfile => T(c.kaProfile)
    case KaLast => N(c.kaLastTime)
    case KaTraffic => N(c.kaTrafficKB)
  }

  function ModemValue(c: Config, p: ModemPart): Value {
    match p
    case NetLed => B(c.netLedEnabled) case CallNotify => B(c.callNotifyEnabled) case DataEnabled => B(c.dataEnabled)
    case Roaming => B(c.roamingEnabled) case Apn => T(c.apn) case Plmn => T(c.operatorPlmn)
    case Phone => T(c.phoneNumber)
  }

  function SimValue(m: Sim, p: SimPart): Value {
    match p
    case Iccid => T(m.iccid) case Pin => T(m.pin) case Puk => T(m.puk) case PinMax => N(m.pinMax)
    case PukMax => N(m.pukMax)
    case PinFail => N(m.pinFailed) case PukFail => N(m.pukFailed)
  }

  function PushValue(h: Channel, p: PushPart): Value {
    match p
    case Enabled => B(h.enabled) case ChannelKind => N(h.kind) case Url => T(h.url) case Name => T(h.name)
    case Key1 => T(h.key1)
    case Key2 => T(h.key2) case Body => T(h.customBody) case CellularEnabled => B(h.cellularEnabled)
    case CellularUrl => T(h.cellularUrl)
  }

  function TaskValue(t: Task, p: TaskPart): Value {
    match p
    case Enable => B(t.enabled) case TaskName => T(t.name) case Profile => T(t.profile) case Back => B(t.switchBack)
    case Days => N(t.intervalDays) case Act => N(t.action) case Target => T(t.target)
    case Payload => T(t.payload) case LastRun => N(t.lastRun)
  }

  function FieldValue(c: Config, f: Field): Value
    requires Sized(c) && FieldOk(f)
  {
    match f
    case WifiSsid(i) => T(c.wifiNetworks[i].ssid)
    case WifiPass(i) => T(c.wifiNetworks[i].pass)
    case MailField(p) => MailValue(c, p)
    case ClockField(p) => ClockValue(c, p)
    case KeepaliveField(p) => KeepaliveValue(c, p)
    case ModemField(p) => ModemValue(c, p)
    case SimField(i, p) => SimValue(c.simCredentials[i], p)
    case PushField(i, p) => PushValue(c.pushChannels[i], p)
    case TaskField(i, p) => TaskValue(c.schedTasks[i], p)
  }

  ghost function SettingsOf(c: Config): Settings
    requires Sized(c)
  {
    ExportedOk();
    map f | f in Exported() :: FieldValue(c, f)
  }

  ghost function DeviceOf(c: Config): Device
    requires Sized(c)
  {
    Device(SettingsOf(c), c.hostname, c.heartbeatEnable, c.webAccounts[0].username, c.webAccounts[0].password)
  }

  predicate Int32(n: int) { -0x8000_0000 <= n <= 0x7FFF_FFFF }

  /** The numbers have the types that the firmware gives them. */
  predicate Typed(c: Config)
    requires Sized(c)
  {
    && Int32(c.smtpPort) && Int32(c.tzOffsetMin) && Int32(c.rebootHour) && Int32(c.unstored.hbHour)
    && Int32(c.smsHealthHour)
    && Int32(c.kaIntervalDays) && Int32(c.kaTrafficKB) && forall t | t in c.schedTasks :: Int32(t.intervalDays)
  }

  lemma SettingsFit(c: Config)
    requires Sized(c) && Typed(c)
    ensures AllFit(SettingsOf(c)) && forall f | FieldOk(f) :: SettingsOf(c)[f] == FieldValue(c, f)
  {
    hide FieldValue, Fits, Exported;
    forall f | FieldOk(f)
      ensures f in SettingsOf(c) && SettingsOf(c)[f] == FieldValue(c, f) && Fits(f, FieldValue(c, f)) {
      AllExported(f);
      ValueFits(c, f);
    }
  }

  lemma ValueFits(c: Config, f: Field)
    requires Sized(c) && Typed(c) && FieldOk(f)
    ensures Fits(f, FieldValue(c, f))
  {
    hide MailValue, ClockValue, KeepaliveValue, ModemValue, SimValue, PushValue, TaskValue;
    match f
    case MailField(p) => MailFits(c, p);
    case ClockField(p) => ClockFits(c, p);
    case KeepaliveField(p) => KeepaliveFits(c, p);
    case ModemField(p) => ModemFits(c, p);
    case SimField(i, p) => SimFits(c.simCredentials[i], i, p);
    case PushField(i, p) => PushFits(c.pushChannels[i], i, p);
    case TaskField(i, p) => TaskFits(c.schedTasks[i], i, p);
    case _ =>
  }

  lemma MailFits(c: Config, p: MailPart)
    requires Sized(c) && Typed(c)
    ensures Fits(MailField(p), MailValue(c, p))
  {
  }

  lemma ClockFits(c: Config, p: ClockPart)
    requires Sized(c) && Typed(c)
    ensures Fits(ClockField(p), ClockValue(c, p))
  {
  }

  lemma KeepaliveFits(c: Config, p: KeepalivePart)
    requires Sized(c) && Typed(c)
    ensures Fits(KeepaliveField(p), KeepaliveValue(c, p))
  {
  }

  lemma ModemFits(c: Config, p: ModemPart)
    ensures Fits(ModemField(p), ModemValue(c, p))
  {
  }

  lemma SimFits(m: Sim, i: nat, p: SimPart)
    ensures Fits(SimField(i, p), SimValue(m, p))
  {
  }

  lemma PushFits(h: Channel, i: nat, p: PushPart)
    ensures Fits(PushField(i, p), PushValue(h, p))
  {
  }

  lemma TaskFits(t: Task, i: nat, p: TaskPart)
    requires Int32(t.intervalDays)
    ensures Fits(TaskField(i, p), TaskValue(t, p))
  {
  }

  /** Nothing of the configuration is a default that an import would put in, nor out of step with what it mirrors. */
  predicate Settled(c: Config)
    requires Sized(c)
  {
    && c.kaUrl != [] && (forall h | h in c.pushChannels :: h.name != [])
    && c.unstored.mdnsHost == c.hostname && c.unstored.hbEnabled == c.heartbeatEnable
    && c.unstored.webUser == c.webAccounts[0].username && c.unstored.webPass == c.webAccounts[0].password
  }

  /** A device that imports its own export keeps all of its settings exactly if it is settled. */
  lemma OwnExportKeepsAll(c: Config, full: bool)
    requires Sized(c) && Typed(c)
    ensures AllFit(DeviceOf(c).settings)
    ensures (forall f | FieldOk(f) :: f in AfterImport(DeviceOf(c), Export(DeviceOf(c).settings, full)).settings &&
              AfterImport(DeviceOf(c), Export(DeviceOf(c).settings, full)).settings[f] == FieldValue(c, f)) <==>
                Settled(c)
  {
    hide FieldValue, AfterImport, Export, Typed, SettingsOf, EmptyDefaulted, Followed, Settled;
    SettingsFit(c);
    var d := DeviceOf(c);
    OwnExportSaved(d, full);
    SettledFields(c);
  }

  lemma SettledFields(c: Config)
    requires Sized(c) && AllFit(SettingsOf(c)) && forall f | FieldOk(f) :: SettingsOf(c)[f] == FieldValue(c, f)
    ensures Settled(c) <==>
      forall f | FieldOk(f) :: !EmptyDefaulted(f, SettingsOf(c)[f]) && Followed(DeviceOf(c), f) == SettingsOf(c)[f]
  {
    hide SettingsOf, Fits, MailValue, ClockValue, KeepaliveValue, ModemValue, SimValue, PushValue, TaskValue;
    forall f | FieldOk(f)
      ensures !EmptyDefaulted(f, SettingsOf(c)[f]) && Followed(DeviceOf(c), f) == SettingsOf(c)[f] <==>
      SettledAt(c, f) {
      OneSettled(c, f);
    }
    SettledAtAll(c);
  }

  /** What a single setting needs. */
  predicate SettledAt(c: Config, f: Field)
    requires Sized(c) && FieldOk(f)
  {
    match f
    case KeepaliveField(KaUrl) => c.kaUrl != []
    case PushField(i, Name) => c.pushChannels[i].name != []
    case ClockField(MdnsHost) => c.unstored.mdnsHost == c.hostname
    case ClockField(HbEnabled) => c.unstored.hbEnabled == c.heartbeatEnable
    case MailField(WebUser) => c.unstored.webUser == c.webAccounts[0].username
    case MailField(WebPass) => c.unstored.webPass == c.webAccounts[0].password
    case _ => true
  }

  lemma OneSettled(c: Config, f: Field)
    requires Sized(c) && AllFit(SettingsOf(c)) && FieldOk(f) && SettingsOf(c)[f] == FieldValue(c, f)
    ensures !EmptyDefaulted(f, SettingsOf(c)[f]) && Followed(DeviceOf(c), f) == SettingsOf(c)[f] <==> SettledAt(c, f)
  {
    hide SettingsOf;
  }

  lemma SettledAtAll(c: Config)
    requires Sized(c)
    ensures Settled(c) <==> forall f | FieldOk(f) :: SettledAt(c, f)
  {
    if forall f | FieldOk(f) :: SettledAt(c, f) {
      assert SettledAt(c, KeepaliveField(KaUrl)) && SettledAt(c, MDNS) && SettledAt(c, BEAT) && SettledAt(c, USER)
        && SettledAt(c, PASS);
      forall h | h in c.pushChannels ensures h.name != [] {
        var i :| 0 <= i < |c.pushChannels| && c.pushChannels[i] == h;
        assert SettledAt(c, PushField(i, Name));
      }
    }
  }

  /**
   * A configuration that has just been loaded is out of step only
   * where the first account has an empty name or password.
   */
  lemma LoadedMirrors(c: Config)
    requires Sized(c)
    ensures var n := Normal(c);
            && n.unstored.mdnsHost == n.hostname && n.unstored.hbEnabled == n.heartbeatEnable
            && (n.unstored.webUser == n.webAccounts[0].username <==> c.webAccounts[0].username != [])
            && (n.unstored.webPass == n.webAccounts[0].password <==> c.webAccounts[0].password != [])
  {
    hide Ascii;
    NormalIs(c);
    DefaultAccount();
  }

  lemma DefaultAccount()
    ensures Ascii(DEFAULT_WEB_USER) != [] && Ascii(DEFAULT_WEB_PASS) != []
  {
    assert |DEFAULT_WEB_USER| > 0 && |DEFAULT_WEB_PASS| > 0;
  }
}
