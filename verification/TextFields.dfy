/** The settings that a text export carries, and the keys that stand for them. */
module TextFields {
  import opened Bytes
  import opened ConfigTypes

  datatype SimPart = Iccid | Pin | Puk | PinMax | PukMax | PinFail | PukFail

  datatype PushPart = Enabled | ChannelKind | Url | Name | Key1 | Key2 | Body | CellularEnabled | CellularUrl

  datatype TaskPart = Enable | TaskName | Profile | Back | Days | Act | Target | Payload | LastRun

  datatype MailPart =
    TxPower | SmtpServer | SmtpPort | SmtpUser | SmtpPass | SmtpSendTo | AdminPhone | WebUser | WebPass | BlackList
    | ForwardRules

  datatype ClockPart =
    | EmailEnabled | PushEnabled | TzOffset | NtpServer | MdnsHost | RebootEnabled | RebootHour | HbEnabled | HbHour
    | HealthEnabled | HealthHour | HealthNotify

  datatype KeepalivePart = KaEnabled | KaInterval | KaAction | KaTarget | KaUrl | KaProfile | KaLast | KaTraffic

  datatype ModemPart = NetLed | CallNotify | DataEnabled | Roaming | Apn | Plmn | Phone

  datatype Field =
    | WifiSsid(i: nat) | WifiPass(i: nat)
    | MailField(mail: MailPart) | ClockField(clock: ClockPart) | KeepaliveField(keepalive: KeepalivePart)
    | ModemField(modem: ModemPart)
    | SimField(i: nat, simPart: SimPart) | PushField(i: nat, pushPart: PushPart) | TaskField(i: nat, taskPart: TaskPart)

  predicate FieldOk(f: Field) {
    match f
    case WifiSsid(i) => i < WIFI_NETWORKS
    case WifiPass(i) => i < WIFI_NETWORKS
    case SimField(i, _) => i < SIM_CREDENTIALS
    case PushField(i, _) => i < PUSH_CHANNELS
    case TaskField(i, _) => i < SCHED_TASKS
    case _ => true
  }

  // ----- keys -----

  function Digit(i: nat): char
    requires i < 10
  {
    ['0', '1', '2', '3', '4', '5', '6', '7', '8', '9'][i]
  }

  predicate IsDigit(c: char) { '0' <= c <= '9' }

  function SimSuffix(p: SimPart): string {
    match p
    case Iccid => "Iccid" case Pin => "Pin" case Puk => "Puk" case PinMax => "PinMax" case PukMax => "PukMax"
    case PinFail => "PinFail" case PukFail => "PukFail"
  }

  function PushSuffix(p: PushPart): string {
    match p
    case Enabled => "en" case ChannelKind => "type" case Url => "url" case Name => "name" case Key1 => "k1"
    case Key2 => "k2"
    case Body => "body" case CellularEnabled => "cellularEnabled" case CellularUrl => "cellularUrl"
  }

  function TaskSuffix(p: TaskPart): string {
    match p
    case Enable => "En" case TaskName => "Name" case Profile => "Prof" case Back => "Back" case Days => "Days"
    case Act => "Act" case Target => "Tgt" case Payload => "Pay" case LastRun => "Last"
  }

  function MailKey(p: MailPart): string {
    match p
    case TxPower => "wifiTxPowerQuarterDbm"
    case SmtpServer => "smtpServer" case SmtpPort => "smtpPort" case SmtpUser => "smtpUser" case SmtpPass => "smtpPass"
    case SmtpSendTo => "smtpSendTo" case AdminPhone => "adminPhone" case WebUser => "webUser" case WebPass => "webPass"
    case BlackList => "numBlkList" case ForwardRules => "fwdRules"
  }

  function ClockKey(p: ClockPart): string {
    match p
    case EmailEnabled => "emailEnabled" case PushEnabled => "pushEnabled"
    case TzOffset => "tzOffsetMin" case NtpServer => "ntpServer" case MdnsHost => "mdnsHost"
    case RebootEnabled => "rebootEnabled" case RebootHour => "rebootHour" case HbEnabled => "hbEnabled"
    case HbHour => "hbHour"
    case HealthEnabled => "smsHealthEnabled" case HealthHour => "smsHealthHour" case HealthNotify => "smsHealthNotify"
  }

  function KeepaliveKey(p: KeepalivePart): string {
    match p
    case KaEnabled => "kaEnabled" case KaInterval => "kaIntervalDays" case KaAction => "kaAction"
    case KaTarget => "kaTarget"
    case KaUrl => "kaUrl" case KaProfile => "kaProfile" case KaLast => "kaLastTime" case KaTraffic => "kaTrafficKB"
  }

  function ModemKey(p: ModemPart): string {
    match p
    case NetLed => "netLedEnabled" case CallNotify => "callNotifyEnabled" case DataEnabled => "dataEnabled"
    case Roaming => "roamingEnabled" case Apn => "apn" case Plmn => "operatorPlmn" case Phone => "phoneNumber"
  }

  function KeyOf(f: Field): string
    requires FieldOk(f)
  {
    match f
    case WifiSsid(i) => if i == 0 then "wifiSsid" else "wifi" + [Digit(i)] + "Ssid"
    case WifiPass(i) => if i == 0 then "wifiPass" else "wifi" + [Digit(i)] + "Pass"
    case SimField(i, p) => "sim" + [Digit(i)] + SimSuffix(p)
    case PushField(i, p) => "push" + [Digit(i)] + PushSuffix(p)
    case TaskField(i, p) => "st" + [Digit(i)] + TaskSuffix(p)
    case MailField(p) => MailKey(p)
    case ClockField(p) => ClockKey(p)
    case KeepaliveField(p) => KeepaliveKey(p)
    case ModemField(p) => ModemKey(p)
  }

  // ----- which setting a key stands for -----

  predicate Starts(key: string, prefix: string) {
    |prefix| <= |key| && forall i | 0 <= i < |prefix| :: key[i] == prefix[i]
  }

  function DigitOf(c: char): nat
    requires IsDigit(c)
  {
    (c - '0') as int
  }

  function NumberedWifi(key: string): (r: Option<Field>)
    requires |key| == 9 && IsDigit(key[4])
    ensures r.Some? ==> FieldOk(r.value)
  {
    var i, suffix := DigitOf(key[4]), key[5..];
    if i < 1 || i >= WIFI_NETWORKS then None
    else if suffix == "Ssid" then Some(WifiSsid(i)) else if suffix == "Pass" then Some(WifiPass(i)) else None
  }

  function NumberedSim(key: string): (r: Option<Field>)
    requires |key| > 4 && IsDigit(key[3])
    ensures r.Some? ==> FieldOk(r.value)
  {
    var i, s := DigitOf(key[3]), key[4..];
    if i >= SIM_CREDENTIALS then None
    else if s == "Iccid" then Some(SimField(i, Iccid)) else if s == "Pin" then Some(SimField(i, Pin))
    else if s == "Puk" then Some(SimField(i, Puk))
    else if s == "PinMax" then Some(SimField(i, PinMax)) else if s == "PukMax" then Some(SimField(i, PukMax))
    else if s == "PinFail" then Some(SimField(i, PinFail)) else if s == "PukFail" then Some(SimField(i, PukFail))
    else None
  }

  function NumberedTask(key: string): (r: Option<Field>)
    requires |key| > 3 && IsDigit(key[2])
    ensures r.Some? ==> FieldOk(r.value)
  {
    var i, s := DigitOf(key[2]), key[3..];
    if i >= SCHED_TASKS then None
    else if s == "En" then Some(TaskField(i, Enable)) else if s == "Name" then Some(TaskField(i, TaskName))
    else if s == "Prof" then Some(TaskField(i, Profile))
    else if s == "Back" then Some(TaskField(i, Back)) else if s == "Days" then Some(TaskField(i, Days))
    else if s == "Act" then Some(TaskField(i, Act))
    else if s == "Tgt" then Some(TaskField(i, Target)) else if s == "Pay" then Some(TaskField(i, Payload))
    else if s == "Last" then Some(TaskField(i, LastRun))
    else None
  }

  /** The digits from `pos` on: where they end, and their value on top of `value`. */
  function Digits(key: string, pos: nat, value: nat): (r: (nat, nat))
    requires pos <= |key|
    ensures pos <= r.0 <= |key|
    decreases |key| - pos
  {
    if pos < |key| && IsDigit(key[pos]) then Digits(key, pos + 1, value * 10 + DigitOf(key[pos])) else (pos, value)
  }

  function NumberedPush(key: string): (r: Option<Field>)
    requires |key| >= 4
    ensures r.Some? ==> FieldOk(r.value)
  {
    var (pos, i) := Digits(key, 4, 0);
    var s := key[pos..];
    if pos == 4 || i >= PUSH_CHANNELS then None
    else if s == "en" then Some(PushField(i, Enabled)) else if s == "type" then Some(PushField(i, ChannelKind))
    else if s == "url" then Some(PushField(i, Url))
    else if s == "name" then Some(PushField(i, Name)) else if s == "k1" then Some(PushField(i, Key1))
    else if s == "k2" then Some(PushField(i, Key2))
    else if s == "body" then Some(PushField(i, Body))
    else if s == "cellularEnabled" then Some(PushField(i, CellularEnabled))
    else if s == "cellularUrl" then Some(PushField(i, CellularUrl)) else None
  }

  function MailOf(key: string): (r: Option<Field>)
    ensures r.Some? ==> r.value.MailField?
  {
    if key == "wifiTxPowerQuarterDbm" then Some(MailField(TxPower))
    else if key == "smtpServer" then Some(MailField(SmtpServer))
    else if key == "smtpPort" then Some(MailField(SmtpPort))
    else if key == "smtpUser" then Some(MailField(SmtpUser))
    else if key == "smtpPass" then Some(MailField(SmtpPass))
    else if key == "smtpSendTo" then Some(MailField(SmtpSendTo))
    else if key == "adminPhone" then Some(MailField(AdminPhone))
    else if key == "webUser" then Some(MailField(WebUser))
    else if key == "webPass" then Some(MailField(WebPass))
    else if key == "numBlkList" || key == "numberBlackList" then Some(MailField(BlackList))
    else if key == "fwdRules" || key == "forwardRules" then Some(MailField(ForwardRules))
    else None
  }

  function ClockOf(key: string): (r: Option<Field>)
    ensures r.Some? ==> r.value.ClockField?
  {
    if key == "emailEnabled" then Some(ClockField(EmailEnabled))
    else if key == "pushEnabled" then Some(ClockField(PushEnabled))
    else if key == "tzOffsetMin" then Some(ClockField(TzOffset))
    else if key == "ntpServer" then Some(ClockField(NtpServer))
    else if key == "mdnsHost" then Some(ClockField(MdnsHost))
    else if key == "rebootEnabled" then Some(ClockField(RebootEnabled))
    else if key == "rebootHour" then Some(ClockField(RebootHour))
    else if key == "hbEnabled" then Some(ClockField(HbEnabled))
    else if key == "hbHour" then Some(ClockField(HbHour))
    else if key == "smsHealthEnabled" then Some(ClockField(HealthEnabled))
    else if key == "smsHealthHour" then Some(ClockField(HealthHour))
    else if key == "smsHealthNotify" then Some(ClockField(HealthNotify))
    else None
  }

  function KeepaliveOf(key: string): (r: Option<Field>)
    ensures r.Some? ==> r.value.KeepaliveField?
  {
    if key == "kaEnabled" then Some(KeepaliveField(KaEnabled))
    else if key == "kaIntervalDays" then Some(KeepaliveField(KaInterval))
    else if key == "kaAction" then Some(KeepaliveField(KaAction))
    else if key == "kaTarget" then Some(KeepaliveField(KaTarget))
    else if key == "kaUrl" then Some(KeepaliveField(KaUrl))
    else if key == "kaProfile" then Some(KeepaliveField(KaProfile))
    else if key == "kaLastTime" then Some(KeepaliveField(KaLast))
    else if key == "kaTrafficKB" then Some(KeepaliveField(KaTraffic))
    else None
  }

  function ModemOf(key: string): (r: Option<Field>)
    ensures r.Some? ==> r.value.ModemField?
  {
    if key == "netLedEnabled" then Some(ModemField(NetLed))
    else if key == "callNotifyEnabled" then Some(ModemField(CallNotify))
    else if key == "dataEnabled" then Some(ModemField(DataEnabled))
    else if key == "roamingEnabled" then Some(ModemField(Roaming))
    else if key == "apn" then Some(ModemField(Apn))
    else if key == "operatorPlmn" then Some(ModemField(Plmn))
    else if key == "phoneNumber" then Some(ModemField(Phone))
    else None
  }

  function PlainOf(key: string): (r: Option<Field>)
    ensures r.Some? ==> IsPlain(r.value)
  {
    if MailOf(key).Some? then MailOf(key)
    else if ClockOf(key).Some? then ClockOf(key)
    else if KeepaliveOf(key).Some? then KeepaliveOf(key)
    else ModemOf(key)
  }

  function NumberedOf(key: string): (r: Option<Field>)
    ensures r.Some? ==> FieldOk(r.value)
  {
    if Starts(key, "sim") && |key| > 4 && IsDigit(key[3]) then NumberedSim(key)
    else if Starts(key, "st") && |key| > 3 && IsDigit(key[2]) then NumberedTask(key)
    else if Starts(key, "push") then NumberedPush(key)
    else None
  }

  /** The branches of the import in their order: exact names first, but for the numbered networks, then prefixes. */
  function FieldOfKey(key: string): (r: Option<Field>)
    ensures r.Some? ==> FieldOk(r.value)
  {
    if key == "wifiSsid" then Some(WifiSsid(0))
    else if key == "wifiPass" then Some(WifiPass(0))
    else if |key| == 9 && Starts(key, "wifi") && IsDigit(key[4]) then NumberedWifi(key)
    else if PlainOf(key).Some? then PlainOf(key)
    else NumberedOf(key)
  }

  // ----- no key is taken for another -----

  lemma MailKeys(p: MailPart)
    ensures MailOf(MailKey(p)) == Some(MailField(p))
  {
  }

  lemma ClockKeys(p: ClockPart)
    ensures ClockOf(ClockKey(p)) == Some(ClockField(p))
  {
  }

  lemma KeepaliveKeys(p: KeepalivePart)
    ensures KeepaliveOf(KeepaliveKey(p)) == Some(KeepaliveField(p))
  {
  }

  lemma ModemKeys(p: ModemPart)
    ensures ModemOf(ModemKey(p)) == Some(ModemField(p))
  {
  }

  /** By its first letter or its length a key is none of the first group. */
  predicate NoMailShape(key: string) {
    && key != ""
    && (|| key[0] in "emrthkcdop" || (key[0] == 's' && |key| in {13, 15, 16}) || (key[0] == 'n' && |key| in {9, 13})
        || (key[0] == 'a' && |key| == 3))
  }

  predicate NoClockShape(key: string) {
    key != "" && (key[0] in "kcdao" || (key[0] == 'n' && |key| == 13) || (key[0] == 'r' && |key| == 14)
      || (key[0] == 'p' && |key| == 11 && key[1] == 'h'))
  }

  predicate NoKeepaliveShape(key: string) { key != "" && key[0] != 'k' }

  lemma NoMail(key: string)
    requires NoMailShape(key)
    ensures MailOf(key) == None
  {
  }

  lemma NoClock(key: string)
    requires NoClockShape(key)
    ensures ClockOf(key) == None
  {
  }

  lemma NoKeepalive(key: string)
    requires NoKeepaliveShape(key)
    ensures KeepaliveOf(key) == None
  {
  }

  lemma ClockShapes(p: ClockPart)
    ensures NoMailShape(ClockKey(p))
  {
  }

  lemma KeepaliveShapes(p: KeepalivePart)
    ensures NoMailShape(KeepaliveKey(p)) && NoClockShape(KeepaliveKey(p))
  {
  }

  lemma ModemShapes(p: ModemPart)
    ensures NoMailShape(ModemKey(p)) && NoClockShape(ModemKey(p)) && NoKeepaliveShape(ModemKey(p))
  {
  }

  predicate IsPlain(f: Field) { f.MailField? || f.ClockField? || f.KeepaliveField? || f.ModemField? }

  lemma PlainKeys(f: Field)
    requires IsPlain(f)
    ensures PlainOf(KeyOf(f)) == Some(f)
  {
    hide MailKey, ClockKey, KeepaliveKey, ModemKey, MailOf, ClockOf, KeepaliveOf, ModemOf, NoMailShape, NoClockShape,
      NoKeepaliveShape;
    match f {
      case MailField(p) => MailKeys(p);
      case ClockField(p) =>
        ClockKeys(p);
        ClockShapes(p);
        NoMail(KeyOf(f));
      case KeepaliveField(p) =>
        KeepaliveKeys(p);
        KeepaliveShapes(p);
        NoMail(KeyOf(f));
        NoClock(KeyOf(f));
      case ModemField(p) =>
        ModemKeys(p);
        ModemShapes(p);
        NoMail(KeyOf(f));
        NoClock(KeyOf(f));
        NoKeepalive(KeyOf(f));
    }
  }

  /** No plain key looks like that of a network. */
  predicate NoNetworkShape(key: string) { key != "" && (key[0] != 'w' || |key| in {7, 21}) }

  lemma PlainIsNoWifi(f: Field)
    requires IsPlain(f)
    ensures NoNetworkShape(KeyOf(f))
  {
    match f
    case MailField(p) => MailIsNoWifi(p);
    case ClockField(p) => ClockIsNoWifi(p);
    case KeepaliveField(p) =>
    case ModemField(p) =>
  }

  lemma MailIsNoWifi(p: MailPart)
    ensures NoNetworkShape(MailKey(p))
  {
  }

  lemma ClockIsNoWifi(p: ClockPart)
    ensures NoNetworkShape(ClockKey(p))
  {
  }

  lemma NetworkKeys(i: nat, pass: bool)
    requires i < WIFI_NETWORKS
    ensures var f := if pass then WifiPass(i) else WifiSsid(i); FieldOfKey(KeyOf(f)) == Some(f)
  {
    hide PlainOf, NumberedOf;
    if i > 0 {
      var key := "wifi" + [Digit(i)] + (if pass then "Pass" else "Ssid");
      assert key[4] == Digit(i) && key[5..] == if pass then "Pass" else "Ssid";
      DigitBack(i);
    }
  }

  lemma DigitBack(i: nat)
    requires i < 10
    ensures IsDigit(Digit(i)) && DigitOf(Digit(i)) == i
  {
  }

  /** The keys of numbered settings are none of the exact names. */
  lemma NumberedIsNotPlain(key: string)
    requires |key| >= 4
    requires || (Starts(key, "sim") && IsDigit(key[3])) || (Starts(key, "st") && IsDigit(key[2]))
      || (Starts(key, "push") && |key| > 4 && IsDigit(key[4]))
    ensures PlainOf(key) == None && key != "wifiSsid" && key != "wifiPass" && !Starts(key, "wifi")
  {
    assert key[0] in "sp" && (key[0] == 's' ==> key[1] in "it") && (key[0] == 'p' ==> key[1] == 'u' && IsDigit(key[4]));
    NumberedNotMail(key);
    NumberedNotClock(key);
    NoKeepalive(key);
    NumberedNotModem(key);
  }

  lemma NumberedNotMail(key: string)
    requires |key| >= 4 && (key[0] == 'p' || (key[0] == 's' && key[1] in "it"))
    ensures MailOf(key) == None
  {
  }

  lemma NumberedNotClock(key: string)
    requires |key| >= 4 && ((key[0] == 'p' && |key| > 4 && IsDigit(key[4])) || (key[0] == 's' && key[1] in "it"))
    ensures ClockOf(key) == None
  {
  }

  lemma NumberedNotModem(key: string)
    requires |key| >= 4 && ((key[0] == 'p' && key[1] == 'u') || key[0] == 's')
    ensures ModemOf(key) == None
  {
  }

  lemma SimKeys(i: nat, p: SimPart)
    requires i < SIM_CREDENTIALS
    ensures FieldOfKey(KeyOf(SimField(i, p))) == Some(SimField(i, p))
  {
    hide PlainOf, NumberedTask, NumberedPush, DigitOf, Digit;
    var key := KeyOf(SimField(i, p));
    assert key[3] == Digit(i) && key[4..] == SimSuffix(p) && Starts(key, "sim");
    DigitBack(i);
    NumberedIsNotPlain(key);
  }

  lemma TaskKeys(i: nat, p: TaskPart)
    requires i < SCHED_TASKS
    ensures FieldOfKey(KeyOf(TaskField(i, p))) == Some(TaskField(i, p))
  {
    hide PlainOf, NumberedSim, NumberedPush, DigitOf, Digit;
    var key := KeyOf(TaskField(i, p));
    assert key[2] == Digit(i) && key[3..] == TaskSuffix(p) && Starts(key, "st");
    assert key[1] != "sim"[1];
    DigitBack(i);
    NumberedIsNotPlain(key);
  }

  lemma PushKeys(i: nat, p: PushPart)
    requires i < PUSH_CHANNELS
    ensures FieldOfKey(KeyOf(PushField(i, p))) == Some(PushField(i, p))
  {
    hide PlainOf, NumberedSim, NumberedTask, DigitOf, Digit;
    var key := KeyOf(PushField(i, p));
    assert key[4] == Digit(i) && key[5..] == PushSuffix(p) && Starts(key, "push");
    assert key[0] != "sim"[0] && key[0] != "st"[0];
    DigitBack(i);
    assert !IsDigit(PushSuffix(p)[0]) && key[5] == PushSuffix(p)[0];
    assert Digits(key, 5, i) == (5, i);
    NumberedIsNotPlain(key);
  }

  /** Every setting is found again by its key: no key is taken for another one, whatever prefix it starts with. */
  lemma KeysTell(f: Field)
    requires FieldOk(f)
    ensures FieldOfKey(KeyOf(f)) == Some(f)
  {
    hide FieldOfKey, PlainOf, NumberedOf, KeyOf;
    match f
    case WifiSsid(i) => NetworkKeys(i, false);
    case WifiPass(i) => NetworkKeys(i, true);
    case SimField(i, p) => SimKeys(i, p);
    case PushField(i, p) => PushKeys(i, p);
    case TaskField(i, p) => TaskKeys(i, p);
    case _ => PlainTells(f);
  }

  lemma PlainTells(f: Field)
    requires IsPlain(f)
    ensures FieldOfKey(KeyOf(f)) == Some(f)
  {
    hide PlainOf, NumberedOf, KeyOf;
    PlainKeys(f);
    PlainIsNoWifi(f);
    assert "wifiSsid"[0] == 'w' && "wifiPass"[0] == 'w' && "wifi"[0] == 'w';
  }

  /** A key has neither separators nor spaces in it. */
  predicate KeyClean(key: string) { key != "" && forall i | 0 <= i < |key| :: '0' <= key[i] <= 'z' && key[i] != '=' }

  lemma KeyIsClean(f: Field)
    requires FieldOk(f)
    ensures KeyClean(KeyOf(f))
  {
    hide MailKey, ClockKey, KeepaliveKey, ModemKey, SimSuffix, PushSuffix, TaskSuffix, KeyClean, Digit;
    match f
    case WifiSsid(i) => NetworkIsClean(i);
    case WifiPass(i) => NetworkIsClean(i);
    case MailField(p) => MailIsClean(p);
    case ClockField(p) => ClockIsClean(p);
    case KeepaliveField(p) => KeepaliveIsClean(p);
    case ModemField(p) => ModemIsClean(p);
    case SimField(i, p) =>
      SimIsClean(p);
      NumberedIsClean("sim", i, SimSuffix(p));
    case PushField(i, p) =>
      PushIsClean(p);
      NumberedIsClean("push", i, PushSuffix(p));
    case TaskField(i, p) =>
      TaskIsClean(p);
      NumberedIsClean("st", i, TaskSuffix(p));
  }

  lemma NumberedIsClean(prefix: string, i: nat, suffix: string)
    requires KeyClean(prefix) && i < 10 && KeyClean(suffix)
    ensures KeyClean(prefix + [Digit(i)] + suffix)
  {
    DigitBack(i);
  }

  lemma NetworkIsClean(i: nat)
    requires i < WIFI_NETWORKS
    ensures KeyClean(KeyOf(WifiSsid(i))) && KeyClean(KeyOf(WifiPass(i)))
  {
    NumberedIsClean("wifi", i, "Ssid");
    NumberedIsClean("wifi", i, "Pass");
  }

  lemma MailIsClean(p: MailPart) ensures KeyClean(MailKey(p)) {}

  lemma ClockIsClean(p: ClockPart) ensures KeyClean(ClockKey(p)) {}

  lemma KeepaliveIsClean(p: KeepalivePart) ensures KeyClean(KeepaliveKey(p)) {}

  lemma ModemIsClean(p: ModemPart) ensures KeyClean(ModemKey(p)) {}

  lemma SimIsClean(p: SimPart) ensures KeyClean("sim") && KeyClean(SimSuffix(p)) {}

  lemma PushIsClean(p: PushPart) ensures KeyClean("push") && KeyClean(PushSuffix(p)) {}

  lemma TaskIsClean(p: TaskPart) ensures KeyClean("st") && KeyClean(TaskSuffix(p)) {}

  // ----- which settings are exported, and how -----

  datatype Kind = Plain | Secret | AccountText | AccountSecret | Address | ChannelName | Yes | Small | Whole | Word

  /** How the value of a setting is written, and what guards its import. */
  function KindOf(f: Field): Kind {
    match f
    case WifiSsid(_) => Plain
    case WifiPass(_) => Secret
    case MailField(p) =>
      (match p case TxPower => Small case SmtpPort => Whole case SmtpPass => Secret case WebUser => AccountText
               case WebPass => AccountSecret case _ => Plain)
    case ClockField(p) =>
      (match p
       case NtpServer => Plain case MdnsHost => Plain case TzOffset => Whole case RebootHour => Whole
       case HbHour => Whole case HealthHour => Whole case _ => Yes)
    case KeepaliveField(p) =>
      (match p
       case KaEnabled => Yes case KaInterval => Whole case KaAction => Small case KaUrl => Address case KaLast => Word
       case KaTraffic => Whole case _ => Plain)
    case ModemField(p) => (match p case Apn => Plain case Plmn => Plain case Phone => Plain case _ => Yes)
    case SimField(_, p) => (match p case Iccid => Plain case Pin => Secret case Puk => Secret case _ => Small)
    case PushField(_, p) =>
      (match p
       case Enabled => Yes case CellularEnabled => Yes case ChannelKind => Small case Name => ChannelName
       case _ => Secret)
    case TaskField(_, p) =>
      (match p
       case Enable => Yes case Back => Yes case Days => Whole case Act => Small case LastRun => Word case _ => Plain)
  }

  function MailFields(): seq<Field> {
    [MailField(TxPower), MailField(SmtpServer), MailField(SmtpPort), MailField(SmtpUser), MailField(SmtpPass),
      MailField(SmtpSendTo),
     MailField(AdminPhone), MailField(WebUser), MailField(WebPass), MailField(BlackList), MailField(ForwardRules)]
  }

  function ClockFields(): seq<Field> {
    [ClockField(EmailEnabled), ClockField(PushEnabled), ClockField(TzOffset), ClockField(NtpServer),
      ClockField(MdnsHost),
     ClockField(RebootEnabled), ClockField(RebootHour), ClockField(HbEnabled), ClockField(HbHour),
     ClockField(HealthEnabled), ClockField(HealthHour), ClockField(HealthNotify)]
  }

  function KeepaliveFields(): seq<Field> {
    [KeepaliveField(KaEnabled), KeepaliveField(KaInterval), KeepaliveField(KaAction), KeepaliveField(KaTarget),
      KeepaliveField(KaUrl),
     KeepaliveField(KaProfile), KeepaliveField(KaLast), KeepaliveField(KaTraffic)]
  }

  function ModemFields(): seq<Field> {
    [ModemField(NetLed), ModemField(CallNotify), ModemField(DataEnabled), ModemField(Roaming), ModemField(Apn),
      ModemField(Plmn), ModemField(Phone)]
  }

  function PlainFields(): seq<Field> { MailFields() + ClockFields() + KeepaliveFields() + ModemFields() }

  function WifiFields(i: nat): seq<Field> { [WifiSsid(i), WifiPass(i)] }

  function SimFields(i: nat): seq<Field> {
    [SimField(i, Iccid), SimField(i, Pin), SimField(i, Puk), SimField(i, PinMax), SimField(i, PukMax),
      SimField(i, PinFail), SimField(i, PukFail)]
  }

  function PushFields(i: nat): seq<Field> {
    [PushField(i, Enabled), PushField(i, ChannelKind), PushField(i, Url), PushField(i, Name), PushField(i, Key1),
      PushField(i, Key2),
     PushField(i, Body), PushField(i, CellularEnabled), PushField(i, CellularUrl)]
  }

  function TaskFields(i: nat): seq<Field> {
    [TaskField(i, Enable), TaskField(i, TaskName), TaskField(i, Profile), TaskField(i, Back), TaskField(i, Days),
      TaskField(i, Act),
     TaskField(i, Target), TaskField(i, Payload), TaskField(i, LastRun)]
  }

  /** The settings of the first `n` items of an array. */
  function Rows(n: nat, row: nat -> seq<Field>): seq<Field> { if n == 0 then [] else Rows(n - 1, row) + row(n - 1) }

  /** Everything that an export writes, in its order. */
  function Exported(): seq<Field> {
    Rows(WIFI_NETWORKS, WifiFields) + PlainFields() + Rows(SIM_CREDENTIALS, SimFields) + Rows(PUSH_CHANNELS, PushFields)
    + Rows(SCHED_TASKS, TaskFields)
  }

  lemma {:induction false} RowsHold(n: nat, row: nat -> seq<Field>, i: nat, f: Field)
    requires i < n && f in row(i)
    ensures f in Rows(n, row)
  {
    if i < n - 1 { RowsHold(n - 1, row, i, f); }
  }

  lemma {:induction false} RowsOnly(n: nat, row: nat -> seq<Field>, f: Field)
    requires f in Rows(n, row)
    ensures exists i: nat :: i < n && f in row(i)
  {
    if f in Rows(n - 1, row) {
      RowsOnly(n - 1, row, f);
      var i: nat :| i < n - 1 && f in row(i);
      assert i < n && f in row(i);
    } else {
      assert f in row(n - 1);
    }
  }

  /** Every setting is exported, and nothing else. */
  lemma AllExported(f: Field)
    ensures f in Exported() <==> FieldOk(f)
  {
    hide Rows, PlainFields;
    ArraysExported(f);
    PlainExported(f);
  }

  lemma PlainExported(f: Field)
    ensures f in PlainFields() <==> IsPlain(f)
  {
    hide MailFields, ClockFields, KeepaliveFields, ModemFields;
    MailExported(f);
    ClockExported(f);
    KeepaliveExported(f);
    ModemExported(f);
  }

  lemma MailExported(f: Field)
    ensures f in MailFields() <==> f.MailField?
  {
    if f.MailField? { assert MailFields()[MailIndex(f.mail)] == f; }
  }

  lemma ClockExported(f: Field)
    ensures f in ClockFields() <==> f.ClockField?
  {
    if f.ClockField? { assert ClockFields()[ClockIndex(f.clock)] == f; }
  }

  lemma KeepaliveExported(f: Field)
    ensures f in KeepaliveFields() <==> f.KeepaliveField?
  {
    if f.KeepaliveField? { assert KeepaliveFields()[KeepaliveIndex(f.keepalive)] == f; }
  }

  lemma ModemExported(f: Field)
    ensures f in ModemFields() <==> f.ModemField?
  {
    if f.ModemField? { assert ModemFields()[ModemIndex(f.modem)] == f; }
  }

  function MailIndex(p: MailPart): nat {
    match p
    case TxPower => 0 case SmtpServer => 1 case SmtpPort => 2 case SmtpUser => 3 case SmtpPass => 4 case SmtpSendTo => 5
    case AdminPhone => 6 case WebUser => 7 case WebPass => 8 case BlackList => 9 case ForwardRules => 10
  }

  function ClockIndex(p: ClockPart): nat {
    match p
    case EmailEnabled => 0 case PushEnabled => 1 case TzOffset => 2 case NtpServer => 3 case MdnsHost => 4
    case RebootEnabled => 5
    case RebootHour => 6 case HbEnabled => 7 case HbHour => 8 case HealthEnabled => 9 case HealthHour => 10
    case HealthNotify => 11
  }

  function KeepaliveIndex(p: KeepalivePart): nat {
    match p
    case KaEnabled => 0 case KaInterval => 1 case KaAction => 2 case KaTarget => 3 case KaUrl => 4 case KaProfile => 5
    case KaLast => 6 case KaTraffic => 7
  }

  function ModemIndex(p: ModemPart): nat {
    match p
    case NetLed => 0 case CallNotify => 1 case DataEnabled => 2 case Roaming => 3 case Apn => 4 case Plmn => 5
    case Phone => 6
  }

  predicate InArray(f: Field) { f.WifiSsid? || f.WifiPass? || f.SimField? || f.PushField? || f.TaskField? }

  lemma ArraysExported(f: Field)
    ensures InArray(f) && FieldOk(f) ==> f in Exported()
    ensures f in Exported() && f !in PlainFields() ==> InArray(f) && FieldOk(f)
  {
    hide Rows, PlainFields, WifiFields, SimFields, PushFields, TaskFields;
    if InArray(f) && FieldOk(f) {
      InItsRow(f);
      match f
      case WifiSsid(i) => RowsHold(WIFI_NETWORKS, WifiFields, i, f);
      case WifiPass(i) => RowsHold(WIFI_NETWORKS, WifiFields, i, f);
      case SimField(i, _) => RowsHold(SIM_CREDENTIALS, SimFields, i, f);
      case PushField(i, _) => RowsHold(PUSH_CHANNELS, PushFields, i, f);
      case TaskField(i, _) => RowsHold(SCHED_TASKS, TaskFields, i, f);
    }
    if f in Rows(WIFI_NETWORKS, WifiFields) { RowsOnly(WIFI_NETWORKS, WifiFields, f); }
    if f in Rows(SIM_CREDENTIALS, SimFields) { RowsOnly(SIM_CREDENTIALS, SimFields, f); }
    if f in Rows(PUSH_CHANNELS, PushFields) { RowsOnly(PUSH_CHANNELS, PushFields, f); }
    if f in Rows(SCHED_TASKS, TaskFields) { RowsOnly(SCHED_TASKS, TaskFields, f); }
    forall i: nat ensures f in WifiFields(i) ==> (f == WifiSsid(i) || f == WifiPass(i)) { RowIs(i, f); }
    forall i: nat ensures f in SimFields(i) ==> f.SimField? && f.i == i { RowIs(i, f); }
    forall i: nat ensures f in PushFields(i) ==> f.PushField? && f.i == i { RowIs(i, f); }
    forall i: nat ensures f in TaskFields(i) ==> f.TaskField? && f.i == i { RowIs(i, f); }
  }

  lemma InItsRow(f: Field)
    requires InArray(f)
    ensures match f
      case WifiSsid(i) => f in WifiFields(i)
      case WifiPass(i) => f in WifiFields(i)
      case SimField(i, _) => f in SimFields(i)
      case PushField(i, _) => f in PushFields(i)
      case TaskField(i, _) => f in TaskFields(i)
  {
    match f
    case SimField(i, p) => assert SimFields(i)[SimIndex(p)] == f;
    case PushField(i, p) => assert PushFields(i)[PushIndex(p)] == f;
    case TaskField(i, p) => assert TaskFields(i)[TaskIndex(p)] == f;
    case _ =>
  }

  function SimIndex(p: SimPart): nat {
    match p case Iccid => 0 case Pin => 1 case Puk => 2 case PinMax => 3 case PukMax => 4 case PinFail => 5
    case PukFail => 6
  }

  function PushIndex(p: PushPart): nat {
    match p
    case Enabled => 0 case ChannelKind => 1 case Url => 2 case Name => 3 case Key1 => 4 case Key2 => 5 case Body => 6
    case CellularEnabled => 7 case CellularUrl => 8
  }

  function TaskIndex(p: TaskPart): nat {
    match p
    case Enable => 0 case TaskName => 1 case Profile => 2 case Back => 3 case Days => 4 case Act => 5 case Target => 6
    case Payload => 7 case LastRun => 8
  }

  lemma RowIs(i: nat, f: Field)
    ensures f in WifiFields(i) ==> (f == WifiSsid(i) || f == WifiPass(i))
    ensures f in SimFields(i) ==> f.SimField? && f.i == i
    ensures f in PushFields(i) ==> f.PushField? && f.i == i
    ensures f in TaskFields(i) ==> f.TaskField? && f.i == i
  {
  }
}
