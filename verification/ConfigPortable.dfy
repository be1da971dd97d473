/**
 * Portable backups: what one device exports, and what another one keeps of its own when
 * it takes such a backup in.
 */
module ConfigPortable {
  import opened Bytes
  import opened ConfigTypes
  import opened ConfigWire
  import opened ConfigCodec
  import opened ConfigRoundTrip
  import opened ConfigBlob

  datatype Export = Exported(output: seq<byte>) | TooSmall | BadConfig

  datatype Restore = Restored(config: Config) | RestoreInvalid | UnsupportedVersion

  function Min(a: nat, b: nat): nat { if a <= b then a else b }

  function ExportSchema(c: Config): u16 { if RequiresV7(c) then 7 else 6 }

  function ExportValues(c: Config): seq<Value> { Values(Portable(c), RequiresV7(c), true) }

  /** The backup fits a buffer of this size. */
  predicate ExportFits(source: Config, capacity: nat) {
    && HEADER_BYTES + |WireAll(ExportValues(source))| <= Min(capacity, MAX_BLOB_SIZE)
    && forall v | v in ExportValues(source) :: Prefixed(v)
  }

  /** The encoder of a backup fills a buffer of a given size, or leaves nothing in it. */
  method EncodePortable(source: Config, capacity: nat) returns (r: Export)
    requires Sized(source)
    ensures r.Exported? <==> SemanticallyValid(source, true) && ExportFits(source, capacity)
    ensures r.BadConfig? ==> !SemanticallyValid(source, true)
    ensures r.TooSmall? ==> !ExportFits(source, capacity)
    ensures r.Exported? ==> r.output == Blob(ExportSchema(source), 0, WireAll(ExportValues(source)))
  {
    hide SemanticallyValid, RequiresV7, Values, WireAll, Crc32, Sized, Writer.Valid, Little, Portable, Prefixed;
    if capacity < HEADER_BYTES { return TooSmall; }
    if !SemanticallyValid(source, true) { return BadConfig; }
    var usable := Min(capacity, MAX_BLOB_SIZE);
    var writer := new Writer(Some(usable - HEADER_BYTES));
    var useV7 := RequiresV7(source);
    EncodeFields(source, writer, true, true, useV7);
    BufferWriter(writer);
    if !writer.ok { return TooSmall; }
    var payload := writer.output;
    var crc := ComputeCrc32(payload);
    r := Exported(Little(CONFIG_MAGIC, 4) + Little(if useV7 then 7 else 6, 2) + Little(0, 2) + Little(0, 4)
                  + Little(|payload|, 4) + Little(crc, 4) + payload);
  }

  /** The writer into a buffer agrees with the growing one whenever everything fits. */
  lemma BufferWriter(writer: Writer)
    requires writer.Valid() && writer.capacity.Some?
    ensures writer.ok <==>
      |WireAll(writer.written)| <= writer.capacity.value && forall v | v in writer.written :: Prefixed(v)
    ensures writer.ok ==> writer.output == WireAll(writer.written)
  {
    hide WireAll, Prefixed;
  }

  // ----- taking a backup in -----

  function WithCellular(h: Channel, from: Channel): Channel {
    h.(cellularEnabled := from.cellularEnabled, cellularUrl := from.cellularUrl)
  }

  function CellularFrom(hs: seq<Channel>, from: seq<Channel>): (r: seq<Channel>)
    requires |hs| == |from|
    ensures |r| == |hs|
  {
    seq(|hs|, i requires 0 <= i < |hs| => WithCellular(hs[i], from[i]))
  }

  function WithProfile(t: Task, from: Task): Task { t.(profile := from.profile, lastRun := from.lastRun) }

  function ProfilesFrom(ts: seq<Task>, from: seq<Task>): seq<Task>
    requires |ts| == |from|
  {
    seq(|ts|, i requires 0 <= i < |ts| => WithProfile(ts[i], from[i]))
  }

  /** The fields that belong to the device and not to the backup. */
  function DeviceFrom(c: Config, target: Config): Config
    requires Sized(c) && Sized(target)
  {
    c.(deviceName := target.deviceName, hostname := target.hostname, webAccounts := target.webAccounts,
       txPower := target.txPower, kaProfile := target.kaProfile, kaLastTime := target.kaLastTime,
       roamingEnabled := target.roamingEnabled, phoneNumber := target.phoneNumber,
       simCredentials := target.simCredentials, schedTasks := ProfilesFrom(c.schedTasks, target.schedTasks))
  }

  /** What a restore makes of the source of a backup and the device that takes it in. */
  function Merged(source: Config, target: Config): Config
    requires Sized(source) && Sized(target)
  {
    var c := if RequiresV7(source) then source
             else source.(pushChannels := CellularFrom(source.pushChannels, target.pushChannels));
    Normal(DeviceFrom(c, target))
  }

  /** The fields that came with schema 4. */
  function SchemaFourFrom(c: Config, target: Config): (r: Config)
    requires Sized(c) && Sized(target)
    ensures Sized(r)
  {
    c.(wifiNetworks := target.wifiNetworks, networkMode := target.networkMode,
       heartbeatEnable := target.heartbeatEnable, heartbeatInterval := target.heartbeatInterval)
  }

  /** The fields that came with schema 5. */
  function SchemaFiveFrom(c: Config, target: Config): (r: Config)
    requires Sized(c) && Sized(target)
    ensures Sized(r)
  {
    c.(emailEnabled := target.emailEnabled, pushEnabled := target.pushEnabled, forwardRules := target.forwardRules,
       kaEnabled := target.kaEnabled, kaIntervalDays := target.kaIntervalDays, kaAction := target.kaAction,
       kaTarget := target.kaTarget, kaUrl := target.kaUrl, tzOffsetMin := target.tzOffsetMin,
       ntpServer := target.ntpServer, rebootEnabled := target.rebootEnabled, rebootHour := target.rebootHour,
       smsHealthEnabled := target.smsHealthEnabled, smsHealthHour := target.smsHealthHour,
       smsHealthNotify := target.smsHealthNotify, netLedEnabled := target.netLedEnabled,
       callNotifyEnabled := target.callNotifyEnabled, dataEnabled := target.dataEnabled,
       apn := target.apn, operatorPlmn := target.operatorPlmn, schedTasks := target.schedTasks)
  }

  function BeforeSix(c: Config, schema: nat, target: Config): (r: Config)
    requires Sized(c) && Sized(target)
    ensures Sized(r)
  {
    var four := if schema < 4 then SchemaFourFrom(c, target) else c;
    var five := if schema < 5 then SchemaFiveFrom(four, target) else four;
    if schema < 6 then five.(kaTrafficKB := target.kaTrafficKB) else five
  }

  /** What a backup has no fields for comes from the target. */
  function Filled(c: Config, schema: nat, target: Config): (r: Config)
    requires Sized(c) && Sized(target)
    ensures Sized(r)
  {
    var six := BeforeSix(c, schema, target);
    if schema < 7 then six.(pushChannels := CellularFrom(six.pushChannels, target.pushChannels)) else six
  }

  method FillBeforeSix(value: Config, schema: nat, target: Config) returns (c: Config)
    requires Sized(value) && Sized(target)
    ensures c == BeforeSix(value, schema, target)
  {
    hide Sized, SchemaFourFrom, SchemaFiveFrom;
    c := value;
    if schema < 4 { c := SchemaFourFrom(c, target); }
    if schema < 5 { c := SchemaFiveFrom(c, target); }
    if schema < 6 {
      SizedAside(c, target.kaTrafficKB);
      c := c.(kaTrafficKB := target.kaTrafficKB);
    }
  }

  lemma SizedAside(c: Config, traffic: int)
    requires Sized(c)
    ensures Sized(c.(kaTrafficKB := traffic))
  {
  }

  method CellularOf(hs: seq<Channel>, from: seq<Channel>) returns (channels: seq<Channel>)
    requires |hs| == |from|
    ensures channels == CellularFrom(hs, from)
  {
    channels := [];
    while |channels| < |hs|
      invariant |channels| <= |hs|
      invariant forall i :: 0 <= i < |channels| ==> channels[i] == WithCellular(hs[i], from[i])
    {
      channels := channels + [WithCellular(hs[|channels|], from[|channels|])];
    }
  }

  /** The fields that older schemas do not have come from the target. */
  method FillOlder(value: Config, schema: nat, target: Config) returns (c: Config)
    requires Sized(value) && Sized(target)
    ensures c == Filled(value, schema, target)
  {
    c := FillBeforeSix(value, schema, target);
    if schema < 7 {
      var channels := CellularOf(c.pushChannels, target.pushChannels);
      c := c.(pushChannels := channels);
    }
  }

  /** The fields of the device, and the mirrors that follow them. */
  method KeepDevice(value: Config, target: Config) returns (c: Config)
    requires Sized(value) && Sized(target)
    ensures c == SyncMirrors(DeviceFrom(value, target))
  {
    c := value.(deviceName := target.deviceName, hostname := target.hostname, webAccounts := target.webAccounts,
                txPower := target.txPower, kaProfile := target.kaProfile, kaLastTime := target.kaLastTime,
                roamingEnabled := target.roamingEnabled, phoneNumber := target.phoneNumber,
                simCredentials := target.simCredentials);
    var tasks := [];
    while |tasks| < |c.schedTasks|
      invariant |tasks| <= |c.schedTasks|
      invariant forall i :: 0 <= i < |tasks| ==> tasks[i] == WithProfile(c.schedTasks[i], target.schedTasks[i])
    {
      tasks := tasks + [WithProfile(c.schedTasks[|tasks|], target.schedTasks[|tasks|])];
    }
    assert tasks == ProfilesFrom(c.schedTasks, target.schedTasks);
    c := SyncMirrors(c.(schedTasks := tasks));
  }

  /** What a backup is, to the device that takes it in. */
  ghost function RestoreOf(legacy: Legacy, bytes: seq<byte>, target: Config): Restore
    requires Sized(target)
  {
    match Decode(legacy, bytes)
    case Unsupported(_) => UnsupportedVersion
    case Invalid => RestoreInvalid
    case Valid(c, schema, generation) =>
      if generation != 0 || !Sized(c) then RestoreInvalid else
        var merged := SyncMirrors(DeviceFrom(Filled(c, schema, target), target));
        if SemanticallyValid(merged, false) then Restored(merged) else RestoreInvalid
  }

  /** Backups of any schema. The device keeps what is its own. */
  method DecodePortable(legacy: Legacy, bytes: seq<byte>, target: Config) returns (r: Restore)
    requires Sized(target)
    requires forall schema: nat, payload: seq<byte> ::
      legacy(schema, payload).Some? ==> Sized(legacy(schema, payload).value)
    ensures r == RestoreOf(legacy, bytes, target)
    ensures r.Restored? ==> SemanticallyValid(r.config, false)
  {
    hide Decode, SemanticallyValid, Sized, SyncMirrors, DeviceFrom;
    var d := DecodeBlob(bytes, legacy);
    if d.Unsupported? { return UnsupportedVersion; }
    if !d.Valid? || d.generation != 0 { return RestoreInvalid; }
    DecodedIsSized(legacy, bytes);
    var c := FillOlder(d.config, d.schema, target);
    c := KeepDevice(c, target);
    if !SemanticallyValid(c, false) { return RestoreInvalid; }
    return Restored(c);
  }

  lemma DecodedIsSized(legacy: Legacy, bytes: seq<byte>)
    requires Decode(legacy, bytes).Valid?
    requires forall schema: nat, payload: seq<byte> ::
      legacy(schema, payload).Some? ==> Sized(legacy(schema, payload).value)
    ensures Sized(Decode(legacy, bytes).config) && Decode(legacy, bytes).schema <= 7
  {
    hide SemanticallyValid, Sized, FitsAll, Values, Layout, WireAll, Normal, RequiresV7, Get16, Get32, Crc32;
    var d := Decode(legacy, bytes);
    if d.schema >= 6 { assert HeldAs(d.config, d.schema, bytes[HEADER_BYTES..]); }
  }

  // ----- a backup of a device, taken in by a device -----

  lemma {:induction false} PlainAsciiIsUtf8(s: text, i: nat)
    requires i <= |s| && forall b | b in s :: b <= 0x7F
    ensures Utf8From(s, i)
    decreases |s| - i
  {
    if i < |s| {
      assert s[i] in s;
      PlainAsciiIsUtf8(s, i + 1);
    }
  }

  lemma PlaceholdersAreValid()
    ensures PortableName() != [] && Bounded(PortableName(), 64) && HostnameValid(PortableHost())
    ensures forall n: nat :: Bounded([], n)
  {
    hide Utf8From;
    var n, h := PortableName(), PortableHost();
    assert n == [0x50, 0x6F, 0x72, 0x74, 0x61, 0x62, 0x6C, 0x65, 0x20, 0x62, 0x61, 0x63, 0x6B, 0x75, 0x70];
    PlainAsciiIsUtf8(n, 0);
    PlainAsciiIsUtf8([], 0);
    assert h == [0x70, 0x6F, 0x72, 0x74, 0x61, 0x62, 0x6C, 0x65, 0x2D, 0x62, 0x61, 0x63, 0x6B, 0x75, 0x70];
  }

  lemma PortableNumbers(c: Config)
    requires NumbersValid(c, true)
    ensures NumbersValid(Portable(c), false)
  {
    hide Ascii, TrafficValid;
  }

  lemma PortableTexts(c: Config)
    requires TextsValid(c, true)
    ensures TextsValid(Portable(c), false)
  {
    hide PortableName, PortableHost, Bounded, BoundedLines, HostnameValid, LocaleValid;
    PlaceholdersAreValid();
  }

  lemma PortableArrays(c: Config)
    requires ArraysValid(c, true)
    ensures ArraysValid(Portable(c), false)
  {
    hide PortableName, PortableHost, Bounded, ChannelValid, WifiValid, DigitsOnly;
    PlaceholdersAreValid();
    var p := Portable(c);
    forall t | t in p.schedTasks ensures TaskValid(t, false) {
      var i :| 0 <= i < |p.schedTasks| && p.schedTasks[i] == t;
      assert TaskValid(c.schedTasks[i], true);
    }
  }

  /** Without what belongs to the device, a configuration is still one that may be stored. */
  lemma PortableIsValid(c: Config)
    requires Sized(c) && SemanticallyValid(c, true)
    ensures Sized(Portable(c)) && SemanticallyValid(Portable(c), false) && RequiresV7(Portable(c)) == RequiresV7(c)
  {
    hide NumbersValid, TextsValid, ArraysValid, DefaultCellular, Ascii;
    PortableNumbers(c);
    PortableTexts(c);
    PortableArrays(c);
  }

  lemma MergedNumbers(c: Config, target: Config)
    requires Sized(c) && Sized(target) && NumbersValid(c, true) && NumbersValid(target, false)
    ensures NumbersValid(DeviceFrom(c, target), false)
  {
    hide TrafficValid, TxPowerValid, ProfilesFrom;
  }

  lemma MergedTexts(c: Config, target: Config)
    requires Sized(c) && Sized(target) && TextsValid(c, true) && TextsValid(target, false)
    ensures TextsValid(DeviceFrom(c, target), false)
  {
    hide Bounded, BoundedLines, HostnameValid, LocaleValid, ProfilesFrom;
  }

  lemma MergedArrays(c: Config, target: Config)
    requires Sized(c) && Sized(target) && ArraysValid(c, true) && ArraysValid(target, false)
    ensures ArraysValid(DeviceFrom(c, target), false)
  {
    hide Bounded, ChannelValid, WifiValid, SimValid, AccountValid, SimsDistinct;
    var d := DeviceFrom(c, target);
    forall t | t in d.schedTasks ensures TaskValid(t, false) {
      var i :| 0 <= i < |d.schedTasks| && d.schedTasks[i] == t;
      assert TaskValid(c.schedTasks[i], true) && TaskValid(target.schedTasks[i], false);
    }
  }

  lemma CellularArrays(c: Config, target: Config)
    requires Sized(c) && Sized(target) && SemanticallyValid(c, true) && ArraysValid(target, false)
    ensures var d := c.(pushChannels := CellularFrom(c.pushChannels, target.pushChannels));
            Sized(d) && SemanticallyValid(d, true)
  {
    hide Bounded, BoundedLines, WifiValid, SimValid, AccountValid, TaskValid, LocaleValid, TrafficValid;
    var d := c.(pushChannels := CellularFrom(c.pushChannels, target.pushChannels));
    forall h | h in d.pushChannels ensures ChannelValid(h) {
      var i :| 0 <= i < |d.pushChannels| && d.pushChannels[i] == h;
      assert ChannelValid(c.pushChannels[i]) && ChannelValid(target.pushChannels[i]);
    }
  }

  /** What a restore leaves on the device may be stored there. */
  lemma MergedIsValid(source: Config, target: Config)
    requires Sized(source) && Sized(target) && SemanticallyValid(source, true) && SemanticallyValid(target, false)
    ensures SemanticallyValid(Merged(source, target), false)
  {
    hide NumbersValid, TextsValid, ArraysValid, RequiresV7, Normal;
    var c := if RequiresV7(source) then source
             else source.(pushChannels := CellularFrom(source.pushChannels, target.pushChannels));
    if !RequiresV7(source) { CellularArrays(source, target); }
    MergedNumbers(c, target);
    MergedTexts(c, target);
    MergedArrays(c, target);
    NormalIsStored(DeviceFrom(c, target));
  }

  /** What the decoder gives back of a backup, before the device adds its own fields. */
  function Backup(source: Config): Config
    requires Sized(source)
  {
    Normal(Portable(source))
  }

  lemma BackupFields(source: Config)
    requires Sized(source)
    ensures var b := Backup(source);
            && Sized(b) && b.pushChannels == source.pushChannels && b.wifiNetworks == source.wifiNetworks
            && b.unstored == Mirrored(Fresh(), b.hostname, b.heartbeatEnable, NO_ACCOUNT)
  {
    hide Fresh, Ascii;
  }

  lemma SameTasks(source: Config, target: Config)
    requires Sized(source) && Sized(target)
    ensures ProfilesFrom(Backup(source).schedTasks, target.schedTasks)
      == ProfilesFrom(source.schedTasks, target.schedTasks)
  {
    hide Ascii;
  }

  /** The device's own fields cover exactly what a backup leaves out. */
  lemma DeviceCovers(source: Config, target: Config)
    requires Sized(source) && Sized(target)
    ensures Sized(Backup(source))
    ensures SyncMirrors(DeviceFrom(Backup(source), target)) == Normal(DeviceFrom(source, target))
  {
    hide Fresh, Ascii, ProfilesFrom;
    BackupFields(source);
    SameTasks(source, target);
  }

  lemma CellularCovers(source: Config, target: Config)
    requires Sized(source) && Sized(target)
    ensures |source.pushChannels| == |target.pushChannels|
    ensures var channels := CellularFrom(source.pushChannels, target.pushChannels);
            && Sized(source.(pushChannels := channels))
            && Backup(source).(pushChannels := channels) == Backup(source.(pushChannels := channels))
  {
    hide Normal, Portable, CellularFrom;
    var channels := CellularFrom(source.pushChannels, target.pushChannels);
    PortableChannels(source, channels);
    NormalChannels(Portable(source), channels);
  }

  lemma PortableChannels(c: Config, channels: seq<Channel>)
    requires Sized(c)
    ensures Portable(c.(pushChannels := channels)) == Portable(c).(pushChannels := channels)
    ensures Portable(c).webAccounts != []
  {
    hide Ascii;
  }

  lemma NormalChannels(c: Config, channels: seq<Channel>)
    requires c.webAccounts != []
    ensures Normal(c.(pushChannels := channels)) == Normal(c).(pushChannels := channels)
  {
    hide Fresh;
  }

  /**
   * Restoring what a device has exported gives the source's portable fields and the
   * target's own ones, if and only if the keep-alive texts of the source are bounded; a
   * backup that was written without that is refused. The cellular fields are the source's
   * if the source needed schema 7, and the target's if not.
   */
  lemma ExportThenRestore(legacy: Legacy, source: Config, target: Config, capacity: nat)
    requires Sized(source) && Sized(target) && SemanticallyValid(source, true) && SemanticallyValid(target, false)
    ensures KeepaliveBounded(Portable(source)) ==> ExportFits(source, MAX_BLOB_SIZE)
    ensures ExportFits(source, capacity) ==>
      RestoreOf(legacy, Blob(ExportSchema(source), 0, WireAll(ExportValues(source))), target)
        == if KeepaliveBounded(Portable(source)) then Restored(Merged(source, target)) else RestoreInvalid
  {
    hide SemanticallyValid, RequiresV7, Values, WireAll, KeepaliveBounded, Sized, Normal, Portable, Decode, Encoded,
      DeviceFrom, SyncMirrors, CellularFrom;
    var p, schema := Portable(source), ExportSchema(source);
    PortableIsValid(source);
    if KeepaliveBounded(p) {
      BoundedIsEncodable(p);
      ShortIsPrefixed(ExportValues(source));
    }
    if KeepaliveBounded(p) || ExportFits(source, capacity) {
      EncodedDecodes(legacy, p, schema, 0);
      EncodedIs(p, schema);
    }
    MergedIsValid(source, target);
    CellularCovers(source, target);
    BackupIs(source);
    if RequiresV7(source) {
      DeviceCovers(source, target);
    } else {
      DeviceCovers(source.(pushChannels := CellularFrom(source.pushChannels, target.pushChannels)), target);
    }
  }

  lemma BackupIs(source: Config)
    requires Sized(source)
    ensures Portable(source).webAccounts != [] && Normal(Portable(source)) == Backup(source)
    ensures Backup(source).pushChannels == source.pushChannels && Sized(Backup(source))
  {
    hide Ascii;
  }

  lemma EncodedIs(p: Config, schema: u16)
    ensures Encoded(p, schema, 0) == Blob(schema, 0, WireAll(Values(p, schema == 7, true)))
  {
  }

  lemma OwnFields(c: Config)
    requires Sized(c)
    ensures DeviceFrom(c, c) == c
  {
    assert ProfilesFrom(c.schedTasks, c.schedTasks) == c.schedTasks;
  }

  lemma OwnCellular(c: Config)
    requires Sized(c)
    ensures c.(pushChannels := CellularFrom(c.pushChannels, c.pushChannels)) == c
  {
    assert CellularFrom(c.pushChannels, c.pushChannels) == c.pushChannels;
  }

  /** A device that takes its own backup in is left as it was, as far as it is stored. */
  lemma OwnBackup(c: Config)
    requires Sized(c)
    ensures Merged(c, c) == Normal(c)
  {
    hide Normal, RequiresV7, DeviceFrom, CellularFrom;
    OwnFields(c);
    OwnCellular(c);
  }
}
