/** What a backup says of the device that made it, and what a restore leaves of both devices: field by field. */
module ConfigBackup {
  import opened Bytes
  import opened ConfigTypes
  import opened ConfigWire
  import opened ConfigCodec
  import opened ConfigSchema
  import opened ConfigRoundTrip
  import opened ConfigBlob
  import opened ConfigPortable

  // ----- the fields of both kinds -----

  predicate SameCellular(x: Channel, y: Channel) {
    x.cellularEnabled == y.cellularEnabled && x.cellularUrl == y.cellularUrl
  }

  predicate SameChannel(x: Channel, y: Channel, cellular: bool) {
    && x.enabled == y.enabled && x.kind == y.kind && x.name == y.name && x.url == y.url
    && x.key1 == y.key1 && x.key2 == y.key2
    && x.titleTemplate == y.titleTemplate && x.bodyTemplate == y.bodyTemplate && x.customBody == y.customBody
    && (cellular ==> SameCellular(x, y))
  }

  predicate SamePlan(x: Task, y: Task) {
    && x.enabled == y.enabled && x.name == y.name && x.switchBack == y.switchBack && x.intervalDays == y.intervalDays
    && x.action == y.action && x.target == y.target && x.payload == y.payload
  }

  predicate SameMail(a: Config, b: Config) {
    && a.smtpPort == b.smtpPort && a.smtpServer == b.smtpServer && a.smtpUser == b.smtpUser && a.smtpPass == b.smtpPass
    && a.smtpSendTo == b.smtpSendTo && a.adminPhone == b.adminPhone && a.numberBlackList == b.numberBlackList
    && a.notificationLocale == b.notificationLocale
  }

  /** The fields that came with schema 4. */
  predicate SameNetwork(a: Config, b: Config) {
    && a.wifiNetworks == b.wifiNetworks && a.networkMode == b.networkMode && a.heartbeatEnable == b.heartbeatEnable
    && a.heartbeatInterval == b.heartbeatInterval
  }

  /** The fields that came with schema 5, but for the tasks. */
  predicate SameClock(a: Config, b: Config) {
    && a.emailEnabled == b.emailEnabled && a.pushEnabled == b.pushEnabled && a.forwardRules == b.forwardRules
    && a.kaEnabled == b.kaEnabled && a.kaIntervalDays == b.kaIntervalDays && a.kaAction == b.kaAction
    && a.kaTarget == b.kaTarget && a.kaUrl == b.kaUrl && a.tzOffsetMin == b.tzOffsetMin && a.ntpServer == b.ntpServer
    && a.rebootEnabled == b.rebootEnabled && a.rebootHour == b.rebootHour
    && a.smsHealthEnabled == b.smsHealthEnabled && a.smsHealthHour == b.smsHealthHour
    && a.smsHealthNotify == b.smsHealthNotify && a.netLedEnabled == b.netLedEnabled
    && a.callNotifyEnabled == b.callNotifyEnabled && a.dataEnabled == b.dataEnabled && a.apn == b.apn
    && a.operatorPlmn == b.operatorPlmn
  }

  predicate SameScalars(a: Config, b: Config) {
    SameMail(a, b) && SameNetwork(a, b) && SameClock(a, b) && a.kaTrafficKB == b.kaTrafficKB
  }

  predicate SameChannels(a: Config, b: Config, cellular: bool)
    requires Sized(a) && Sized(b)
  {
    forall i | 0 <= i < PUSH_CHANNELS :: SameChannel(a.pushChannels[i], b.pushChannels[i], cellular)
  }

  predicate SamePlans(a: Config, b: Config)
    requires Sized(a) && Sized(b)
  {
    forall i | 0 <= i < SCHED_TASKS :: SamePlan(a.schedTasks[i], b.schedTasks[i])
  }

  predicate SameRoutes(a: Config, b: Config)
    requires Sized(a) && Sized(b)
  {
    forall i | 0 <= i < PUSH_CHANNELS :: SameCellular(a.pushChannels[i], b.pushChannels[i])
  }

  predicate SameRows(a: Config, b: Config, cellular: bool)
    requires Sized(a) && Sized(b)
  {
    SameChannels(a, b, cellular) && SamePlans(a, b)
  }

  /** Everything that is meant for another device too. */
  predicate SamePortable(a: Config, b: Config, cellular: bool)
    requires Sized(a) && Sized(b)
  {
    SameScalars(a, b) && SameRows(a, b, cellular)
  }

  /** Everything that belongs to one device. */
  predicate SameOwn(a: Config, b: Config)
    requires Sized(a) && Sized(b)
  {
    && a.deviceName == b.deviceName && a.hostname == b.hostname && a.webAccounts == b.webAccounts
    && a.txPower == b.txPower && a.kaProfile == b.kaProfile && a.kaLastTime == b.kaLastTime
    && a.roamingEnabled == b.roamingEnabled && a.phoneNumber == b.phoneNumber && a.simCredentials == b.simCredentials
    && (forall i | 0 <= i < SCHED_TASKS ::
      a.schedTasks[i].profile == b.schedTasks[i].profile && a.schedTasks[i].lastRun == b.schedTasks[i].lastRun)
  }

  /** There are no other fields, but for those that are not stored. */
  lemma NothingElse(a: Config, b: Config)
    requires Sized(a) && Sized(b) && SamePortable(a, b, true) && SameOwn(a, b)
    ensures a == b.(unstored := a.unstored)
  {
    SameLists(a, b);
  }

  lemma SameLists(a: Config, b: Config)
    requires Sized(a) && Sized(b) && SameRows(a, b, true) && SameOwn(a, b)
    ensures a.pushChannels == b.pushChannels && a.schedTasks == b.schedTasks
  {
    forall i | 0 <= i < PUSH_CHANNELS ensures a.pushChannels[i] == b.pushChannels[i] {
      assert SameChannel(a.pushChannels[i], b.pushChannels[i], true);
    }
    forall i | 0 <= i < SCHED_TASKS ensures a.schedTasks[i] == b.schedTasks[i] {
      assert SamePlan(a.schedTasks[i], b.schedTasks[i]);
    }
  }

  // ----- what a backup says -----

  lemma MailKept(c: Config)
    ensures SameScalars(c, Portable(c))
  {
    hide PortableName, PortableHost;
  }

  lemma RowsKept(c: Config)
    requires Sized(c)
    ensures Sized(Portable(c)) && SameRows(c, Portable(c), true)
  {
    hide PortableName, PortableHost;
  }

  lemma OwnGone(a: Config, b: Config)
    requires Sized(a) && Sized(b)
    ensures Sized(Portable(a)) && Sized(Portable(b)) && SameOwn(Portable(a), Portable(b))
  {
    hide PortableName, PortableHost;
  }

  lemma MailOn(a: Config, b: Config, c: Config)
    ensures SameMail(a, b) ==> SameMail(b, a) && (SameMail(b, c) ==> SameMail(a, c))
    ensures SameNetwork(a, b) ==> SameNetwork(b, a) && (SameNetwork(b, c) ==> SameNetwork(a, c))
  {
  }

  lemma ClockOn(a: Config, b: Config, c: Config)
    ensures SameClock(a, b) ==> SameClock(b, a) && (SameClock(b, c) ==> SameClock(a, c))
  {
  }

  lemma ScalarsOn(a: Config, b: Config, c: Config)
    ensures SameScalars(a, b) ==> SameScalars(b, a) && (SameScalars(b, c) ==> SameScalars(a, c))
  {
    hide SameMail, SameNetwork, SameClock;
    MailOn(a, b, c);
    ClockOn(a, b, c);
  }

  lemma MailAround(a: Config, b: Config, c: Config, d: Config)
    requires SameScalars(a, c) && SameScalars(b, d)
    ensures SameScalars(a, b) == SameScalars(c, d)
  {
    hide SameScalars;
    if SameScalars(a, b) {
      ScalarsOn(a, c, c);
      ScalarsOn(c, a, b);
      ScalarsOn(c, b, d);
    }
    if SameScalars(c, d) {
      ScalarsOn(a, c, d);
      ScalarsOn(b, d, b);
      ScalarsOn(a, d, b);
    }
  }

  lemma RowsAround(a: Config, b: Config, c: Config, d: Config, cellular: bool)
    requires Sized(a) && Sized(b) && Sized(c) && Sized(d) && SameRows(a, c, true) && SameRows(b, d, true)
    ensures SameRows(a, b, cellular) == SameRows(c, d, cellular)
  {
    hide Sized;
    if SameRows(a, b, cellular) { RowsAlong(a, b, c, d, cellular); }
    if SameRows(c, d, cellular) {
      RowsBack(a, c);
      RowsBack(b, d);
      RowsAlong(c, d, a, b, cellular);
    }
  }

  lemma RowsBack(a: Config, b: Config)
    requires Sized(a) && Sized(b) && SameRows(a, b, true)
    ensures SameRows(b, a, true)
  {
    forall i | 0 <= i < PUSH_CHANNELS ensures SameChannel(b.pushChannels[i], a.pushChannels[i], true) {
      assert SameChannel(a.pushChannels[i], b.pushChannels[i], true);
    }
    forall i | 0 <= i < SCHED_TASKS ensures SamePlan(b.schedTasks[i], a.schedTasks[i]) {
      assert SamePlan(a.schedTasks[i], b.schedTasks[i]);
    }
  }

  lemma RowsAlong(a: Config, b: Config, c: Config, d: Config, cellular: bool)
    requires Sized(a) && Sized(b) && Sized(c) && Sized(d) && SameRows(a, c, true) && SameRows(b, d, true)
    requires SameRows(a, b, cellular)
    ensures SameRows(c, d, cellular)
  {
    forall i | 0 <= i < PUSH_CHANNELS ensures SameChannel(c.pushChannels[i], d.pushChannels[i], cellular) {
      assert SameChannel(a.pushChannels[i], c.pushChannels[i], true)
        && SameChannel(b.pushChannels[i], d.pushChannels[i], true);
      assert SameChannel(a.pushChannels[i], b.pushChannels[i], cellular);
    }
    forall i | 0 <= i < SCHED_TASKS ensures SamePlan(c.schedTasks[i], d.schedTasks[i]) {
      assert SamePlan(a.schedTasks[i], c.schedTasks[i]) && SamePlan(b.schedTasks[i], d.schedTasks[i]);
      assert SamePlan(a.schedTasks[i], b.schedTasks[i]);
    }
  }

  /** What of the configurations themselves is the same is what of their backups is. */
  lemma BackupsSame(a: Config, b: Config, cellular: bool)
    requires Sized(a) && Sized(b)
    ensures Sized(Portable(a)) && Sized(Portable(b))
    ensures SamePortable(a, b, cellular) == SamePortable(Portable(a), Portable(b), cellular)
  {
    hide Sized, Portable, SameScalars, SameRows;
    MailKept(a);
    MailKept(b);
    RowsKept(a);
    RowsKept(b);
    MailAround(a, b, Portable(a), Portable(b));
    RowsAround(a, b, Portable(a), Portable(b), cellular);
  }

  /** Without what belongs to a device, two configurations are the same exactly if the rest of them is. */
  lemma PortableSame(a: Config, b: Config)
    requires Sized(a) && Sized(b)
    ensures Sized(Portable(a)) && Sized(Portable(b))
    ensures SamePortable(a, b, true) <==> Portable(a) == Portable(b).(unstored := Portable(a).unstored)
  {
    hide Portable, Sized, SamePortable, SameOwn;
    BackupsSame(a, b, true);
    OwnGone(a, b);
    var p, q := Portable(a), Portable(b);
    if SamePortable(p, q, true) { NothingElse(p, q); }
    if p == q.(unstored := p.unstored) { SameButUnstored(q, p.unstored); }
  }

  lemma SameButUnstored(c: Config, u: Unstored)
    requires Sized(c)
    ensures Sized(c.(unstored := u)) && SamePortable(c.(unstored := u), c, true)
  {
  }

  lemma ValuesUnstored(c: Config, u: Unstored, cellular: bool)
    ensures Values(c.(unstored := u), cellular, true) == Values(c, cellular, true)
  {
    hide Identity, Mail, FirstArrays, Plain, LastArrays;
    UnstoredAside(c, u, cellular);
    assert Traffic(c.(unstored := u), true) == Traffic(c, true);
  }

  /** A stored configuration is determined by what is written of it. */
  lemma ValuesTell(p: Config, q: Config, cellular: bool)
    requires Sized(p) && Sized(q) && SemanticallyValid(p, false) && SemanticallyValid(q, false)
    requires !cellular ==> !RequiresV7(p) && !RequiresV7(q)
    requires Values(p, cellular, true) == Values(q, cellular, true)
    ensures p == q.(unstored := p.unstored)
  {
    hide SemanticallyValid, RequiresV7, Values, OldValues, InRange, Normal;
    var x, y := Normal(p), Normal(q);
    NormalIsStored(p);
    NormalIsStored(q);
    NormalValues(p, cellular);
    NormalValues(q, cellular);
    ValidInRange(x, false);
    ValidInRange(y, false);
    TrafficSplit(x, y, cellular);
    OldValuesUnique(x, y, cellular);
    StoredOf(p);
    StoredOf(q);
  }

  lemma StoredOf(c: Config)
    requires c.webAccounts != []
    ensures Normal(c).(unstored := c.unstored) == c
  {
    hide Fresh;
  }

  /**
   * Two devices write the same backup if and only if they agree on everything that is meant for another device: it
   * says nothing of what belongs to one.
   */
  lemma BackupTells(a: Config, b: Config)
    requires Sized(a) && Sized(b) && SemanticallyValid(a, true) && SemanticallyValid(b, true)
    requires RequiresV7(a) == RequiresV7(b)
    ensures ExportValues(a) == ExportValues(b) <==> SamePortable(a, b, true)
  {
    hide SemanticallyValid, RequiresV7, Values, Portable, SamePortable, Sized;
    PortableSame(a, b);
    PortableIsValid(a);
    PortableIsValid(b);
    var p, q := Portable(a), Portable(b);
    if SamePortable(a, b, true) { ValuesUnstored(q, p.unstored, RequiresV7(a)); }
    if ExportValues(a) == ExportValues(b) { ValuesTell(p, q, RequiresV7(a)); }
  }

  // ----- what a restore leaves -----

  lemma SameRow(x: Channel, y: Channel)
    requires SameChannel(x, y, false)
    ensures ChannelRow(x, false) == ChannelRow(y, false)
  {
  }

  lemma {:induction false} SameMessageRows(a: seq<Channel>, b: seq<Channel>)
    requires |a| == |b| && forall i | 0 <= i < |a| :: SameChannel(a[i], b[i], false)
    ensures Channels(a, false) == Channels(b, false)
  {
    hide ChannelRow, SameChannel;
    if a != [] {
      var n := |a| - 1;
      SameMessageRows(a[..n], b[..n]);
      SameRow(a[n], b[n]);
    }
  }

  lemma ChannelsAside(c: Config, hs: seq<Channel>)
    requires Channels(hs, false) == Channels(c.pushChannels, false)
    ensures Values(c.(pushChannels := hs), false, true) == Values(c, false, true)
  {
    hide Rows, Channels;
  }

  lemma SameWritten(a: Config, b: Config, cellular: bool)
    requires Sized(a) && Sized(b) && SamePortable(a, b, cellular)
    ensures Values(Portable(a), cellular, true) == Values(Portable(b), cellular, true)
  {
    hide Values, Portable, SameScalars, SameChannel, SamePlan;
    if cellular {
      PortableSame(a, b);
      ValuesUnstored(Portable(b), Portable(a).unstored, true);
    } else {
      var d := b.(pushChannels := a.pushChannels);
      SameMessageRows(a.pushChannels, b.pushChannels);
      PortableChannels(b, a.pushChannels);
      KeptChannels(b);
      ChannelsAside(Portable(b), a.pushChannels);
      WithChannels(a, b);
      PortableSame(a, d);
      ValuesUnstored(Portable(d), Portable(a).unstored, false);
    }
  }

  lemma KeptChannels(c: Config)
    ensures Portable(c).pushChannels == c.pushChannels
  {
    hide PortableName, PortableHost;
  }

  lemma WithChannels(a: Config, b: Config)
    requires Sized(a) && Sized(b) && SamePortable(a, b, false)
    ensures Sized(b.(pushChannels := a.pushChannels)) && SamePortable(a, b.(pushChannels := a.pushChannels), true)
  {
  }

  lemma DeviceMail(c: Config, target: Config)
    requires Sized(c) && Sized(target)
    ensures SameScalars(DeviceFrom(c, target), c)
  {
  }

  lemma DeviceRows(c: Config, target: Config)
    requires Sized(c) && Sized(target)
    ensures Sized(DeviceFrom(c, target)) && SameRows(DeviceFrom(c, target), c, true)
    ensures SameOwn(DeviceFrom(c, target), target) && DeviceFrom(c, target).pushChannels == c.pushChannels
  {
  }

  lemma NormalFields(c: Config, target: Config)
    requires Sized(c) && Sized(target) && SameOwn(c, target)
    ensures Sized(Normal(c)) && SamePortable(Normal(c), c, true)
    ensures SameOwn(Normal(c), target) && Normal(c).pushChannels == c.pushChannels
  {
    hide Normal, Derived, SamePortable, SameOwn;
    NormalIs(c);
    SameButUnstored(c, Derived(c));
    OwnButUnstored(c, Derived(c), target);
  }

  lemma OwnButUnstored(c: Config, u: Unstored, target: Config)
    requires Sized(c) && Sized(target) && SameOwn(c, target)
    ensures Sized(c.(unstored := u)) && SameOwn(c.(unstored := u), target)
  {
  }

  lemma CellularFields(source: Config, target: Config)
    requires Sized(source) && Sized(target)
    ensures var c := source.(pushChannels := CellularFrom(source.pushChannels, target.pushChannels));
            Sized(c) && SamePortable(c, source, false)
  {
  }

  lemma SameOn(a: Config, b: Config, c: Config, cellular: bool)
    requires Sized(a) && Sized(b) && Sized(c) && SamePortable(a, b, true) && SamePortable(b, c, cellular)
    ensures SamePortable(a, c, cellular)
  {
    hide Sized;
    SameRowsOn(a, b, c, cellular);
  }

  lemma SameRowsOn(a: Config, b: Config, c: Config, cellular: bool)
    requires Sized(a) && Sized(b) && Sized(c) && SameRows(a, b, true) && SameRows(b, c, cellular)
    ensures SameRows(a, c, cellular)
  {
    forall i | 0 <= i < PUSH_CHANNELS ensures SameChannel(a.pushChannels[i], c.pushChannels[i], cellular) {
      assert SameChannel(a.pushChannels[i], b.pushChannels[i], true);
      assert SameChannel(b.pushChannels[i], c.pushChannels[i], cellular);
    }
    forall i | 0 <= i < SCHED_TASKS ensures SamePlan(a.schedTasks[i], c.schedTasks[i]) {
      assert SamePlan(a.schedTasks[i], b.schedTasks[i]) && SamePlan(b.schedTasks[i], c.schedTasks[i]);
    }
  }

  lemma SameSelf(c: Config)
    requires Sized(c)
    ensures SamePortable(c, c, true)
  {
  }

  /** What a merge takes from where. */
  lemma MergedFields(source: Config, target: Config)
    requires Sized(source) && Sized(target)
    ensures var r := Merged(source, target);
            && Sized(r) && SamePortable(r, source, RequiresV7(source)) && SameOwn(r, target) && Normal(r) == r
            && (RequiresV7(source) || SameRoutes(r, target))
  {
    hide RequiresV7, Normal, DeviceFrom, SamePortable, SameOwn;
    var v7 := RequiresV7(source);
    var c := if v7 then source else source.(pushChannels := CellularFrom(source.pushChannels, target.pushChannels));
    if v7 { SameSelf(source); } else { CellularFields(source, target); }
    var d := DeviceFrom(c, target);
    DeviceRows(c, target);
    assert SamePortable(d, c, true) by { DeviceIsSame(c, target); }
    NormalFields(d, target);
    SameOn(d, c, source, v7);
    SameOn(Normal(d), d, source, v7);
    NormalIsStored(d);
  }

  lemma DeviceIsSame(c: Config, target: Config)
    requires Sized(c) && Sized(target)
    ensures Sized(DeviceFrom(c, target)) && SamePortable(DeviceFrom(c, target), c, true)
  {
    hide DeviceFrom, SameScalars, SameRows, Sized;
    DeviceMail(c, target);
    DeviceRows(c, target);
  }

  /**
   * After a restore the device has what the backup's source has of everything that is meant for another device, and
   * has kept all that is its own; of the cellular routes, those of the source if it has any of its own.
   */
  lemma RestoreKeeps(legacy: Legacy, source: Config, target: Config, capacity: nat, r: Config)
    requires Sized(source) && Sized(target) && SemanticallyValid(source, true) && SemanticallyValid(target, false)
    requires ExportFits(source, capacity)
    requires RestoreOf(legacy, Blob(ExportSchema(source), 0, WireAll(ExportValues(source))), target) == Restored(r)
    ensures Sized(r) && SamePortable(r, source, RequiresV7(source)) && SameOwn(r, target) && Normal(r) == r
    ensures RequiresV7(source) || SameRoutes(r, target)
  {
    hide SemanticallyValid, RequiresV7, Sized, ExportFits, RestoreOf, Blob, WireAll, ExportValues, Merged, SamePortable,
      SameOwn, SameRoutes;
    ExportThenRestore(legacy, source, target, capacity);
    MergedFields(source, target);
  }

  /** What a restore has made is written into the same backup again. */
  lemma RestoredExportsAgain(legacy: Legacy, source: Config, target: Config, capacity: nat, r: Config)
    requires Sized(source) && Sized(target) && SemanticallyValid(source, true) && SemanticallyValid(target, false)
    requires ExportFits(source, capacity)
    requires RestoreOf(legacy, Blob(ExportSchema(source), 0, WireAll(ExportValues(source))), target) == Restored(r)
    ensures Values(Portable(r), RequiresV7(source), true) == ExportValues(source)
    ensures RequiresV7(source) ==> ExportSchema(r) == ExportSchema(source) && ExportValues(r) == ExportValues(source)
  {
    hide SemanticallyValid, RequiresV7, Sized, ExportFits, RestoreOf, Blob, WireAll, Values, Portable, SamePortable,
      SameOwn, SameRoutes;
    RestoreKeeps(legacy, source, target, capacity, r);
    SameWritten(r, source, RequiresV7(source));
    if RequiresV7(source) { SameNeed(r, source); }
  }

  lemma SameNeed(a: Config, b: Config)
    requires Sized(a) && Sized(b) && SamePortable(a, b, true)
    ensures RequiresV7(a) == RequiresV7(b)
  {
    hide SameScalars;
    forall i | 0 <= i < PUSH_CHANNELS ensures a.pushChannels[i] == b.pushChannels[i] {
      assert SameChannel(a.pushChannels[i], b.pushChannels[i], true);
    }
    assert a.pushChannels == b.pushChannels;
  }

  // ----- backups of any schema -----

  /**
   * Whatever the schema of a backup: what it has no fields for stays as it was on the device, and so does what is the
   * device's own; everything else comes from the backup.
   */
  lemma RestoreOfAnySchema(legacy: Legacy, bytes: seq<byte>, target: Config, r: Config)
    requires Sized(target) && RestoreOf(legacy, bytes, target) == Restored(r)
    ensures Decode(legacy, bytes).Valid? && Sized(Decode(legacy, bytes).config) && Sized(r) && SameOwn(r, target)
    ensures var c, schema := Decode(legacy, bytes).config, Decode(legacy, bytes).schema;
            && SameMail(r, c) && SameChannels(r, c, false)
            && SameNetwork(r, if schema < 4 then target else c)
            && SameClock(r, if schema < 5 then target else c) && SamePlans(r, if schema < 5 then target else c)
            && r.kaTrafficKB == (if schema < 6 then target else c).kaTrafficKB
            && SameRoutes(r, if schema < 7 then target else c)
  {
    hide Decode, SemanticallyValid, Filled, DeviceFrom, SyncMirrors, SameOwn, SameMail, SameNetwork, SameClock,
      SameChannel, SamePlan, SameCellular;
    var d := Decode(legacy, bytes);
    var f := Filled(d.config, d.schema, target);
    FilledScalars(d.config, d.schema, target);
    FilledRows(d.config, d.schema, target);
    KeptOf(f, target);
    MailOn(r, f, d.config);
    MailOn(r, f, target);
    ClockOn(r, f, d.config);
    ClockOn(r, f, target);
    PlansOn(r, f, d.config);
    PlansOn(r, f, target);
  }

  lemma PlansOn(a: Config, b: Config, c: Config)
    requires Sized(a) && Sized(b) && Sized(c) && SamePlans(a, b)
    ensures SamePlans(b, c) ==> SamePlans(a, c)
  {
    if SamePlans(b, c) {
      forall i | 0 <= i < SCHED_TASKS ensures SamePlan(a.schedTasks[i], c.schedTasks[i]) {
        assert SamePlan(a.schedTasks[i], b.schedTasks[i]) && SamePlan(b.schedTasks[i], c.schedTasks[i]);
      }
    }
  }

  lemma FourFields(c: Config, target: Config)
    requires Sized(c) && Sized(target)
    ensures var f := SchemaFourFrom(c, target);
            && SameMail(f, c) && SameNetwork(f, target) && SameClock(f, c)
            && f.kaTrafficKB == c.kaTrafficKB && f.pushChannels == c.pushChannels && f.schedTasks == c.schedTasks
  {
  }

  lemma FiveFields(c: Config, target: Config)
    requires Sized(c) && Sized(target)
    ensures var f := SchemaFiveFrom(c, target);
            && SameMail(f, c) && SameNetwork(f, c) && SameClock(f, target)
            && f.kaTrafficKB == c.kaTrafficKB && f.pushChannels == c.pushChannels && f.schedTasks == target.schedTasks
  {
  }

  lemma OwnScalars(c: Config, traffic: int, hs: seq<Channel>)
    ensures SameMail(c, c) && SameNetwork(c, c) && SameClock(c, c)
    ensures var d := c.(kaTrafficKB := traffic); SameMail(d, c) && SameNetwork(d, c) && SameClock(d, c)
    ensures var d := c.(pushChannels := hs); SameMail(d, c) && SameNetwork(d, c) && SameClock(d, c)
  {
    hide SameMail, SameNetwork, SameClock;
    SameAsItself(c);
    TrafficAside(c, traffic);
    PushAside(c, hs);
  }

  lemma SameAsItself(c: Config)
    ensures SameMail(c, c) && SameNetwork(c, c) && SameClock(c, c)
  {
  }

  lemma TrafficAside(c: Config, traffic: int)
    ensures var d := c.(kaTrafficKB := traffic); SameMail(d, c) && SameNetwork(d, c) && SameClock(d, c)
  {
  }

  lemma PushAside(c: Config, hs: seq<Channel>)
    ensures var d := c.(pushChannels := hs); SameMail(d, c) && SameNetwork(d, c) && SameClock(d, c)
  {
  }

  /** Up to schema 6, everything but the channels. */
  lemma BeforeSixFields(c: Config, schema: nat, target: Config)
    requires Sized(c) && Sized(target)
    ensures var f := BeforeSix(c, schema, target);
            && SameMail(f, c) && SameNetwork(f, if schema < 4 then target else c)
            && SameClock(f, if schema < 5 then target else c)
            && f.kaTrafficKB == (if schema < 6 then target else c).kaTrafficKB && f.pushChannels == c.pushChannels
            && f.schedTasks == (if schema < 5 then target else c).schedTasks
  {
    hide Sized, SchemaFourFrom, SchemaFiveFrom, SameMail, SameNetwork, SameClock;
    OwnScalars(c, 0, []);
    var four := if schema < 4 then SchemaFourFrom(c, target) else c;
    FourFields(c, target);
    var five := if schema < 5 then SchemaFiveFrom(four, target) else four;
    OwnScalars(four, 0, []);
    FiveFields(four, target);
    MailOn(five, four, c);
    MailOn(five, four, target);
    ClockOn(five, four, c);
    OwnScalars(five, target.kaTrafficKB, []);
    var six := BeforeSix(c, schema, target);
    OwnScalars(six, 0, []);
    MailOn(six, five, c);
    MailOn(six, five, target);
    ClockOn(six, five, c);
    ClockOn(six, five, target);
  }

  lemma FilledScalars(c: Config, schema: nat, target: Config)
    requires Sized(c) && Sized(target)
    ensures var f := Filled(c, schema, target);
            && SameMail(f, c) && SameNetwork(f, if schema < 4 then target else c)
            && SameClock(f, if schema < 5 then target else c)
            && f.kaTrafficKB == (if schema < 6 then target else c).kaTrafficKB
  {
    hide BeforeSix, SameMail, SameNetwork, SameClock, CellularFrom;
    BeforeSixFields(c, schema, target);
    var six := BeforeSix(c, schema, target);
    var f := Filled(c, schema, target);
    OwnScalars(six, 0, f.pushChannels);
    MailOn(f, six, c);
    MailOn(f, six, target);
    ClockOn(f, six, c);
    ClockOn(f, six, target);
  }

  lemma FilledRows(c: Config, schema: nat, target: Config)
    requires Sized(c) && Sized(target)
    ensures var f := Filled(c, schema, target);
            && Sized(f) && SameChannels(f, c, false) && SamePlans(f, if schema < 5 then target else c)
            && SameRoutes(f, if schema < 7 then target else c)
  {
    hide BeforeSix, SameMail, SameNetwork, SameClock;
    BeforeSixFields(c, schema, target);
  }

  /** What keeping the device's own fields leaves as it was. */
  lemma KeptOf(c: Config, target: Config)
    requires Sized(c) && Sized(target)
    ensures var d := SyncMirrors(DeviceFrom(c, target));
            && Sized(d) && SameOwn(d, target) && d.pushChannels == c.pushChannels && SamePlans(d, c)
            && SameScalars(d, c)
  {
    hide Mirrored;
  }
}
