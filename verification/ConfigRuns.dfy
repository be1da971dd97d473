/**
 * Whole runs of a device: saves, writes that fail, power cuts at any moment, and starts.
 */
module ConfigRuns {
  import opened Bytes
  import opened ConfigTypes
  import opened ConfigBlob
  import opened ConfigSlots
  import opened ConfigImages
  import opened ConfigStore
  import opened Flash

  /** The first start is over, and the image holds `c`. */
  ghost predicate Kept(legacy: Legacy, m: Image, c: Config) { StateOf(m) == READY[0] && Holds(7, legacy, m, c) }

  /** Each image holds one of these configurations. */
  ghost predicate AllKept(legacy: Legacy, images: seq<Image>, cs: set<Config>) {
    forall m | m in images :: exists c | c in cs :: Kept(legacy, m, c)
  }

  lemma AllKeptOn(legacy: Legacy, s: seq<Image>, cs: set<Config>, t: seq<Image>, ds: set<Config>)
    requires AllKept(legacy, s, cs) && AllKept(legacy, t, ds)
    ensures AllKept(legacy, s + t, cs + ds)
  {
    hide Kept;
    forall m | m in s + t ensures exists c | c in cs + ds :: Kept(legacy, m, c) {
      if m in s {
        var c :| c in cs && Kept(legacy, m, c);
        assert c in cs + ds;
      } else {
        var c :| c in ds && Kept(legacy, m, c);
        assert c in cs + ds;
      }
    }
  }

  /** What an image of a save holds. */
  function HeldAfter(held: Config, c: Config, k: nat): Config
    requires c.webAccounts != []
  {
    if k >= 2 && KeepaliveBounded(c) then Normal(c) else held
  }

  lemma EachKept(legacy: Legacy, m: Image, held: Config, ram: (int, u32), c: Config, k: nat)
    requires Kept(legacy, m, held) && Encodable(c, SchemaFor(c)) && c.webAccounts != [] && k < 4
    ensures Kept(legacy, ImagesOf(legacy, m, ram, c)[k], HeldAfter(held, c, k))
  {
    hide Steady, Encoded, Encodable, RequiresV7, KeepaliveBounded, Normal, MarkerOf, ImagesOf, Refused;
    var a: Index, d: Decoded :| Steady(7, legacy, m, a, d) && d.config == held && d.schema >= 6;
    SaveFromSteady(legacy, m, a, d, ram, c, false);
    SaveImages(legacy, m, a, d, c, SchemaFor(c), k);
  }

  lemma SaveKeeps(legacy: Legacy, m: Image, held: Config, ram: (int, u32), c: Config, n: nat)
    requires Kept(legacy, m, held) && Encodable(c, SchemaFor(c)) && c.webAccounts != [] && n <= 4
    ensures AllKept(legacy, ImagesOf(legacy, m, ram, c)[..n], {held, HeldAfter(held, c, 3)})
    ensures n > 0 ==> Kept(legacy, ImagesOf(legacy, m, ram, c)[n - 1], HeldAfter(held, c, n - 1))
  {
    hide Kept, ImagesOf, Encodable, RequiresV7, KeepaliveBounded, Normal;
    var images := ImagesOf(legacy, m, ram, c);
    forall x | x in images[..n] ensures exists d | d in {held, HeldAfter(held, c, 3)} :: Kept(legacy, x, d) {
      var k :| 0 <= k < n && images[k] == x;
      EachKept(legacy, m, held, ram, c, k);
    }
    if n > 0 { EachKept(legacy, m, held, ram, c, n - 1); }
  }

  lemma OneKept(legacy: Legacy, m: Image, c: Config)
    requires Kept(legacy, m, c)
    ensures AllKept(legacy, [m], {c})
  {
    hide Kept;
  }

  lemma KeptOne(legacy: Legacy, images: seq<Image>, m: Image, cs: set<Config>)
    requires AllKept(legacy, images, cs) && m in images
    ensures exists c :: c in cs && Kept(legacy, m, c)
  {
    hide Kept;
  }

  lemma LaterKept(legacy: Legacy, s: seq<Image>, i: nat, j: nat, cs: set<Config>)
    requires i <= j <= |s| && AllKept(legacy, s[i..], cs)
    ensures AllKept(legacy, s[j..], cs)
  {
    hide Kept;
    LaterWithin(s, i, j);
  }

  lemma LaterWithin<T>(s: seq<T>, i: nat, j: nat)
    requires i <= j <= |s|
    ensures forall x | x in s[j..] :: x in s[i..]
  {
    forall x | x in s[j..] ensures x in s[i..] {
      var k :| 0 <= k < |s| - j && s[j..][k] == x;
      assert s[i..][k + j - i] == x;
    }
  }

  /** What a power cut can leave after writing more images. */
  lemma WroteKept(legacy: Legacy, start: seq<Image>, images: seq<Image>, i: nat, j: nat, held: Config, cs: set<Config>,
    now: Config)
    requires i <= |start| && i <= j <= |start + images| && held in cs
    requires AllKept(legacy, start[i..], cs) && AllKept(legacy, images, {held, now})
    ensures AllKept(legacy, (start + images)[j..], cs + {now})
  {
    hide AllKept;
    AllKeptOn(legacy, start[i..], cs, images, {held, now});
    assert (start + images)[i..] == start[i..] + images && cs + {held, now} == cs + {now};
    LaterKept(legacy, start + images, i, j, cs + {now});
  }

  // ----- the schema that firmware under test may write -----

  ghost predicate AllNoLater(images: seq<Image>) { forall m | m in images :: NoLater(6, m) }

  lemma LaterNoLater(s: seq<Image>, t: seq<Image>, history: seq<Image>, i: nat, j: nat)
    requires i <= j <= |history| && history[i..] == s + t && AllNoLater(s) && AllNoLater(t)
    ensures AllNoLater(history[j..])
  {
    hide NoLater;
    LaterWithin(history, i, j);
  }

  lemma WroteNoLater(start: seq<Image>, images: seq<Image>, i: nat, j: nat)
    requires i <= |start| && i <= j <= |start + images| && AllNoLater(start[i..]) && AllNoLater(images)
    ensures AllNoLater((start + images)[j..])
  {
    hide NoLater, AllNoLater;
    assert (start + images)[i..] == start[i..] + images;
    LaterNoLater(start[i..], images, start + images, i, j);
  }

  /** A save that firmware under test is not refused goes through images of schema 6 only. */
  lemma SaveNoLater(legacy: Legacy, m: Image, held: Config, ram: (int, u32), c: Config, n: nat)
    requires Kept(legacy, m, held) && NoLater(6, m) && n <= 4
    requires !Refused(legacy, m, ram, c, true)
    ensures AllNoLater(ImagesOf(legacy, m, ram, c)[..n])
  {
    hide Steady, Encoded, Encodable, RequiresV7, MarkerOf, ImagesOf, NoLater, Refused, DecodeUpTo;
    var a: Index, d: Decoded :| Steady(7, legacy, m, a, d) && d.config == held && d.schema >= 6;
    SaveFromSteady(legacy, m, a, d, ram, c, true);
    ActiveSchema(legacy, m, a, d);
    var blob := Encoded(c, 6, Next(d.generation));
    EncodedSchema(c, 6, Next(d.generation));
    forall x | x in ImagesOf(legacy, m, ram, c)[..n] ensures NoLater(6, x) {
      var k :| 0 <= k < n && ImagesOf(legacy, m, ram, c)[k] == x;
      ImageNoLater(m, Other(a), blob, MarkerOf(blob, Next(d.generation)), k);
    }
  }

  lemma ActiveSchema(legacy: Legacy, m: Image, a: Index, d: Decoded)
    requires Steady(7, legacy, m, a, d) && NoLater(6, m)
    ensures d.schema <= 6
  {
    hide Get16, Get32, Crc32, SlotOf, HeldAs;
  }

  lemma ImageNoLater(m: Image, t: Index, blob: seq<byte>, marker: seq<byte>, k: nat)
    requires NoLater(6, m) && HeaderOk(blob) && Get16(blob, 4) == 6 && k < 4
    ensures NoLater(6, Images(m, t, blob, marker)[k])
  {
    hide HeaderOk, Get16;
    var x := Images(m, t, blob, marker)[k];
    forall i: Index | BlobKey(i) in x
      ensures x[BlobKey(i)] == blob || (BlobKey(i) in m && x[BlobKey(i)] == m[BlobKey(i)]) {}
  }

  lemma KeptIsActive(legacy: Legacy, m: Image, c: Config)
    requires Kept(legacy, m, c)
    ensures SelectIn(legacy, m).active in {0, 1} && ActiveHolds(legacy, m).Valid?
    ensures ActiveHolds(legacy, m).config == c && ActiveHolds(legacy, m).schema >= 6
  {
    hide Steady, ActiveHolds, SelectIn, Decode;
    var a: Index, d: Decoded :| Steady(7, legacy, m, a, d) && d.config == c && d.schema >= 6;
    SteadyHolds(legacy, m, a, d);
  }

  // ----- runs -----

  /** A start with a committed configuration loads it and does not write. */
  method LoadKept(storage: Storage, ghost c: Config, pendingVerify: bool) returns (status: LoadStatus, out: Config)
    requires storage.flash.Valid() && storage.activeSlot == -1
    requires Trusted(storage.legacy, storage.overlay) && Loadable(storage.legacyConfig)
    requires Kept(storage.legacy, storage.flash.view, c)
    modifies storage, storage.flash
    ensures storage.flash.Valid() && storage.RamOk() && unchanged(storage.flash)
    ensures status == Loaded && out == c
  {
    hide Holds, Trusted, Loadable, Unselectable, Steady, AllMigrating, NewDecoded, ActiveHolds, SelectIn, Untouched,
      Halfway, Done;
    KeptIsActive(storage.legacy, storage.flash.view, c);
    status, out := storage.Load(pendingVerify);
  }

  class Device {
    const flash: Store<Key, seq<byte>>
    const legacy: Legacy
    const legacyConfig: Config
    const overlay: Config -> Option<Config>
    var storage: Storage

    /** What the next start would load, and what it can load if power is lost now. */
    ghost var held: Config
    ghost var possible: set<Config>

    ghost predicate Valid()
      reads this, flash, storage
    {
      && flash.Valid() && storage.RamOk() && storage.flash == flash && storage.legacy == legacy
      && Trusted(legacy, overlay) && Loadable(legacyConfig)
      && Kept(legacy, flash.view, held) && held in possible
      && AllKept(legacy, flash.history[flash.floor..], possible)
    }

    /** A device whose first start is over. */
    constructor (flash: Store<Key, seq<byte>>, legacy: Legacy, legacyConfig: Config, overlay: Config -> Option<Config>,
      ghost held: Config)
      requires flash.Valid() && flash.history == [flash.view] && Kept(legacy, flash.view, held)
      requires Trusted(legacy, overlay) && Loadable(legacyConfig)
      ensures Valid() && fresh(this) && fresh(storage) && this.flash == flash && this.legacy == legacy
      ensures this.held == held && possible == {held}
    {
      hide Kept, AllKept, Trusted, Loadable;
      this.flash, this.legacy, this.legacyConfig, this.overlay := flash, legacy, legacyConfig, overlay;
      storage := new Storage(flash, legacy, legacyConfig, overlay);
      this.held, possible := held, {held};
      new;
      OneKept(legacy, flash.view, held);
      assert flash.history[flash.floor..] == [flash.view];
    }

    /**
     * After a save that reports success only the new configuration can be loaded, if its keep-alive texts
     * are bounded, and only the old one otherwise. A save that fails may or may not have taken effect.
     */
    method Save(c: Config, pendingVerify: bool) returns (status: Status)
      requires Valid() && Sized(c)
      modifies this`held, this`possible, storage, flash
      ensures Valid() && c.webAccounts != []
      ensures status == Ok ==> held == (if KeepaliveBounded(c) then Normal(c) else old(held)) && possible == {held}
      ensures status == WriteFailed ==>
        && held in {old(held), Normal(c)}
        && possible == old(possible) + (if KeepaliveBounded(c) then {Normal(c)} else {})
      ensures status !in {Ok, WriteFailed} ==> held == old(held) && possible == old(possible) && unchanged(flash)
      ensures status in {Ok, WriteFailed} ==> Encodable(c, SchemaFor(c))
      // Firmware under test does not store what the firmware before it cannot read.
      ensures pendingVerify && AllNoLater(old(flash.history[flash.floor..])) ==>
        AllNoLater(flash.history[flash.floor..])
    {
      hide Kept, AllKept, ImagesOf, Refused, Encodable, SemanticallyValid, KeepaliveBounded, Normal, RequiresV7,
        Trusted, NoLater;
      ghost var m, ram, start, floor := flash.view, (storage.activeSlot, storage.activeGeneration), flash.history,
        flash.floor;
      ghost var before, others := held, possible;
      ghost var wrote, n;
      status, wrote, n := storage.Save(c, pendingVerify);
      if wrote {
        ghost var images := ImagesOf(legacy, m, ram, c);
        SaveKeeps(legacy, m, before, ram, c, n);
        WroteKept(legacy, start, images[..n], floor, flash.floor, before, others, HeldAfter(before, c, 3));
        if n > 0 { held := HeldAfter(before, c, n - 1); }
        if status == Ok {
          possible := {held};
          assert flash.history[flash.floor..] == [flash.view];
          OneKept(legacy, flash.view, held);
        } else {
          possible := others + {HeldAfter(before, c, 3)};
        }
        if pendingVerify && AllNoLater(start[floor..]) {
          assert m in start[floor..];
          SaveNoLater(legacy, m, before, ram, c, n);
          WroteNoLater(start, images[..n], floor, flash.floor);
        }
      }
    }

    /**
     * Power is lost and the device starts again. The start never fails, writes nothing, and loads
     * what is held from then on: one of the configurations that were possible.
     */
    method Restart(pendingVerify: bool) returns (status: LoadStatus, out: Config)
      requires Valid()
      modifies this, flash
      ensures Valid() && fresh(storage) && flash.floor == 0 && flash.history == [flash.view]
      ensures status == Loaded && out == held && held in old(possible) && possible == {held}
      ensures flash.view in old(flash.history[flash.floor..])
    {
      hide Kept, AllKept, Trusted, Loadable;
      ghost var images := flash.history[flash.floor..];
      flash.Crash(flash.floor);
      KeptOne(legacy, images, flash.view, possible);
      ghost var c :| c in possible && Kept(legacy, flash.view, c);
      held, possible := c, {c};
      storage := new Storage(flash, legacy, legacyConfig, overlay);
      OneKept(legacy, flash.view, c);
      assert [flash.view][0..] == [flash.view];
      status, out := LoadKept(storage, c, pendingVerify);
    }
  }

  datatype Event = Saving(config: Config, pendingVerify: bool) | PowerCut(pendingVerify: bool)

  datatype Outcome = Saved(config: Config, saved: Status) | Started(status: LoadStatus, loaded: Config)

  function AllowedAfter(before: set<Config>, o: Outcome): set<Config> {
    match o
    case Started(_, c) => {c}
    case Saved(c, status) =>
      if c.webAccounts == [] || !KeepaliveBounded(c) then before
      else if status == Ok then {Normal(c)} else if status == WriteFailed then before + {Normal(c)} else before
  }

  /**
   * What a start can load after this log: the last configuration that is
   * known to be there, or one that was attempted since.
   */
  function Allowed(start: Config, log: seq<Outcome>): set<Config> {
    if log == [] then {start} else AllowedAfter(Allowed(start, log[..|log| - 1]), log[|log| - 1])
  }

  /** Every start loads one of the configurations that it may. */
  predicate Explained(start: Config, log: seq<Outcome>) {
    forall i | 0 <= i < |log| :: log[i].Started? ==>
      log[i].status == Loaded && log[i].loaded in Allowed(start, log[..i])
  }

  lemma ExplainedOn(start: Config, log: seq<Outcome>, o: Outcome)
    requires Explained(start, log)
    requires o.Started? ==> o.status == Loaded && o.loaded in Allowed(start, log)
    ensures Explained(start, log + [o])
  {
    hide Allowed;
    forall i | 0 <= i < |log| + 1 && (log + [o])[i].Started?
      ensures (log + [o])[i].status == Loaded && (log + [o])[i].loaded in Allowed(start, (log + [o])[..i])
    {
      assert (log + [o])[..i] == log[..i];
      assert log[..|log|] == log;
    }
  }

  lemma AllowedOn(start: Config, log: seq<Outcome>, o: Outcome)
    ensures Allowed(start, log + [o]) == AllowedAfter(Allowed(start, log), o)
  {
    hide AllowedAfter;
    assert (log + [o])[..|log|] == log;
  }

  /** What an event leaves in the log. */
  predicate Recorded(e: Event, o: Outcome) { if e.Saving? then o.Saved? && o.config == e.config else o.Started? }

  lemma SaveAllowed(before: set<Config>, held: Config, possible: set<Config>, held1: Config, possible1: set<Config>,
    c: Config, status: Status)
    requires possible <= before && held in possible && c.webAccounts != []
    requires status == Ok ==> held1 == (if KeepaliveBounded(c) then Normal(c) else held) && possible1 == {held1}
    requires status == WriteFailed ==> possible1 == possible + (if KeepaliveBounded(c) then {Normal(c)} else {})
    requires status !in {Ok, WriteFailed} ==> possible1 == possible
    ensures possible1 <= AllowedAfter(before, Saved(c, status))
  {
    hide Normal, KeepaliveBounded;
  }

  method Step(device: Device, e: Event, ghost start: Config, ghost log: seq<Outcome>) returns (o: Outcome)
    requires device.Valid() && (e.Saving? ==> Sized(e.config))
    requires Explained(start, log) && device.possible <= Allowed(start, log)
    modifies device, device.storage, device.flash
    ensures device.Valid() && Recorded(e, o) && (device.storage == old(device.storage) || fresh(device.storage))
    ensures Explained(start, log + [o]) && device.possible <= Allowed(start, log + [o])
  {
    hide Kept, AllKept, Trusted, Loadable, Normal, KeepaliveBounded, Explained, Allowed, Sized, AllNoLater,
      AllowedAfter, Encodable;
    ghost var before, held, possible := Allowed(start, log), device.held, device.possible;
    match e {
      case Saving(c, pendingVerify) =>
        var status := device.Save(c, pendingVerify);
        o := Saved(c, status);
        SaveAllowed(before, held, possible, device.held, device.possible, c, status);
      case PowerCut(pendingVerify) =>
        var status, c := device.Restart(pendingVerify);
        o := Started(status, c);
        StartAllowed(before, status, c);
    }
    ExplainedOn(start, log, o);
    AllowedOn(start, log, o);
  }

  lemma StartAllowed(before: set<Config>, status: LoadStatus, c: Config)
    ensures AllowedAfter(before, Started(status, c)) == {c}
  {
  }

  /**
   * Any run: every start succeeds and loads what was committed last or was
   * being saved, and after a save that succeeded only that.
   */
  method Run(device: Device, events: seq<Event>, ghost start: Config) returns (log: seq<Outcome>)
    requires device.Valid() && device.possible == {start}
    requires forall e | e in events :: e.Saving? ==> Sized(e.config)
    modifies device, device.storage, device.flash
    ensures device.Valid() && |log| == |events| && Explained(start, log) && device.possible <= Allowed(start, log)
    ensures forall i | 0 <= i < |events| :: Recorded(events[i], log[i])
  {
    hide Device.Valid, Explained, Allowed, Sized, Recorded;
    log := [];
    Nothing(start);
    ghost var first := device.storage;
    for i := 0 to |events|
      invariant |log| == i && device.Valid() && Explained(start, log) && device.possible <= Allowed(start, log)
      invariant device.storage == first || fresh(device.storage)
      invariant forall j | 0 <= j < i :: Recorded(events[j], log[j])
    {
      var o := Step(device, events[i], start, log);
      log := log + [o];
    }
  }

  lemma Nothing(start: Config)
    ensures Explained(start, []) && Allowed(start, []) == {start}
  {
  }

  /**
   * After a save that reports success the next start loads what was
   * saved exactly when its keep-alive texts are bounded.
   */
  method SaveThenStart(device: Device, c: Config) returns (status: Status, out: Config)
    requires device.Valid() && Sized(c)
    modifies device, device.storage, device.flash
    ensures device.Valid() && c.webAccounts != []
    ensures status == Ok ==> out == if KeepaliveBounded(c) then Normal(c) else old(device.held)
  {
    hide Kept, AllKept, Trusted, Loadable, Device.Valid, Normal, KeepaliveBounded;
    status := device.Save(c, false);
    var loaded;
    loaded, out := device.Restart(false);
  }

  /** Firmware under test stores any number of configurations, and firmware of schema 6 then finds the last of them. */
  method SaveThenRollBack(device: Device, cs: seq<Config>)
    requires device.Valid() && AllNoLater(device.flash.history[device.flash.floor..])
    requires forall c | c in cs :: Sized(c)
    modifies device, device.storage, device.flash
    ensures device.Valid()
    ensures forall m | m in device.flash.history[device.flash.floor..] ::
      exists c :: c in device.possible && Holds(6, device.legacy, m, c) && Holds(7, device.legacy, m, c)
  {
    hide Kept, AllKept, Trusted, Loadable, Normal, KeepaliveBounded, NoLater, AllNoLater, Holds, Sized;
    for i := 0 to |cs|
      invariant device.Valid() && device.storage == old(device.storage)
      invariant AllNoLater(device.flash.history[device.flash.floor..])
    {
      var status := device.Save(cs[i], true);
    }
    RollbackFinds(device);
  }

  lemma RollbackFinds(device: Device)
    requires device.Valid() && AllNoLater(device.flash.history[device.flash.floor..])
    ensures forall m | m in device.flash.history[device.flash.floor..] ::
      exists c :: c in device.possible && Holds(6, device.legacy, m, c) && Holds(7, device.legacy, m, c)
  {
    hide Holds, Trusted, Loadable, NoLater;
    forall m | m in device.flash.history[device.flash.floor..]
      ensures exists c :: c in device.possible && Holds(6, device.legacy, m, c) && Holds(7, device.legacy, m, c)
    {
      var c :| c in device.possible && Kept(device.legacy, m, c);
      RollbackHolds(device.legacy, m, c);
    }
  }

  // ----- the first start -----

  ghost predicate AllBooting(legacy: Legacy, c: Config, images: seq<Image>) {
    forall m | m in images :: Booting(legacy, c, m)
  }

  /** A first start that was cut off after its commit is over, but for the note of it. */
  lemma DoneIsActive(legacy: Legacy, c: Config, m: Image)
    requires Done(legacy, c, m)
    ensures SelectIn(legacy, m).active == 0 && ActiveHolds(legacy, m) == Valid(Normal(c), SchemaFor(c), 1)
    ensures !Untouched(m) && !Halfway(legacy, m)
    ensures Done(legacy, c, m[State := READY]) && (StateOf(m) == READY[0] ==> Kept(legacy, m, Normal(c)))
    ensures Kept(legacy, m[State := READY], Normal(c))
  {
    hide Steady, Normal, SelectIn, ActiveHolds, RequiresV7, Untouched, Halfway;
    SteadyHolds(legacy, m, 0, Valid(Normal(c), SchemaFor(c), 1));
    StateAside(7, legacy, m, 0, Valid(Normal(c), SchemaFor(c), 1), READY);
  }

  /** A start, from wherever earlier first starts have been cut off. */
  method Start(flash: Store<Key, seq<byte>>, legacy: Legacy, c: Config, overlay: Config -> Option<Config>,
    pendingVerify: bool)
    returns (status: LoadStatus, out: Config)
    requires flash.Valid() && Booting(legacy, c, flash.view) && Trusted(legacy, overlay) && Loadable(c)
    requires c.webAccounts != []
    modifies flash
    ensures flash.Valid() && old(flash.history) <= flash.history && old(flash.floor) <= flash.floor
    ensures AllBooting(legacy, c, flash.history[|old(flash.history)|..]) && Booting(legacy, c, flash.view)
    ensures status in {FirstBoot, Loaded} ==> Kept(legacy, flash.view, Normal(c)) && out in {c, Normal(c)}
    ensures status !in {FirstBoot, Loaded} ==> flash.failed || (RequiresV7(c) && pendingVerify)
  {
    hide Trusted, Loadable, Unselectable, Steady, AllMigrating, NewDecoded, ActiveHolds, SelectIn, Untouched, Halfway,
      Done, Normal, RequiresV7, Kept, StateOf;
    ghost var m := flash.view;
    var storage := new Storage(flash, legacy, c, overlay);
    if Done(legacy, c, m) { DoneIsActive(legacy, c, m); }
    status, out := storage.Load(pendingVerify);
    if Done(legacy, c, flash.view) { DoneIsActive(legacy, c, flash.view); }
  }

  /**
   * First starts from an empty partition, each cut off at any image that it went through: a last one that is
   * not cut off, and whose writes do not fail, ends with the configuration of the oldest format committed.
   */
  method StartAgain(flash: Store<Key, seq<byte>>, legacy: Legacy, c: Config, overlay: Config -> Option<Config>,
    starts: nat)
    returns (status: LoadStatus, out: Config)
    requires flash.Valid() && flash.history == [flash.view] && Untouched(flash.view)
    requires Trusted(legacy, overlay) && Loadable(c) && c.webAccounts != []
    modifies flash
    ensures flash.Valid() && Booting(legacy, c, flash.view)
    ensures status in {FirstBoot, Loaded} ==> Kept(legacy, flash.view, Normal(c)) && out in {c, Normal(c)}
    ensures status !in {FirstBoot, Loaded} ==> flash.failed
  {
    hide Trusted, Loadable, Booting, Normal, Kept;
    assert Booting(legacy, c, flash.view) by { UntouchedBoots(legacy, c, flash.view); }
    for i := 0 to starts
      invariant flash.Valid() && flash.floor == 0 && flash.history == [flash.view] && Booting(legacy, c, flash.view)
    {
      ghost var start := flash.history;
      status, out := Start(flash, legacy, c, overlay, false);
      ghost var images := flash.history;
      flash.Crash(0);
      assert images == start + images[|start|..];
      assert images[0..] == images;
    }
    status, out := Start(flash, legacy, c, overlay, false);
  }

  lemma UntouchedBoots(legacy: Legacy, c: Config, m: Image)
    requires Untouched(m)
    ensures Booting(legacy, c, m)
  {
  }
}
