/**
 * Saving and loading the configuration. A save replaces the slot that is not active and
 * commits it with a marker, so that at every moment one slot holds a whole configuration.
 */
module ConfigStore {
  import opened Bytes
  import opened ConfigTypes
  import opened ConfigBlob
  import opened ConfigSlots
  import opened ConfigImages
  import opened Flash

  datatype Status = Ok | InvalidState | NotSupported | InvalidArg | WriteFailed

  datatype LoadStatus = Loaded | Migrated | FirstBoot | StorageError | UnsupportedSchema

  class Storage {
    const flash: Store<Key, seq<byte>>
    const legacy: Legacy
    /** What the oldest format, one key for each field, is read as; and what it adds to schemas 1 to 3. */
    const legacyConfig: Config
    const overlay: Config -> Option<Config>
    var activeSlot: int
    var activeGeneration: u32

    constructor (flash: Store<Key, seq<byte>>, legacy: Legacy, legacyConfig: Config, overlay: Config -> Option<Config>)
      ensures this.flash == flash && this.legacy == legacy && this.legacyConfig == legacyConfig
      ensures this.overlay == overlay
      ensures activeSlot == -1
    {
      this.flash, this.legacy, this.legacyConfig, this.overlay := flash, legacy, legacyConfig, overlay;
      activeSlot, activeGeneration := -1, 0;
    }

    // ----- reading -----

    method ReadSlotAt(i: Index) returns (slot: Slot)
      ensures slot == SlotOf(7, legacy, flash.view, i)
    {
      hide Decode, Crc32, ReadMarker, HeaderOk, Get16, Get32;
      slot := EMPTY_SLOT;
      var blob := flash.Get(BlobKey(i));
      var marker := flash.Get(MarkerKey(i));
      slot := slot.(blobPresent := blob.Some?, markerPresent := marker.Some?);
      if (blob.Some? && !SizeOk(blob.value)) || (marker.Some? && |marker.value| != MARKER_BYTES) {
        return slot.(hardInvalid := true);
      }
      if blob.None? {
        return if marker.Some? then slot.(hardInvalid := true) else slot;
      }
      DecodeSame(legacy, blob.value);
      var decoded := DecodeBlob(blob.value, legacy);
      if marker.None? {
        var resumable := decoded.Valid? && decoded.schema >= 6;
        return slot.(resumable := resumable, hardInvalid := !resumable);
      }
      var mark := ReadMarker(marker.value);
      if mark.None? || decoded.Invalid? { return slot.(hardInvalid := true); }
      var crc := ComputeCrc32(blob.value);
      if mark.value != Mark(decoded.generation, |blob.value| % 0x1_0000_0000, crc) {
        return slot.(hardInvalid := true);
      }
      if decoded.Unsupported? { return slot.(unsupported := true, generation := decoded.generation); }
      return slot.(valid := true, schema := decoded.schema, generation := decoded.generation);
    }

    ghost function SlotNow(i: Index): Slot
      reads flash
    {
      SlotOf(7, legacy, flash.view, i)
    }

    ghost function SelectNow(): Selection
      reads flash
    {
      Select(SlotNow(0), SlotNow(1))
    }

    method SelectSlots() returns (a: Slot, b: Slot, s: Selection)
      ensures a == SlotNow(0) && b == SlotNow(1) && s == SelectNow()
    {
      hide SlotOf;
      a := ReadSlotAt(0);
      b := ReadSlotAt(1);
      var anyData := a.blobPresent || a.markerPresent || b.blobPresent || b.markerPresent;
      if a.valid || b.valid {
        var active := if !a.valid then 1 else if !b.valid then 0 else if Newer(b.generation, a.generation) then 1
          else 0;
        var generation := if active == 0 then a.generation else b.generation;
        var newest: Option<u32> := None;
        if a.unsupported { newest := Some(a.generation); }
        if b.unsupported && (newest.None? || Newer(b.generation, newest.value)) { newest := Some(b.generation); }
        var unsupported := newest.Some? && Newer(newest.value, generation);
        if unsupported { active := -1; }
        s := Selection(active, generation, false, unsupported, anyData);
      } else {
        var unsupported := a.unsupported || b.unsupported;
        s := Selection(-1, 0, !unsupported && anyData, unsupported, anyData);
      }
    }

    method ReadState() returns (state: nat)
      ensures state == StateOf(flash.view)
    {
      var value := flash.Get(State);
      if value.Some? && |value.value| == 1 { return value.value[0]; }
      return 0;
    }

    // ----- saving -----

    /** Replaces a slot: first its marker goes, then the blob is written, then the marker that commits it. */
    method WriteSlot(t: Index, blob: seq<byte>, schema: u16, g: u32) returns (ok: bool, ghost n: nat)
      requires flash.Valid() && EnvelopeOk(blob, schema, g)
      modifies flash
      ensures flash.Valid() && n <= 4 && old(flash.floor) <= flash.floor
      ensures var images := Images(old(flash.view), t, blob, MarkerOf(blob, g));
              && flash.history == old(flash.history) + images[..n]
              && flash.view == if n == 0 then old(flash.view) else images[n - 1]
      ensures ok ==> n == 4 && flash.floor == |flash.history| - 1
      ensures flash.failed == (old(flash.failed) || !ok)
    {
      hide EnvelopeOk, Crc32, Marker;
      ghost var images, start := Images(flash.view, t, blob, MarkerOf(blob, g)), flash.history;
      var written;
      written, n := ReplaceBlob(t, blob, g);
      if !written { return false, n; }
      var back := flash.Get(BlobKey(t));
      if back.None? { assert false; }
      var envelope := EnvelopeValid(back.value, schema, g);
      if back.value != blob || !envelope { assert false; }
      var marker := MarkerOf(blob, g);
      var marked, m := CommitMarker(t, marker);
      n := 2 + m;
      assert images[..n] == images[..2] + images[2..][..m];
      assert start + images[..2] + images[2..][..m] == start + images[..n];
      if !marked { return false, n; }
      back := flash.Get(MarkerKey(t));
      if back != Some(marker) { assert false; }
      return true, n;
    }

    /** The first half: an uncommitted slot with the new blob in it. */
    method ReplaceBlob(t: Index, blob: seq<byte>, ghost g: u32) returns (ok: bool, ghost n: nat)
      requires flash.Valid()
      modifies flash
      ensures flash.Valid() && n <= 2 && old(flash.floor) <= flash.floor
      ensures var images := Images(old(flash.view), t, blob, MarkerOf(blob, g));
              && flash.history == old(flash.history) + images[..n]
              && flash.view == if n == 0 then old(flash.view) else images[n - 1]
      ensures ok ==> n == 2
      ensures flash.failed == (old(flash.failed) || !ok)
    {
      hide Crc32, Marker;
      ghost var images, start := Images(flash.view, t, blob, MarkerOf(blob, g)), flash.history;
      ok := flash.Erase(MarkerKey(t));
      n := |flash.history| - |start|;
      if ok { ok := flash.Commit(); }
      if ok {
        ok := flash.Set(BlobKey(t), blob);
        n := |flash.history| - |start|;
        assert start + [images[0]] + [images[1]] == start + images[..2];
      }
      if ok { ok := flash.Commit(); }
      assert images[..1] == [images[0]];
    }

    /** The second half: the marker, and with the same commit the mark that the first start is over. */
    method CommitMarker(t: Index, marker: seq<byte>) returns (ok: bool, ghost n: nat)
      requires flash.Valid()
      modifies flash
      ensures flash.Valid() && n <= 2 && old(flash.floor) <= flash.floor
      ensures var m3 := old(flash.view)[MarkerKey(t) := marker];
              var images := [m3, m3[State := READY]];
              && flash.history == old(flash.history) + images[..n]
              && flash.view == if n == 0 then old(flash.view) else images[n - 1]
      ensures ok ==> n == 2 && flash.floor == |flash.history| - 1
      ensures flash.failed == (old(flash.failed) || !ok)
    {
      ghost var start := flash.history;
      ghost var m3 := flash.view[MarkerKey(t) := marker];
      ok := flash.Set(MarkerKey(t), marker);
      n := |flash.history| - |start|;
      if ok {
        ok := flash.Set(State, READY);
        n := |flash.history| - |start|;
        assert start + [m3] + [m3[State := READY]] == start + [m3, m3[State := READY]];
      }
      if ok { ok := flash.Commit(); }
      assert [m3, m3[State := READY]][..1] == [m3];
    }

    predicate RamOk()
      reads this`activeSlot
    {
      -1 <= activeSlot <= 1
    }

    /** Everything that a save decides before it writes. */
    method Prepare(c: Config, pendingVerify: bool) returns (status: Status, target: Index, next: u32, schema: u16,
      blob: seq<byte>)
      requires RamOk() && Sized(c)
      ensures status in {Ok, InvalidState, NotSupported, InvalidArg}
      ensures status == Ok <==> !Refused(legacy, flash.view, (activeSlot, activeGeneration), c, pendingVerify)
      ensures status == Ok ==>
        var base := BaseIn(legacy, flash.view, (activeSlot, activeGeneration));
        && Encodable(c, SchemaFor(c)) && schema == SchemaFor(c) && next == Next(base.1)
        && target == (if base.0 == 0 then 1 else 0) && blob == Encoded(c, schema, next)
    {
      hide SlotOf, Encoded, Encodable, Select, RequiresV7, Newer;
      target, next, schema, blob := 0, 0, 6, [];
      var a, b, s := SelectSlots();
      var state := ReadState();
      var resumable := s.active < 0 && ResumableMigration(a, b, state);
      if s.invalid && !resumable { return InvalidState, target, next, schema, blob; }
      if s.unsupported { return NotSupported, target, next, schema, blob; }
      SelectionRange(a, b);
      var active, generation := s.active, s.generation;
      if activeSlot >= 0 && active < 0 {
        active, generation := activeSlot, activeGeneration;
      }
      target := if active == 0 then 1 else 0;
      next := Next(generation);
      schema := if RequiresV7(c) then 7 else 6;
      var activeSchema := if active < 0 then 0 else if active == 0 then a.schema else b.schema;
      if schema == 7 && activeSchema < 7 && pendingVerify { return InvalidState, target, next, schema, blob; }
      var encoded;
      encoded, blob := EncodeBlob(c, schema, next);
      if !encoded { return InvalidArg, target, next, schema, blob; }
      return Ok, target, next, schema, blob;
    }

    /** A save goes through a start of its images, and reports success only after all of them. */
    method Save(c: Config, pendingVerify: bool) returns (status: Status, ghost wrote: bool, ghost n: nat)
      requires flash.Valid() && RamOk() && Sized(c)
      modifies this, flash
      ensures flash.Valid() && RamOk() && n <= 4
      ensures wrote <==> !Refused(legacy, old(flash.view), old((activeSlot, activeGeneration)), c, pendingVerify)
      ensures !wrote ==> status !in {Ok, WriteFailed} && n == 0 && unchanged(flash) && unchanged(this)
      ensures wrote ==>
        && status in {Ok, WriteFailed} && Encodable(c, SchemaFor(c)) && old(flash.floor) <= flash.floor
        && (status == Ok ==> n == 4 && flash.floor == |flash.history| - 1)
        && flash.failed == (old(flash.failed) || status != Ok)
        && var images := ImagesOf(legacy, old(flash.view), old((activeSlot, activeGeneration)), c);
           && flash.history == old(flash.history) + images[..n]
           && flash.view == (if n == 0 then old(flash.view) else images[n - 1])
    {
      hide Crc32, Marker, Encoded, Encodable, Images, RequiresV7, Refused, SelectIn, Sized;
      wrote, n := false, 0;
      var target, next, schema, blob;
      status, target, next, schema, blob := Prepare(c, pendingVerify);
      if status != Ok { return; }
      EncodedEnvelope(legacy, c, schema, next);
      wrote := true;
      var written;
      written, n := WriteSlot(target, blob, schema, next);
      if !written { return WriteFailed, wrote, n; }
      activeSlot, activeGeneration := target, next;
    }

    // ----- loading -----

    method SaveState(value: seq<byte>) returns (ok: bool)
      requires flash.Valid()
      modifies flash
      ensures flash.Valid() && old(flash.floor) <= flash.floor
      ensures var next := old(flash.view)[State := value];
              || (flash.view == next && flash.history == old(flash.history) + [next])
              || (!ok && flash.view == old(flash.view) && flash.history == old(flash.history))
      ensures ok ==> flash.floor == |flash.history| - 1
      ensures flash.failed == (old(flash.failed) || !ok)
    {
      ok := flash.Set(State, value);
      if ok { ok := flash.Commit(); }
    }

    /** A slot is active: its configuration is what is loaded. */
    method LoadActive(active: Index) returns (status: LoadStatus, out: Config, migrate: bool)
      requires flash.Valid() && RamOk() && SlotOf(7, legacy, flash.view, active).valid
      modifies this, flash
      ensures flash.Valid() && RamOk() && old(flash.floor) <= flash.floor
      ensures var next := old(flash.view)[State := READY];
              || (flash.view == next && flash.history == old(flash.history) + [next])
              || (flash.view == old(flash.view) && flash.history == old(flash.history))
      ensures status in {Loaded, StorageError} && (migrate ==> status == Loaded)
      ensures BlobKey(active) in old(flash.view) && Decode(legacy, old(flash.view)[BlobKey(active)]).Valid?
      ensures var d := Decode(legacy, old(flash.view)[BlobKey(active)]);
              && (d.schema >= 6 ==>
                && !migrate && out == d.config
                && (status == Loaded || flash.failed)
                && (StateOf(old(flash.view)) == READY[0] ==> status == Loaded && unchanged(flash)))
              && (d.schema < 6 ==>
                && (out == d.config || Some(out) == overlay(d.config))
                && if status == Loaded then migrate
                  && Some(out) == (if d.schema <= 3 then overlay(d.config) else Some(d.config))
                   else flash.failed || (d.schema <= 3 && overlay(d.config).None?))
      ensures status == Loaded ==> flash.failed == old(flash.failed) && StateOf(flash.view) == READY[0]
    {
      hide Decode, Crc32, ReadMarker, Vouches;
      ValidSlot(legacy, flash.view, active);
      var blob := flash.Get(BlobKey(active));
      var d := DecodeBlob(blob.value, legacy);
      out, migrate := d.config, false;
      if d.schema <= 3 {
        var overlaid := overlay(out);
        if overlaid.None? { return StorageError, out, false; }
        out := overlaid.value;
      }
      activeSlot, activeGeneration := active, d.generation;
      var state := ReadState();
      if state != READY[0] {
        var saved := SaveState(READY);
        if !saved { return StorageError, out, false; }
      }
      migrate := d.schema < 6;
      return Loaded, out, migrate;
    }

    /** A configuration of an older format is saved anew. */
    method Migrate(c: Config, pendingVerify: bool, ghost a: Index, ghost d: Decoded) returns (status: LoadStatus)
      requires flash.Valid() && RamOk() && Loadable(c) && c.webAccounts != [] && d.Valid?
      modifies this, flash
      ensures flash.Valid() && RamOk() && old(flash.floor) <= flash.floor && status in {Migrated, StorageError}
      ensures old(flash.history) <= flash.history
      ensures Steady(7, legacy, old(flash.view), a, d) ==>
        && AllMigrating(legacy, flash.history[|old(flash.history)|..], a, d, c)
        && (status == Migrated ==>
          && Steady(7, legacy, flash.view, Other(a), NewDecoded(c, d.generation))
          && flash.floor == |flash.history| - 1 && flash.failed == old(flash.failed))
        && (status == StorageError ==> flash.failed || (RequiresV7(c) && pendingVerify && d.schema < 7))
    {
      hide Refused, ImagesOf, Steady, RequiresV7, Encoded, SemanticallyValid, KeepaliveBounded, NewDecoded,
        AllMigrating, Encodable;
      ghost var m, ram := flash.view, (activeSlot, activeGeneration);
      ghost var images := ImagesOf(legacy, m, ram, c);
      if Steady(7, legacy, m, a, d) {
        NotRefused(legacy, m, a, d, ram, c, pendingVerify);
        forall n: nat | n <= 4
          ensures AllMigrating(legacy, images[..n], a, d, c) { SaveMigrates(legacy, m, a, d, c, ram, n); }
        SaveMigrates(legacy, m, a, d, c, ram, 4);
      }
      var saved;
      ghost var wrote, n;
      saved, wrote, n := Save(c, pendingVerify);
      assert wrote ==> flash.history[|old(flash.history)|..] == images[..n];
      assert !wrote ==> flash.history[|old(flash.history)|..] == images[..0];
      status := if saved == Ok then Migrated else StorageError;
    }

    /** What the flash has gone through since it had a history, all of it images of a first start. */
    twostate predicate WentBooting()
      reads flash
    {
      && old(flash.floor) <= flash.floor && old(flash.history) <= flash.history
      && (forall m | m in flash.history[|old(flash.history)|..] :: Booting(legacy, legacyConfig, m))
      && Booting(legacy, legacyConfig, flash.view)
    }

    method FirstSave(pendingVerify: bool) returns (status: LoadStatus)
      requires flash.Valid() && activeSlot == -1 && StateOf(flash.view) == MIGRATING[0] && Sized(legacyConfig)
      requires Loadable(legacyConfig) && (Untouched(flash.view) || Halfway(legacy, flash.view))
      modifies this, flash
      ensures flash.Valid() && RamOk() && WentBooting() && status in {FirstBoot, StorageError}
      ensures status == FirstBoot ==>
        && Done(legacy, legacyConfig, flash.view) && StateOf(flash.view) == READY[0]
        && flash.floor == |flash.history| - 1
        && flash.failed == old(flash.failed)
      ensures status == StorageError ==> flash.failed || (RequiresV7(legacyConfig) && pendingVerify)
    {
      hide Done, Encoded, Refused, ImagesOf, RequiresV7, Loadable, Untouched, Halfway, Encodable, Sized;
      ghost var images := ImagesOf(legacy, flash.view, (-1, activeGeneration), legacyConfig);
      BootImages(legacy, legacyConfig, flash.view, activeGeneration);
      BootNotRefused(legacy, legacyConfig, flash.view, activeGeneration, pendingVerify);
      var saved;
      ghost var wrote, n;
      saved, wrote, n := Save(legacyConfig, pendingVerify);
      assert wrote ==> flash.history[|old(flash.history)|..] == images[..n];
      assert !wrote ==> flash.history[|old(flash.history)|..] == [];
      status := if saved == Ok then FirstBoot else StorageError;
    }

    /** Nothing has been committed yet: the configuration comes from the oldest format, and is committed. */
    method LoadFresh(state: nat, pendingVerify: bool) returns (status: LoadStatus, out: Config)
      requires flash.Valid() && activeSlot == -1 && state == StateOf(flash.view) && Sized(legacyConfig)
      requires Loadable(legacyConfig) && (Untouched(flash.view) || Halfway(legacy, flash.view))
      modifies this, flash
      ensures flash.Valid() && RamOk() && WentBooting() && status in {FirstBoot, StorageError} && out == legacyConfig
      ensures status == FirstBoot ==>
        && Done(legacy, legacyConfig, flash.view) && StateOf(flash.view) == READY[0]
        && flash.floor == |flash.history| - 1
        && flash.failed == old(flash.failed)
      ensures status == StorageError ==> flash.failed || (RequiresV7(legacyConfig) && pendingVerify)
    {
      hide Done, Encoded, RequiresV7, Loadable, Untouched, Halfway, Sized, StateOf;
      out := legacyConfig;
      ghost var start := flash.history;
      if state != MIGRATING[0] {
        StateOnly(legacy, flash.view);
        var saved := SaveState(MIGRATING);
        assert flash.history[|start|..] == [] || flash.history[|start|..] == [flash.view];
        if !saved { return StorageError, out; }
      }
      ghost var middle := flash.history;
      assert StateOf(flash.view) == MIGRATING[0];
      status := FirstSave(pendingVerify);
      assert flash.history[|start|..] == middle[|start|..] + flash.history[|middle|..];
    }

    /** What a slot that is active has to do with what is loaded, and with the images since then. */
    twostate predicate FromActive(active: Index, d: Decoded, status: LoadStatus, out: Config)
      reads this, flash
    {
      && d.Valid? && old(flash.floor) <= flash.floor && old(flash.history) <= flash.history
      && (d.schema >= 6 ==>
        && out == d.config && (status == Loaded || (status == StorageError && flash.failed))
        && (status == Loaded ==> StateOf(flash.view) == READY[0])
        && (StateOf(old(flash.view)) == READY[0] ==> status == Loaded && unchanged(flash))
        && (flash.view == old(flash.view) || flash.view == old(flash.view)[State := READY])
        && (flash.history == old(flash.history)
          || flash.history == old(flash.history) + [old(flash.view)[State := READY]]))
      && (d.schema < 6 ==>
        && status in {Migrated, StorageError}
        && (status == Migrated ==> Some(out) == if d.schema <= 3 then overlay(d.config) else Some(d.config))
        && (Steady(7, legacy, old(flash.view), active, d) ==>
          && out.webAccounts != [] && AllMigrating(legacy, flash.history[|old(flash.history)|..], active, d, out)
          && (status == Migrated ==> Steady(7, legacy, flash.view, Other(active), NewDecoded(out, d.generation)))))
    }

    /** A slot is active. One of an older format is migrated as well. */
    method LoadStored(active: Index, pendingVerify: bool) returns (status: LoadStatus, out: Config)
      requires flash.Valid() && RamOk() && Trusted(legacy, overlay)
      requires SelectIn(legacy, flash.view).active == active
      modifies this, flash
      ensures flash.Valid() && RamOk() && FromActive(active, ActiveHolds(legacy, old(flash.view)), status, out)
    {
      hide SlotOf, Select, Steady, Decode, Trusted, NewDecoded, AllMigrating, SemanticallyValid, KeepaliveBounded,
        StateOf;
      ghost var m, start := flash.view, flash.history;
      SelectedSlot(legacy, m);
      ValidSlot(legacy, m, active);
      ghost var d := ActiveHolds(legacy, m);
      TrustedLoads(legacy, overlay, m[BlobKey(active)]);
      var migrate;
      status, out, migrate := LoadActive(active);
      OverlaidLoads(legacy, overlay, d.config);
      if d.schema < 6 && Steady(7, legacy, m, active, d) { StateMigrates(legacy, m, active, d, out); }
      ghost var middle := flash.history;
      assert middle[|start|..] == [] || middle[|start|..] == [m[State := READY]];
      if migrate {
        status := Migrate(out, pendingVerify, active, d);
        assert flash.history[|start|..] == middle[|start|..] + flash.history[|middle|..];
        if Steady(7, legacy, m, active, d) {
          MigratingOn(legacy, middle[|start|..], flash.history[|middle|..], active, d, out);
        }
      }
    }

    method Load(pendingVerify: bool) returns (status: LoadStatus, out: Config)
      requires flash.Valid() && activeSlot == -1 && Trusted(legacy, overlay) && Loadable(legacyConfig)
      modifies this, flash
      ensures flash.Valid() && RamOk()
      // Data that cannot be used is never replaced.
      ensures Unselectable(legacy, old(flash.view)) ==> status in {StorageError, UnsupportedSchema} && unchanged(flash)
      // What the active slot holds is what is loaded.
      ensures var active := SelectIn(legacy, old(flash.view)).active;
              active in {0, 1} ==> FromActive(active, ActiveHolds(legacy, old(flash.view)), status, out)
      // The first start.
      ensures Untouched(old(flash.view)) || Halfway(legacy, old(flash.view)) ==>
        && WentBooting() && status in {FirstBoot, StorageError} && out == legacyConfig
        && (status == FirstBoot ==>
          Done(legacy, legacyConfig, flash.view) && StateOf(flash.view) == READY[0]
            && flash.floor == |flash.history| - 1)
        && (status == StorageError ==> flash.failed || (RequiresV7(legacyConfig) && pendingVerify))
    {
      hide SlotOf, Select, Steady, AllMigrating, NewDecoded, Decode, Booting, Done, Untouched, Halfway, Trusted,
        SemanticallyValid, KeepaliveBounded, ActiveHolds, RequiresV7;
      out := legacyConfig;
      var a, b, s := SelectSlots();
      var state := ReadState();
      var resumable := s.active < 0 && ResumableMigration(a, b, state);
      SelectedSlot(legacy, flash.view);
      if Untouched(flash.view) || Halfway(legacy, flash.view) { FreshSelects(legacy, flash.view); }
      if s.unsupported { return UnsupportedSchema, out; }
      if (s.invalid && !resumable) || (s.anyData && s.active < 0 && !resumable) { return StorageError, out; }
      if s.active >= 0 {
        status, out := LoadStored(s.active, pendingVerify);
        return;
      }
      FreshOrHalfway(legacy, flash.view);
      if state != 0 && state != MIGRATING[0] { return StorageError, out; }
      status, out := LoadFresh(state, pendingVerify);
    }
  }
}
