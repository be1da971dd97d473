/**
 * The two slots of the configuration store: what a slot holds, which slot is the active
 * one, and what the images that a save goes through have in common.
 */
module ConfigSlots {
  import opened Bytes
  import opened ConfigTypes
  import opened ConfigBlob
  import opened ConfigWire
  import opened ConfigCodec

  datatype Key = CfgA | CfgB | MarkA | MarkB | State

  type Image = map<Key, seq<byte>>

  const MIGRATING: seq<byte> := [1]
  const READY: seq<byte> := [2]

  type Index = i: int | 0 <= i < 2

  function BlobKey(i: Index): Key { if i == 0 then CfgA else CfgB }

  function MarkerKey(i: Index): Key { if i == 0 then MarkA else MarkB }

  function Other(i: Index): Index { 1 - i }

  datatype Slot = Slot(
    blobPresent: bool, markerPresent: bool, resumable: bool, hardInvalid: bool,
    unsupported: bool, valid: bool, schema: nat, generation: u32)

  const EMPTY_SLOT := Slot(false, false, false, false, false, false, 0, 0)

  function At(m: Image, key: Key): Option<seq<byte>> { if key in m then Some(m[key]) else None }

  /** What firmware that knows schemas up to `newest` makes of a blob. */
  ghost function DecodeUpTo(newest: nat, legacy: Legacy, blob: seq<byte>): Decoded {
    if HeaderOk(blob) && Get16(blob, 4) > newest then Unsupported(Get32(blob, 8)) else Decode(legacy, blob)
  }

  predicate SizeOk(blob: seq<byte>) { HEADER_BYTES <= |blob| <= MAX_BLOB_SIZE }

  /** A marker vouches for a blob of a generation. */
  predicate Vouches(marker: seq<byte>, blob: seq<byte>, generation: u32) {
    ReadMarker(marker) == Some(Mark(generation, |blob| % 0x1_0000_0000, Crc32(blob)))
  }

  ghost function ReadSlot(newest: nat, legacy: Legacy, blob: Option<seq<byte>>, marker: Option<seq<byte>>): (r: Slot)
    ensures !(r.valid && r.unsupported)
  {
    var s := EMPTY_SLOT.(blobPresent := blob.Some?, markerPresent := marker.Some?);
    if (blob.Some? && !SizeOk(blob.value))
      || (marker.Some? && |marker.value| != MARKER_BYTES) then s.(hardInvalid := true)
    else if blob.Some? && marker.None? then
      var resumable := DecodeUpTo(newest, legacy, blob.value).Valid?
        && DecodeUpTo(newest, legacy, blob.value).schema >= 6;
      s.(resumable := resumable, hardInvalid := !resumable)
    else if marker.Some? && blob.None? then s.(hardInvalid := true)
    else if blob.None? then s
    else
      match DecodeUpTo(newest, legacy, blob.value)
      case Invalid => s.(hardInvalid := true)
      case Unsupported(generation) =>
        if Vouches(marker.value, blob.value, generation) then s.(unsupported := true, generation := generation)
        else s.(hardInvalid := true)
      case Valid(_, schema, generation) =>
        if Vouches(marker.value, blob.value, generation) then s.(valid := true, schema := schema,
          generation := generation)
        else s.(hardInvalid := true)
  }

  ghost function SlotOf(newest: nat, legacy: Legacy, m: Image, i: Index): Slot {
    ReadSlot(newest, legacy, At(m, BlobKey(i)), At(m, MarkerKey(i)))
  }

  /** Generations count modulo 2^32; the newer of two is less than half a turn ahead. */
  predicate Newer(left: u32, right: u32) { 0 < (left - right) % 0x1_0000_0000 < 0x8000_0000 }

  function Next(g: u32): u32 { (g + 1) % 0x1_0000_0000 }

  lemma NextIsNewer(g: u32)
    ensures Newer(Next(g), g) && !Newer(g, Next(g))
  {
  }

  datatype Selection = Selection(active: int, generation: u32, invalid: bool, unsupported: bool, anyData: bool)

  predicate AnyData(a: Slot, b: Slot) { a.blobPresent || a.markerPresent || b.blobPresent || b.markerPresent }

  /** The newest unsupported generation, if there is one. */
  function NewestUnsupported(a: Slot, b: Slot): Option<u32> {
    if a.unsupported && b.unsupported then Some(if Newer(b.generation, a.generation) then b.generation
      else a.generation)
    else if a.unsupported then Some(a.generation) else if b.unsupported then Some(b.generation) else None
  }

  /** Which slot is active: a valid one, the newer one of two, unless a still newer one is unsupported. */
  function Select(a: Slot, b: Slot): Selection {
    if a.valid || b.valid then
      var active := if !a.valid then 1 else if !b.valid then 0 else if Newer(b.generation, a.generation) then 1 else 0;
      var generation := if active == 0 then a.generation else b.generation;
      var n := NewestUnsupported(a, b);
      var unsupported := n.Some? && Newer(n.value, generation);
      Selection(if unsupported then -1 else active, generation, false, unsupported, AnyData(a, b))
    else
      var unsupported := a.unsupported || b.unsupported;
      Selection(-1, 0, !unsupported && AnyData(a, b), unsupported, AnyData(a, b))
  }

  /**
   * A slot is active if it is valid and the other one holds nothing newer, whether or not that can be read. None is if
   * neither is valid, or if what is newer cannot be read: then the older one is not used in its place.
   */
  lemma SelectMeans(a: Slot, b: Slot)
    requires !(a.valid && a.unsupported) && !(b.valid && b.unsupported)
    ensures var s, data := Select(a, b), AnyData(a, b);
            && (s.active == 0 <==> a.valid && !((b.valid || b.unsupported) && Newer(b.generation, a.generation)))
            && (s.active == 1 <==>
              && b.valid && (a.valid ==> Newer(b.generation, a.generation))
              && !(a.unsupported && Newer(a.generation, b.generation)))
            && (s.active == -1 <==>
              || (!a.valid && !b.valid)
              || (a.valid && b.unsupported && Newer(b.generation, a.generation))
              || (b.valid && a.unsupported && Newer(a.generation, b.generation)))
            && (s.active != -1 ==> s.generation == (if s.active == 0 then a else b).generation)
            && s.active in {-1, 0, 1} && s.anyData == data
            && (s.active == -1 ==>
              s.unsupported == (a.unsupported || b.unsupported) && s.invalid == (!s.unsupported && data))
            && (s.active != -1 ==> !s.unsupported && !s.invalid)
  {
  }

  /** Older firmware finds a configuration of a later schema: it takes neither that nor what was there before. */
  lemma LaterSchemaRefused(older: nat, newest: nat, legacy: Legacy, m: Image, a: Index, d: Decoded)
    requires Steady(newest, legacy, m, a, d) && older < d.schema && older <= newest
    ensures var s := Select(SlotOf(older, legacy, m, 0), SlotOf(older, legacy, m, 1));
            s.active == -1 && s.unsupported && !s.invalid
  {
    hide Select, Newer, Next, ReadSlot, DecodeUpTo;
    var o := SlotOf(newest, legacy, m, Other(a));
    if o.valid { NextIsNewer(o.generation); }
    SeenByOlder(older, newest, legacy, At(m, BlobKey(a)), At(m, MarkerKey(a)));
    SeenByOlder(older, newest, legacy, At(m, BlobKey(Other(a))), At(m, MarkerKey(Other(a))));
    SelectMeans(SlotOf(older, legacy, m, 0), SlotOf(older, legacy, m, 1));
  }

  /** What older firmware makes of a slot that newer firmware can read. */
  lemma SeenByOlder(older: nat, newest: nat, legacy: Legacy, blob: Option<seq<byte>>, marker: Option<seq<byte>>)
    requires older <= newest
    ensures var s, o := ReadSlot(newest, legacy, blob, marker), ReadSlot(older, legacy, blob, marker);
            && (s.valid && s.schema > older ==> o.unsupported && o.generation == s.generation)
            && (o.valid ==> s.valid && s.generation == o.generation && s.schema == o.schema)
  {
    hide HeaderOk, Crc32, ReadMarker, SizeOk, Vouches, Decode;
    if blob.Some? { SchemaInHeader(newest, legacy, blob.value); SchemaInHeader(older, legacy, blob.value); }
  }

  lemma SchemaInHeader(newest: nat, legacy: Legacy, blob: seq<byte>)
    ensures var d := DecodeUpTo(newest, legacy, blob);
            d.Valid? ==> HeaderOk(blob) && d == Valid(d.config, Get16(blob, 4), Get32(blob, 8))
  {
    hide Crc32, Vouches, Get16, Get32;
  }

  /** The state byte; 0 when there is none. */
  function StateOf(m: Image): nat { if State in m && |m[State]| == 1 then m[State][0] else 0 }

  predicate ResumableMigration(a: Slot, b: Slot, state: nat) {
    && state == MIGRATING[0] && a.resumable && !a.markerPresent && !a.hardInvalid && !a.unsupported
    && !b.blobPresent && !b.markerPresent && !b.hardInvalid && !b.unsupported
  }

  // ----- images with a committed configuration -----

  /** Slot `a` is active and decodes to `d`; the other slot holds nothing newer. */
  ghost predicate Steady(newest: nat, legacy: Legacy, m: Image, a: Index, d: Decoded): (r: bool)
    ensures r ==> d.Valid?
  {
    var s, o := SlotOf(newest, legacy, m, a), SlotOf(newest, legacy, m, Other(a));
    && d.Valid? && s.valid && s.generation == d.generation && s.schema == d.schema
    && BlobKey(a) in m && DecodeUpTo(newest, legacy, m[BlobKey(a)]) == d
    && !o.unsupported && (o.valid ==> Next(o.generation) == d.generation)
  }

  /** The image holds `c` for the next load, in one slot or the other, in a format that need not be migrated. */
  ghost predicate Holds(newest: nat, legacy: Legacy, m: Image, c: Config) {
    exists a: Index, d: Decoded :: Steady(newest, legacy, m, a, d) && d.config == c && d.schema >= 6
  }

  lemma SteadySelects(newest: nat, legacy: Legacy, m: Image, a: Index, d: Decoded)
    requires Steady(newest, legacy, m, a, d)
    ensures var s := Select(SlotOf(newest, legacy, m, 0), SlotOf(newest, legacy, m, 1));
            s.active == a && s.generation == d.generation && !s.invalid && !s.unsupported && s.anyData
  {
    hide DecodeUpTo, Vouches;
    var o := SlotOf(newest, legacy, m, Other(a));
    if o.valid { NextIsNewer(o.generation); }
  }

  /** An image holds at most one configuration. */
  lemma HoldsOne(newest: nat, legacy: Legacy, m: Image, c: Config, d: Config)
    requires Holds(newest, legacy, m, c) && Holds(newest, legacy, m, d)
    ensures c == d
  {
    hide SlotOf, DecodeUpTo, Select;
    var a: Index, x: Decoded :| Steady(newest, legacy, m, a, x) && x.config == c;
    var b: Index, y: Decoded :| Steady(newest, legacy, m, b, y) && y.config == d;
    SteadySelects(newest, legacy, m, a, x);
    SteadySelects(newest, legacy, m, b, y);
  }

  /** Two committed slots are one generation apart, also where the count wraps around. */
  lemma OneGenerationApart(newest: nat, legacy: Legacy, m: Image, a: Index, d: Decoded)
    requires Steady(newest, legacy, m, a, d) && SlotOf(newest, legacy, m, Other(a)).valid
    ensures Newer(d.generation, SlotOf(newest, legacy, m, Other(a)).generation)
    ensures Next(SlotOf(newest, legacy, m, Other(a)).generation) == d.generation
  {
    hide SlotOf, DecodeUpTo;
    NextIsNewer(SlotOf(newest, legacy, m, Other(a)).generation);
  }

  // ----- the images that a save goes through -----

  lemma SlotDepends(newest: nat, legacy: Legacy, m: Image, n: Image, i: Index)
    requires At(m, BlobKey(i)) == At(n, BlobKey(i)) && At(m, MarkerKey(i)) == At(n, MarkerKey(i))
    ensures SlotOf(newest, legacy, m, i) == SlotOf(newest, legacy, n, i)
  {
  }

  lemma UnmarkedSlot(newest: nat, legacy: Legacy, m: Image, i: Index)
    requires MarkerKey(i) !in m
    ensures !SlotOf(newest, legacy, m, i).valid && !SlotOf(newest, legacy, m, i).unsupported
  {
    hide DecodeUpTo, SizeOk;
  }

  /** As long as the other slot has no marker, whatever is in it does not matter. */
  lemma UnmarkedKeeps(newest: nat, legacy: Legacy, m: Image, n: Image, a: Index, d: Decoded)
    requires Steady(newest, legacy, m, a, d) && MarkerKey(Other(a)) !in n
    requires At(m, BlobKey(a)) == At(n, BlobKey(a)) && At(m, MarkerKey(a)) == At(n, MarkerKey(a))
    ensures Steady(newest, legacy, n, a, d)
  {
    hide ReadSlot, DecodeUpTo;
    SlotDepends(newest, legacy, m, n, a);
    UnmarkedSlot(newest, legacy, n, Other(a));
  }

  lemma StateAside(newest: nat, legacy: Legacy, m: Image, a: Index, d: Decoded, v: seq<byte>)
    requires Steady(newest, legacy, m, a, d)
    ensures Steady(newest, legacy, m[State := v], a, d)
  {
    hide ReadSlot, DecodeUpTo;
    SlotDepends(newest, legacy, m, m[State := v], a);
    SlotDepends(newest, legacy, m, m[State := v], Other(a));
  }

  /** A slot that has been written in full holds what it was given, if a decoder takes that back. */
  lemma WrittenSlot(legacy: Legacy, m: Image, t: Index, c: Config, schema: u16, g: u32)
    requires schema in {6, 7} && Encodable(c, schema) && c.webAccounts != []
    requires At(m, BlobKey(t)) == Some(Encoded(c, schema, g))
    requires At(m, MarkerKey(t)) == Some(Marker(g, |Encoded(c, schema, g)| % 0x1_0000_0000,
      Crc32(Encoded(c, schema, g))))
    ensures var s := SlotOf(7, legacy, m, t);
            if KeepaliveBounded(c) then
              && s.valid && s.generation == g && s.schema == schema && !s.unsupported
              && DecodeUpTo(7, legacy, m[BlobKey(t)]) == Valid(Normal(c), schema, g)
            else !s.valid && !s.unsupported
  {
    hide SemanticallyValid, RequiresV7, Values, WireAll, KeepaliveBounded, Normal, Crc32, Decode, ReadMarker, Marker,
      Encoded, Get16, Get32;
    var blob := Encoded(c, schema, g);
    EncodedDecodes(legacy, c, schema, g);
    MarkerBack(g, |blob| % 0x1_0000_0000, Crc32(blob));
    assert m[BlobKey(t)] == blob;
  }

  /** The marker is what commits: with it the new configuration is there, or still the old one. */
  lemma MarkedHolds(legacy: Legacy, m: Image, a: Index, d: Decoded, c: Config, schema: u16)
    requires Steady(7, legacy, m, a, d) && schema in {6, 7} && Encodable(c, schema) && c.webAccounts != []
    requires BlobKey(Other(a)) in m && m[BlobKey(Other(a))] == Encoded(c, schema, Next(d.generation))
    ensures var g := Next(d.generation);
            var blob := Encoded(c, schema, g);
            var n := m[MarkerKey(Other(a)) := Marker(g, |blob| % 0x1_0000_0000, Crc32(blob))];
            if KeepaliveBounded(c) then Steady(7, legacy, n, Other(a), Valid(Normal(c), schema, g))
              else Steady(7, legacy, n, a, d)
  {
    hide SemanticallyValid, RequiresV7, KeepaliveBounded, Normal, Crc32, Marker, Encoded, ReadSlot, DecodeUpTo,
      Encodable;
    var g, t := Next(d.generation), Other(a);
    var blob := Encoded(c, schema, g);
    var n := m[MarkerKey(t) := Marker(g, |blob| % 0x1_0000_0000, Crc32(blob))];
    SlotDepends(7, legacy, m, n, a);
    assert Other(t) == a && n[BlobKey(t)] == blob && n[BlobKey(a)] == m[BlobKey(a)];
    WrittenSlot(legacy, n, t, c, schema, g);
  }

  // ----- firmware that knows schema 6 only -----

  /** No slot has a blob of a later schema. */
  predicate NoLater(newest: nat, m: Image) {
    forall i: Index :: BlobKey(i) in m && HeaderOk(m[BlobKey(i)]) ==> Get16(m[BlobKey(i)], 4) <= newest
  }

  lemma OlderReadsTheSame(legacy: Legacy, m: Image, i: Index)
    requires NoLater(6, m)
    ensures SlotOf(6, legacy, m, i) == SlotOf(7, legacy, m, i)
    ensures BlobKey(i) in m ==> DecodeUpTo(6, legacy, m[BlobKey(i)]) == DecodeUpTo(7, legacy, m[BlobKey(i)])
  {
    hide HeaderOk, Get16, Decode, SizeOk, Vouches;
  }

  /** While no slot is of schema 7, firmware that supports schema 6 at most selects and decodes the same. */
  lemma RollbackHolds(legacy: Legacy, m: Image, c: Config)
    requires NoLater(6, m)
    ensures Holds(6, legacy, m, c) <==> Holds(7, legacy, m, c)
  {
    hide ReadSlot, DecodeUpTo, NoLater, SlotOf;
    forall a: Index, d: Decoded ensures Steady(6, legacy, m, a, d) == Steady(7, legacy, m, a, d) {
      OlderReadsTheSame(legacy, m, a);
      OlderReadsTheSame(legacy, m, Other(a));
    }
  }

  lemma EncodedSchema(c: Config, schema: u16, g: u32)
    requires schema in {6, 7} && Encodable(c, schema)
    ensures HeaderOk(Encoded(c, schema, g)) && Get16(Encoded(c, schema, g), 4) == schema
  {
    hide SemanticallyValid, RequiresV7, Values, WireAll, Crc32, Get16, Get32, Blob;
    BlobFields(schema, g, WireAll(Values(c, schema == 7, true)));
  }
}
