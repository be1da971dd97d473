/**
 * The images of the flash that a save, and the first start, go through.
 */
module ConfigImages {
  import opened Bytes
  import opened ConfigTypes
  import opened ConfigWire
  import opened ConfigBlob
  import opened ConfigSlots

  /** The images of a save into slot `t`, in the order in which they are written. */
  function Images(m: Image, t: Index, blob: seq<byte>, marker: seq<byte>): (r: seq<Image>)
    ensures |r| == 4
  {
    var m1 := m - {MarkerKey(t)};
    var m2 := m1[BlobKey(t) := blob];
    var m3 := m2[MarkerKey(t) := marker];
    [m1, m2, m3, m3[State := READY]]
  }

  function MarkerOf(blob: seq<byte>, g: u32): seq<byte> { Marker(g, |blob| % 0x1_0000_0000, Crc32(blob)) }

  /** Every image of a save keeps the old configuration until the marker is there; from then on the new one is there. */
  lemma SaveImages(legacy: Legacy, m: Image, a: Index, d: Decoded, c: Config, schema: u16, k: nat)
    requires Steady(7, legacy, m, a, d) && schema in {6, 7} && Encodable(c, schema) && c.webAccounts != [] && k < 4
    ensures var g := Next(d.generation);
            var blob := Encoded(c, schema, g);
            var image := Images(m, Other(a), blob, MarkerOf(blob, g))[k];
            if k >= 2 && KeepaliveBounded(c) then Steady(7, legacy, image, Other(a), Valid(Normal(c), schema, g))
            else Steady(7, legacy, image, a, d)
  {
    hide KeepaliveBounded, Normal, Crc32, Marker, Encoded, Encodable, Steady;
    var g, t := Next(d.generation), Other(a);
    var blob := Encoded(c, schema, g);
    var marker := MarkerOf(blob, g);
    var m1 := m - {MarkerKey(t)};
    var m2 := m1[BlobKey(t) := blob];
    var m3 := m2[MarkerKey(t) := marker];
    UnmarkedKeeps(7, legacy, m, m1, a, d);
    UnmarkedKeeps(7, legacy, m, m2, a, d);
    MarkedHolds(legacy, m2, a, d, c, schema);
    if KeepaliveBounded(c) {
      StateAside(7, legacy, m3, t, Valid(Normal(c), schema, g), READY);
    } else {
      StateAside(7, legacy, m3, a, d, READY);
    }
  }

  function SchemaFor(c: Config): u16 { if RequiresV7(c) then 7 else 6 }

  ghost function SelectIn(legacy: Legacy, m: Image): Selection {
    Select(SlotOf(7, legacy, m, 0), SlotOf(7, legacy, m, 1))
  }

  /** The slot that a save starts from: the selected one, or else the one that it remembers. */
  ghost function BaseIn(legacy: Legacy, m: Image, ram: (int, u32)): (int, u32) {
    var s := SelectIn(legacy, m);
    if ram.0 >= 0 && s.active < 0 then ram else (s.active, s.generation)
  }

  /** When a save does not write at all. */
  ghost predicate Refused(legacy: Legacy, m: Image, ram: (int, u32), c: Config, pendingVerify: bool) {
    var a, b, s := SlotOf(7, legacy, m, 0), SlotOf(7, legacy, m, 1), SelectIn(legacy, m);
    var active := BaseIn(legacy, m, ram).0;
    || (s.invalid && !(s.active < 0 && ResumableMigration(a, b, StateOf(m))))
    || s.unsupported
    || (SchemaFor(c) == 7 && pendingVerify
      && (if active < 0 then 0 else if active == 0 then a.schema else b.schema) < 7)
    || !Encodable(c, SchemaFor(c))
  }

  ghost function ImagesOf(legacy: Legacy, m: Image, ram: (int, u32), c: Config): (r: seq<Image>)
    ensures |r| == 4
  {
    var base := BaseIn(legacy, m, ram);
    var blob := Encoded(c, SchemaFor(c), Next(base.1));
    Images(m, if base.0 == 0 then 1 else 0, blob, MarkerOf(blob, Next(base.1)))
  }

  /** A configuration that can be stored and read back. */
  predicate Loadable(c: Config) { Sized(c) && SemanticallyValid(c, false) && KeepaliveBounded(c) }

  /** An empty partition, whether or not the first start has been noted. */
  predicate Untouched(m: Image) {
    CfgA !in m && CfgB !in m && MarkA !in m && MarkB !in m && StateOf(m) in {0, MIGRATING[0]}
  }

  /** The first start was cut off between a blob and its marker. */
  ghost predicate Halfway(legacy: Legacy, m: Image) {
    && StateOf(m) == MIGRATING[0] && CfgA in m && MarkA !in m && CfgB !in m && MarkB !in m
    && SlotOf(7, legacy, m, 0).resumable
  }

  ghost predicate Done(legacy: Legacy, c: Config, m: Image) {
    c.webAccounts != [] && Steady(7, legacy, m, 0, Valid(Normal(c), SchemaFor(c), 1))
  }

  /** Every image that the first start can leave behind. */
  ghost predicate Booting(legacy: Legacy, c: Config, m: Image) {
    Untouched(m) || Halfway(legacy, m) || Done(legacy, c, m)
  }

  lemma StateOnly(legacy: Legacy, m: Image)
    requires Untouched(m) || Halfway(legacy, m)
    ensures var n := m[State := MIGRATING];
            StateOf(n) == MIGRATING[0] && if Untouched(m) then Untouched(n) else Halfway(legacy, n)
  {
    hide ReadSlot;
    SlotDepends(7, legacy, m, m[State := MIGRATING], 0);
  }

  lemma FreshSlots(legacy: Legacy, m: Image)
    requires Untouched(m)
    ensures SlotOf(7, legacy, m, 0) == EMPTY_SLOT == SlotOf(7, legacy, m, 1)
    ensures SelectIn(legacy, m) == Selection(-1, 0, false, false, false)
  {
  }

  lemma HalfwaySlots(legacy: Legacy, m: Image)
    requires Halfway(legacy, m)
    ensures SlotOf(7, legacy, m, 0) == EMPTY_SLOT.(blobPresent := true, resumable := true)
    ensures SlotOf(7, legacy, m, 1) == EMPTY_SLOT
    ensures SelectIn(legacy, m) == Selection(-1, 0, true, false, true)
  {
    hide DecodeUpTo, Vouches;
  }

  /** A blob without its marker can be taken up again at the next start. */
  lemma WrittenResumes(legacy: Legacy, c: Config, m: Image)
    requires Loadable(c) && CfgA in m && m[CfgA] == Encoded(c, SchemaFor(c), 1) && MarkA !in m
    ensures SlotOf(7, legacy, m, 0).resumable
  {
    hide SemanticallyValid, KeepaliveBounded, RequiresV7, Encoded, Decode, Vouches, Normal, Encodable, HeaderOk;
    BoundedIsEncodable(c);
    EncodedDecodes(legacy, c, SchemaFor(c), 1);
    DecodeSame(legacy, m[CfgA]);
    EnvelopeSize(m[CfgA], SchemaFor(c), 1);
  }

  lemma EnvelopeSize(blob: seq<byte>, schema: u16, g: u32)
    requires EnvelopeOk(blob, schema, g)
    ensures SizeOk(blob)
  {
    hide Get16, Get32, Crc32;
  }

  lemma BootBase(legacy: Legacy, c: Config, m: Image, g: u32)
    requires (Untouched(m) || Halfway(legacy, m)) && Loadable(c)
    ensures BaseIn(legacy, m, (-1, g)) == (-1, 0)
    ensures ImagesOf(legacy, m, (-1, g), c)
      == Images(m, 0, Encoded(c, SchemaFor(c), 1), MarkerOf(Encoded(c, SchemaFor(c), 1), 1))
  {
    hide Loadable, Encoded, SelectIn, Untouched, Halfway, Images, Marker, Crc32;
    if Untouched(m) { FreshSlots(legacy, m); } else { HalfwaySlots(legacy, m); }
  }

  /** Whatever image the first start leaves behind, a later one can finish it. */
  lemma BootImages(legacy: Legacy, c: Config, m: Image, g: u32)
    requires (Untouched(m) || Halfway(legacy, m)) && Loadable(c) && StateOf(m) == MIGRATING[0]
    ensures var images := ImagesOf(legacy, m, (-1, g), c);
            && Booting(legacy, c, images[0]) && Booting(legacy, c, images[1])
            && Done(legacy, c, images[2]) && Done(legacy, c, images[3]) && StateOf(images[3]) == READY[0]
  {
    hide Encoded, Crc32, Marker, Loadable, SlotOf, ImagesOf, Done, Halfway, Untouched;
    BootBase(legacy, c, m, g);
    var blob := Encoded(c, SchemaFor(c), 1);
    FirstUnmarked(legacy, c, m);
    FirstMarked(legacy, c, (m - {MarkA})[CfgA := blob]);
  }

  lemma FirstUnmarked(legacy: Legacy, c: Config, m: Image)
    requires (Untouched(m) || Halfway(legacy, m)) && Loadable(c) && StateOf(m) == MIGRATING[0]
    ensures Booting(legacy, c, m - {MarkA})
    ensures var n := (m - {MarkA})[CfgA := Encoded(c, SchemaFor(c), 1)];
            Halfway(legacy, n) && MarkB !in n && CfgB !in n
  {
    hide Encoded, Loadable, SlotOf, Done;
    assert m - {MarkA} == m;
    WrittenResumes(legacy, c, (m - {MarkA})[CfgA := Encoded(c, SchemaFor(c), 1)]);
  }

  lemma FirstMarked(legacy: Legacy, c: Config, m: Image)
    requires CfgA in m && m[CfgA] == Encoded(c, SchemaFor(c), 1) && MarkB !in m && CfgB !in m && Loadable(c)
    ensures var n := m[MarkA := MarkerOf(Encoded(c, SchemaFor(c), 1), 1)];
            Done(legacy, c, n) && Done(legacy, c, n[State := READY]) && StateOf(n[State := READY]) == READY[0]
  {
    hide Encoded, Crc32, Marker, SemanticallyValid, KeepaliveBounded, RequiresV7, Normal, Encodable, SlotOf, DecodeUpTo;
    var n := m[MarkA := MarkerOf(Encoded(c, SchemaFor(c), 1), 1)];
    BoundedIsEncodable(c);
    WrittenSlot(legacy, n, 0, c, SchemaFor(c), 1);
    EmptySlot(legacy, n, 1);
    StateAside(7, legacy, n, 0, Valid(Normal(c), SchemaFor(c), 1), READY);
  }

  lemma EmptySlot(legacy: Legacy, m: Image, i: Index)
    requires BlobKey(i) !in m && MarkerKey(i) !in m
    ensures SlotOf(7, legacy, m, i) == EMPTY_SLOT
  {
  }

  lemma BootNotRefused(legacy: Legacy, c: Config, m: Image, g: u32, pendingVerify: bool)
    requires (Untouched(m) || Halfway(legacy, m)) && Loadable(c) && StateOf(m) == MIGRATING[0]
    ensures Refused(legacy, m, (-1, g), c, pendingVerify) <==> RequiresV7(c) && pendingVerify
  {
    hide Encoded, SemanticallyValid, KeepaliveBounded, RequiresV7, Encodable, SlotOf, SelectIn, Untouched, Halfway;
    BoundedIsEncodable(c);
    BootBase(legacy, c, m, g);
    if Untouched(m) { FreshSlots(legacy, m); } else { HalfwaySlots(legacy, m); }
  }

  lemma ValidSlot(legacy: Legacy, m: Image, i: Index)
    requires SlotOf(7, legacy, m, i).valid
    ensures BlobKey(i) in m && Decode(legacy, m[BlobKey(i)]).Valid?
  {
    hide Decode, Vouches, HeaderOk;
    DecodeSame(legacy, if BlobKey(i) in m then m[BlobKey(i)] else []);
  }

  lemma SelectionRange(a: Slot, b: Slot)
    ensures -1 <= Select(a, b).active <= 1
  {
    hide Newer;
  }

  lemma EncodedEnvelope(legacy: Legacy, c: Config, schema: u16, g: u32)
    requires schema in {6, 7} && Encodable(c, schema)
    ensures EnvelopeOk(Encoded(c, schema, g), schema, g)
  {
    hide Encodable, Encoded, EnvelopeOk;
    EncodedDecodes(legacy, c, schema, g);
  }

  lemma DecodeSame(legacy: Legacy, blob: seq<byte>)
    ensures DecodeUpTo(7, legacy, blob) == Decode(legacy, blob)
  {
    hide HeaderOk, Get16, Get32;
  }

  /** With a committed configuration a save replaces the other slot, and next to nothing can keep it from starting. */
  lemma SaveFromSteady(legacy: Legacy, m: Image, a: Index, d: Decoded, ram: (int, u32), c: Config, pendingVerify: bool)
    requires Steady(7, legacy, m, a, d)
    ensures ImagesOf(legacy, m, ram, c)
         == Images(m, Other(a), Encoded(c, SchemaFor(c), Next(d.generation)),
                   MarkerOf(Encoded(c, SchemaFor(c), Next(d.generation)), Next(d.generation)))
    ensures Refused(legacy, m, ram, c, pendingVerify)
       <==> (RequiresV7(c) && pendingVerify && d.schema < 7) || !Encodable(c, SchemaFor(c))
  {
    hide Encoded, Encodable, RequiresV7, Images, MarkerOf, SlotOf, DecodeUpTo, Select;
    SteadySelects(7, legacy, m, a, d);
  }

  /** There is data, but no slot can be used and the first start cannot be taken up again. */
  ghost predicate Unselectable(legacy: Legacy, m: Image) {
    var a, b, s := SlotOf(7, legacy, m, 0), SlotOf(7, legacy, m, 1), SelectIn(legacy, m);
    s.active < 0 && s.anyData && !ResumableMigration(a, b, StateOf(m))
  }

  /** Apart from that, without an active slot the partition is empty or in the middle of the first start. */
  lemma FreshOrHalfway(legacy: Legacy, m: Image)
    requires SelectIn(legacy, m).active < 0 && !Unselectable(legacy, m)
    ensures Halfway(legacy, m) || (StateOf(m) in {0, MIGRATING[0]} <==> Untouched(m))
  {
    hide DecodeUpTo, Vouches, SizeOk, StateOf;
  }

  lemma FreshSelects(legacy: Legacy, m: Image)
    requires Untouched(m) || Halfway(legacy, m)
    ensures SelectIn(legacy, m).active == -1 && !SelectIn(legacy, m).unsupported && !Unselectable(legacy, m)
    ensures StateOf(m) in {0, MIGRATING[0]}
  {
    hide SlotOf;
    if Untouched(m) { FreshSlots(legacy, m); } else { HalfwaySlots(legacy, m); }
  }

  /** What a slot decodes to after a save of `c` on top of generation `g`. */
  ghost function NewDecoded(c: Config, g: u32): Decoded
    requires c.webAccounts != []
  {
    Valid(Normal(c), SchemaFor(c), Next(g))
  }

  /** All images of a save at once, for a configuration that can be read back. */
  lemma SavedImages(legacy: Legacy, m: Image, a: Index, d: Decoded, c: Config)
    requires Steady(7, legacy, m, a, d) && Loadable(c)
    ensures c.webAccounts != [] && Encodable(c, SchemaFor(c))
    ensures var blob := Encoded(c, SchemaFor(c), Next(d.generation));
            var images := Images(m, Other(a), blob, MarkerOf(blob, Next(d.generation)));
            && Steady(7, legacy, images[0], a, d) && Steady(7, legacy, images[1], a, d)
            && Steady(7, legacy, images[2], Other(a), NewDecoded(c, d.generation))
            && Steady(7, legacy, images[3], Other(a), NewDecoded(c, d.generation))
  {
    hide Encoded, Encodable, RequiresV7, Images, MarkerOf, Steady, Normal, SemanticallyValid;
    BoundedIsEncodable(c);
    SaveImages(legacy, m, a, d, c, SchemaFor(c), 0);
    SaveImages(legacy, m, a, d, c, SchemaFor(c), 1);
    SaveImages(legacy, m, a, d, c, SchemaFor(c), 2);
    SaveImages(legacy, m, a, d, c, SchemaFor(c), 3);
  }

  /** Each of these images still has the old configuration, or else the new one. */
  ghost predicate AllMigrating(legacy: Legacy, images: seq<Image>, a: Index, d: Decoded, c: Config)
    requires d.Valid? && c.webAccounts != []
  {
    forall m | m in images :: Steady(7, legacy, m, a, d) || Steady(7, legacy, m, Other(a), NewDecoded(c, d.generation))
  }

  /** So has every start of the images of a save, and the last one has the new one. */
  lemma SaveMigrates(legacy: Legacy, m: Image, a: Index, d: Decoded, c: Config, ram: (int, u32), n: nat)
    requires Steady(7, legacy, m, a, d) && Loadable(c) && n <= 4 && c.webAccounts != []
    ensures AllMigrating(legacy, ImagesOf(legacy, m, ram, c)[..n], a, d, c)
    ensures Steady(7, legacy, ImagesOf(legacy, m, ram, c)[3], Other(a), NewDecoded(c, d.generation))
  {
    hide Encoded, RequiresV7, Images, MarkerOf, Steady, Normal, ImagesOf, Loadable;
    SaveFromSteady(legacy, m, a, d, ram, c, false);
    SavedImages(legacy, m, a, d, c);
    var images := ImagesOf(legacy, m, ram, c);
    forall x | x in images[..n]
      ensures Steady(7, legacy, x, a, d) || Steady(7, legacy, x, Other(a), NewDecoded(c, d.generation))
    {
      var k :| 0 <= k < n && images[k] == x;
      assert k == 0 || k == 1 || k == 2 || k == 3;
    }
  }

  lemma MigratingOn(legacy: Legacy, s: seq<Image>, t: seq<Image>, a: Index, d: Decoded, c: Config)
    requires d.Valid? && c.webAccounts != []
    requires AllMigrating(legacy, s, a, d, c) && AllMigrating(legacy, t, a, d, c)
    ensures AllMigrating(legacy, s + t, a, d, c)
  {
    hide Steady, NewDecoded;
  }

  /** Noting that the first start is over changes nothing. */
  lemma StateMigrates(legacy: Legacy, m: Image, a: Index, d: Decoded, c: Config)
    requires Steady(7, legacy, m, a, d) && c.webAccounts != []
    ensures Steady(7, legacy, m[State := READY], a, d)
    ensures AllMigrating(legacy, [], a, d, c) && AllMigrating(legacy, [m[State := READY]], a, d, c)
  {
    hide Steady, NewDecoded;
    StateAside(7, legacy, m, a, d, READY);
  }

  /** What the other readers are trusted with: a configuration from them can be stored and read back. */
  ghost predicate Trusted(legacy: Legacy, overlay: Config -> Option<Config>) {
    && (forall schema: nat, payload: seq<byte> :: legacy(schema, payload).Some? ==>
      Loadable(legacy(schema, payload).value))
    && (forall c: Config :: Loadable(c) && overlay(c).Some? ==> Loadable(overlay(c).value))
  }

  lemma TrustedLoads(legacy: Legacy, overlay: Config -> Option<Config>, blob: seq<byte>)
    requires Trusted(legacy, overlay) && Decode(legacy, blob).Valid?
    ensures Loadable(Decode(legacy, blob).config)
  {
    hide SemanticallyValid, KeepaliveBounded, Get32, FromLittle, HeldAs, Encoded, Crc32;
    if Decode(legacy, blob).schema >= 6 {
      DecodedEncodes(legacy, blob);
    } else {
      assert legacy(Get16(blob, 4), blob[HEADER_BYTES..]).Some?;
    }
  }

  lemma OverlaidLoads(legacy: Legacy, overlay: Config -> Option<Config>, c: Config)
    requires Trusted(legacy, overlay) && Loadable(c)
    ensures overlay(c).Some? ==> Loadable(overlay(c).value) && overlay(c).value.webAccounts != []
    ensures c.webAccounts != []
  {
    hide SemanticallyValid, KeepaliveBounded;
  }

  lemma NotRefused(legacy: Legacy, m: Image, a: Index, d: Decoded, ram: (int, u32), c: Config, pendingVerify: bool)
    requires Steady(7, legacy, m, a, d) && Loadable(c)
    ensures Refused(legacy, m, ram, c, pendingVerify) <==> RequiresV7(c) && pendingVerify && d.schema < 7
  {
    hide Encoded, RequiresV7, Steady, SemanticallyValid;
    SaveFromSteady(legacy, m, a, d, ram, c, pendingVerify);
    BoundedIsEncodable(c);
  }

  lemma SelectedSlot(legacy: Legacy, m: Image)
    ensures SelectIn(legacy, m).unsupported ==> SelectIn(legacy, m).active < 0
    ensures SelectIn(legacy, m).active in {-1, 0, 1}
    ensures (SelectIn(legacy, m).invalid ==> SelectIn(legacy, m).anyData && SelectIn(legacy, m).active < 0)
    ensures SelectIn(legacy, m).active >= 0 ==> SlotOf(7, legacy, m, SelectIn(legacy, m).active).valid
  {
    hide SlotOf, Newer;
  }

  /** What the active slot decodes to. */
  ghost function ActiveHolds(legacy: Legacy, m: Image): Decoded {
    var active := SelectIn(legacy, m).active;
    if active in {0, 1} && BlobKey(active) in m then Decode(legacy, m[BlobKey(active)]) else Invalid
  }

  lemma SteadyHolds(legacy: Legacy, m: Image, a: Index, d: Decoded)
    requires Steady(7, legacy, m, a, d)
    ensures SelectIn(legacy, m).active == a && ActiveHolds(legacy, m) == d && !Unselectable(legacy, m)
    ensures !Untouched(m) && !Halfway(legacy, m)
  {
    hide Decode, Select, ReadSlot;
    SteadySelects(7, legacy, m, a, d);
    DecodeSame(legacy, m[BlobKey(a)]);
    MarkedSlot(legacy, m, a);
  }

  lemma MarkedSlot(legacy: Legacy, m: Image, i: Index)
    requires SlotOf(7, legacy, m, i).valid
    ensures BlobKey(i) in m && MarkerKey(i) in m
  {
    hide DecodeUpTo, Vouches, SizeOk;
  }

  /**
   * Any configuration at all, given a keep-alive target that is too long for the decoder: the
   * check before a save lets it pass, so it is written and committed, and then cannot be read back.
   */
  lemma TooLongIsSaved(legacy: Legacy, c: Config, target: text, g: u32)
    requires Loadable(c) && 64 < |target| <= 3000
    ensures var x := c.(kaTarget := target);
            && Sized(x) && SemanticallyValid(x, false) && Encodable(x, SchemaFor(x))
            && Decode(legacy, Encoded(x, SchemaFor(x), g)) == Invalid
  {
    hide Encoded, Decode, Encodable, RequiresV7, TextsValid, NumbersValid, ArraysValid, HeaderOk, Crc32;
    var x := c.(kaTarget := target);
    TargetAside(c, target);
    ValidIsEncodable(x);
    EncodedDecodes(legacy, x, SchemaFor(x), g);
  }

  lemma TargetAside(c: Config, target: text)
    ensures var x := c.(kaTarget := target);
            && x.kaTarget == target && x.kaUrl == c.kaUrl && x.kaProfile == c.kaProfile
            && Sized(x) == Sized(c) && RequiresV7(x) == RequiresV7(c)
            && SemanticallyValid(x, false) == SemanticallyValid(c, false)
  {
    hide Bounded, BoundedLines, HostnameValid, LocaleValid, TxPowerValid, TrafficValid, AccountValid, ChannelValid,
      WifiValid, SimValid, TaskValid, SimsDistinct;
  }

  function Plainest(): Config {
    var channel := Channel(false, PUSH_TYPE_POST_JSON, [], [], [], [], [], [], [], true, []);
    Config(
      1, Ascii("a"), Ascii("a"), Ascii("en"), [], [], [], [], [], [],
      seq(WEB_ACCOUNTS, _ => Account([], [])), seq(PUSH_CHANNELS, _ => channel), seq(WIFI_NETWORKS, _ => Wifi([], [])),
      0, false, 1, 8, false, false, [], false, 1, 0, [], [], [], 0, 0, [], false, 0, false, 0, false,
      false, false, false, false, [], [], [],
      seq(SIM_CREDENTIALS, _ => Sim([], [], [], 1, 1, 0, 0)),
      seq(SCHED_TASKS, _ => Task(false, [], [], false, 1, 0, [], [], 0)),
      1, Fresh())
  }

  /** There are configurations that can be stored. */
  lemma PlainestLoads()
    ensures Loadable(Plainest()) && SchemaFor(Plainest()) == 6
  {
    hide Fresh, NumbersValid, TextsValid, ArraysValid;
    PlainestNumbers();
    PlainestTexts();
    PlainestArrays();
  }

  lemma PlainestNumbers()
    ensures NumbersValid(Plainest(), false)
  {
    hide Fresh;
  }

  lemma PlainestTexts()
    ensures TextsValid(Plainest(), false)
  {
    hide Fresh, Tail, CodePointOk;
    var en, a := Ascii("en"), Ascii("a");
    assert Utf8From(en, 2) && Utf8From(en, 1) && Utf8From(en, 0);
    assert Utf8From(a, 1) && Utf8From(a, 0);
  }

  lemma PlainestArrays()
    ensures ArraysValid(Plainest(), false)
  {
    hide Fresh, Tail, CodePointOk, Ascii;
  }
}
