/** Whole runs of the certificate cache: installations, writes that fail, and power cuts. */
module CaRuns {
  import opened Bytes
  import opened ConfigTypes
  import opened CaRecords
  import opened CaTables
  import opened CaCache

  datatype Event = Installing(origin: text, der: seq<byte>, freeEntries: nat) | PowerCut

  /** A certificate with this digest has been offered for this origin. */
  ghost predicate OfferedFor(hash: Hash, events: seq<Event>, origin: text, der: seq<byte>) {
    exists e | e in events :: e.Installing? && e.origin == origin && hash(e.der) == hash(der)
  }

  /** The image is sound, and origins resolve only to what has been offered for them. */
  ghost predicate Honest(hash: Hash, m: Image, events: seq<Event>) {
    && Sound(hash, m)
    && forall origin: text, der: seq<byte> :: Finds(hash, m, origin, der) ==> OfferedFor(hash, events, origin, der)
  }

  ghost predicate AllHonest(hash: Hash, images: seq<Image>, events: seq<Event>) {
    forall m | m in images :: Honest(hash, m, events)
  }

  lemma StoredHash(hash: Hash, m: Image, digest: Digest, der: seq<byte>)
    requires hash(der) == digest
    ensures hash(StandsFor(CertsIn(hash, m), digest, der)) == digest
  {
    hide EncodeCert;
    var cs := CertsIn(hash, m);
    if Stored(digest, cs) {
      var c :| 0 <= c < CERT_SLOTS && HasDigest(cs[c], digest) && StandsFor(cs, digest, der) == cs[c].value.der;
      assert CertAt(hash, m, c) == cs[c];
    }
  }

  lemma HonestOn(hash: Hash, before: Image, m: Image, events: seq<Event>, e: Event)
    requires Honest(hash, before, events) && e.Installing?
    requires Fine(hash, before, m, e.origin, StandsFor(CertsIn(hash, before), hash(e.der), e.der))
    ensures Honest(hash, m, events + [e])
  {
    hide CertsIn, BindingsIn, Consistent, Resolves, StandsFor, OfferedFor;
    var cs, bs, ds, es := CertsIn(hash, before), BindingsIn(before), CertsIn(hash, m), BindingsIn(m);
    var kept := StandsFor(cs, hash(e.der), e.der);
    StoredHash(hash, before, hash(e.der), e.der);
    forall origin: text, der: seq<byte> | Finds(hash, m, origin, der)
      ensures OfferedFor(hash, events + [e], origin, der) {
      OfferedOn(hash, events, e, origin, der);
      if origin == e.origin && !SameFor(cs, bs, ds, es, origin) {
        ResolvesOne(ds, es, origin, der, kept);
      } else {
        assert Finds(hash, before, origin, der);
      }
    }
  }

  lemma OfferedOn(hash: Hash, events: seq<Event>, e: Event, origin: text, der: seq<byte>)
    ensures OfferedFor(hash, events, origin, der) ==> OfferedFor(hash, events + [e], origin, der)
    ensures e.Installing? && e.origin == origin && hash(e.der) == hash(der) ==>
      OfferedFor(hash, events + [e], origin, der)
  {
    if OfferedFor(hash, events, origin, der) {
      var x :| x in events && x.Installing? && x.origin == origin && hash(x.der) == hash(der);
      assert x in events + [e];
    }
    assert e in events + [e];
  }

  lemma HonestLater(hash: Hash, images: seq<Image>, events: seq<Event>, e: Event)
    requires AllHonest(hash, images, events)
    ensures AllHonest(hash, images, events + [e])
  {
    hide Sound, Finds, OfferedFor;
    forall m: Image, origin: text, der: seq<byte> | m in images && Finds(hash, m, origin, der)
      ensures OfferedFor(hash, events + [e], origin, der)
    {
      OfferedOn(hash, events, e, origin, der);
    }
  }

  /** From an empty partition, every image of every run is honest. */
  method Run(cache: Cache, events: seq<Event>)
    requires cache.flash.Valid() && cache.flash.view == map[] && cache.flash.history == [map[]]
    requires cache.flash.floor == 0
    modifies cache.flash
    ensures cache.flash.Valid() && AllHonest(cache.hash, cache.flash.history, events)
  {
    hide Honest, Fine, StandsFor, AllNeeded, Needed, AllTaken, OriginValid, EncodeCert;
    var flash, hash := cache.flash, cache.hash;
    EmptyHonest(hash);
    for i := 0 to |events|
      invariant flash.Valid() && AllHonest(hash, flash.history, events[..i])
    {
      ghost var m, start := flash.view, flash.history;
      assert events[..i + 1] == events[..i] + [events[i]];
      HonestLater(hash, start, events[..i], events[i]);
      assert m in start;
      match events[i] {
        case Installing(origin, der, freeEntries) =>
          HonestIsSound(hash, m, events[..i]);
          var status := cache.Install(origin, der, freeEntries);
          ghost var after := flash.history;
          assert after == start + after[|start|..];
          forall n | n in after[|start|..] ensures Honest(hash, n, events[..i + 1]) {
            HonestOn(hash, m, n, events[..i], events[i]);
          }
        case PowerCut =>
          flash.Crash(0);
          assert start[0..] == start;
      }
    }
    assert events[..|events|] == events;
  }

  /** A certificate whose installation has succeeded is what a lookup finds, also after a power cut right behind it. */
  method InstallThenCut(cache: Cache, origin: text, der: seq<byte>, freeEntries: nat)
    returns (status: Status, after: Status, found: seq<byte>)
    requires cache.flash.Valid() && Sound(cache.hash, cache.flash.view)
    modifies cache.flash
    ensures status == Ok ==>
      && after == Ok && found == StandsFor(CertsIn(cache.hash, old(cache.flash.view)), cache.hash(der), der)
      && cache.flash.Valid() && Sound(cache.hash, cache.flash.view)
  {
    hide Consistent, Resolves, CertsIn, BindingsIn, StandsFor, AllNeeded, Needed, AllTaken, OriginValid;
    var flash := cache.flash;
    ghost var hash := cache.hash;
    ghost var m, start := flash.view, flash.history;
    ghost var kept := StandsFor(CertsIn(hash, m), hash(der), der);
    status := cache.Install(origin, der, freeEntries);
    ghost var now := flash.history;
    var floor := flash.floor;
    flash.Crash(floor);
    ghost var n :| floor <= n < |now| && now[n] == flash.view;
    if status == Ok {
      assert now[n] == now[|start|..][n - |start|] && now[n] in now[|start|..];
      assert Fine(hash, m, flash.view, origin, kept);
      assert now[floor..][n - floor] == flash.view;
    }
    after, found := cache.Lookup(origin);
    if status == Ok { ResolvesOne(CertsIn(hash, flash.view), BindingsIn(flash.view), origin, found, kept); }
  }

  lemma HonestIsSound(hash: Hash, m: Image, events: seq<Event>)
    requires Honest(hash, m, events)
    ensures Sound(hash, m)
  {
  }

  lemma EmptyHonest(hash: Hash)
    ensures Honest(hash, map[], [])
  {
    var cs, bs := CertsIn(hash, map[]), BindingsIn(map[]);
    forall origin: text, der: seq<byte>, b, c | 0 <= b < BINDING_SLOTS && 0 <= c < CERT_SLOTS
      ensures !ThroughSlots(cs, bs, b, c, origin, der)
    {
    }
  }
}
