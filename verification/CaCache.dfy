/**
 * Installing and looking up certificates for origins. A certificate is written and read back
 * before the origin is bound to it, and certificates are collected only after the binding.
 */
module CaCache {
  import opened Bytes
  import opened ConfigTypes
  import opened CaRecords
  import opened CaTables
  import opened Flash

  datatype Key = CertKey(slot: nat) | BindKey(slot: nat)

  type Image = map<Key, seq<byte>>

  datatype Status = Ok | NotFound | InvalidArg | InvalidSize | InvalidState | NoMemory | WriteFailed

  // ----- what is on the flash -----

  ghost predicate IsCert(hash: Hash, record: seq<byte>, c: Cert) { CertFits(hash, c) && record == EncodeCert(c) }

  ghost predicate IsBinding(record: seq<byte>, b: Binding) { OriginValid(b.origin) && record == EncodeBinding(b) }

  ghost function CertOf(hash: Hash, record: seq<byte>): Slot<Cert> {
    if c: Cert :| IsCert(hash, record, c) then Full(c) else Bad
  }

  ghost function BindingOf(record: seq<byte>): Slot<Binding> {
    if b: Binding :| IsBinding(record, b) then Full(b) else Bad
  }

  lemma CertOfOne(hash: Hash, c: Cert)
    requires CertFits(hash, c)
    ensures CertOf(hash, EncodeCert(c)) == Full(c)
  {
    hide EncodeCert;
    assert IsCert(hash, EncodeCert(c), c);
    forall d | IsCert(hash, EncodeCert(c), d) ensures d == c { CertUnique(c, d); }
  }

  lemma BindingOfOne(b: Binding)
    requires OriginValid(b.origin)
    ensures BindingOf(EncodeBinding(b)) == Full(b)
  {
    hide EncodeBinding, OriginValid;
    assert IsBinding(EncodeBinding(b), b);
    forall d | IsBinding(EncodeBinding(b), d) ensures d == b { BindingUnique(b, d); }
  }

  ghost function CertAt(hash: Hash, m: Image, i: nat): Slot<Cert> {
    if CertKey(i) in m then CertOf(hash, m[CertKey(i)]) else Empty
  }

  ghost function BindingAt(m: Image, i: nat): Slot<Binding> {
    if BindKey(i) in m then BindingOf(m[BindKey(i)]) else Empty
  }

  ghost function CertsIn(hash: Hash, m: Image): Certs { seq(CERT_SLOTS, i requires 0 <= i => CertAt(hash, m, i)) }

  ghost function BindingsIn(m: Image): Bindings { seq(BINDING_SLOTS, i requires 0 <= i => BindingAt(m, i)) }

  ghost predicate Sound(hash: Hash, m: Image) { Consistent(CertsIn(hash, m), BindingsIn(m)) }

  ghost predicate Finds(hash: Hash, m: Image, origin: text, der: seq<byte>) {
    Resolves(CertsIn(hash, m), BindingsIn(m), origin, der)
  }

  lemma CertWritten(hash: Hash, m: Image, i: nat, c: Cert)
    requires i < CERT_SLOTS && CertFits(hash, c)
    ensures var n := m[CertKey(i) := EncodeCert(c)];
            CertsIn(hash, n) == CertsIn(hash, m)[i := Full(c)] && BindingsIn(n) == BindingsIn(m)
  {
    hide CertOf, BindingOf, EncodeCert, CertFits;
    CertOfOne(hash, c);
  }

  lemma CertErased(hash: Hash, m: Image, i: nat)
    requires i < CERT_SLOTS
    ensures var n := m - {CertKey(i)};
            CertsIn(hash, n) == CertsIn(hash, m)[i := Empty] && BindingsIn(n) == BindingsIn(m)
  {
    hide CertOf, BindingOf;
  }

  lemma BindingWritten(hash: Hash, m: Image, i: nat, b: Binding)
    requires i < BINDING_SLOTS && OriginValid(b.origin)
    ensures var n := m[BindKey(i) := EncodeBinding(b)];
            CertsIn(hash, n) == CertsIn(hash, m) && BindingsIn(n) == BindingsIn(m)[i := Full(b)]
  {
    hide CertOf, BindingOf, EncodeBinding, OriginValid;
    BindingOfOne(b);
  }

  // ----- the images of an installation -----

  /** The image is sound, other origins resolve as before, and this one to what it did or to the new certificate. */
  ghost predicate Fine(hash: Hash, before: Image, m: Image, origin: text, der: seq<byte>) {
    var cs, bs, ds, es := CertsIn(hash, before), BindingsIn(before), CertsIn(hash, m), BindingsIn(m);
    && Consistent(ds, es) && OthersSame(cs, bs, ds, es, origin)
    && (SameFor(cs, bs, ds, es, origin) || Resolves(ds, es, origin, der))
  }

  ghost predicate AllFine(hash: Hash, before: Image, images: seq<Image>, origin: text, der: seq<byte>) {
    forall m | m in images :: Fine(hash, before, m, origin, der)
  }

  /** In every image that a crash can leave behind, the origin resolves to this certificate. */
  ghost predicate Durable(hash: Hash, possible: seq<Image>, origin: text, der: seq<byte>) {
    forall m | m in possible :: Finds(hash, m, origin, der)
  }

  /** The image is sound, and every origin resolves as before. */
  ghost predicate Quiet(hash: Hash, before: Image, m: Image) {
    Sound(hash, m) && AllSame(CertsIn(hash, before), BindingsIn(before), CertsIn(hash, m), BindingsIn(m))
  }

  ghost predicate AllQuiet(hash: Hash, before: Image, images: seq<Image>) {
    forall m | m in images :: Quiet(hash, before, m)
  }

  lemma FineOn(hash: Hash, before: Image, m: Image, n: Image, origin: text, der: seq<byte>)
    requires Fine(hash, before, m, origin, der) && Quiet(hash, m, n)
    ensures Fine(hash, before, n, origin, der) && (Finds(hash, m, origin, der) ==> Finds(hash, n, origin, der))
  {
    hide Consistent, Resolves, CertsIn, BindingsIn;
  }

  lemma QuietIsFine(hash: Hash, before: Image, m: Image, origin: text, der: seq<byte>)
    requires Quiet(hash, before, m)
    ensures Fine(hash, before, m, origin, der)
  {
    hide Consistent, Resolves, CertsIn, BindingsIn;
  }

  /** Binding the origin, after quiet steps. */
  lemma BoundIsFine(hash: Hash, before: Image, m: Image, n: Image, origin: text, der: seq<byte>)
    requires Quiet(hash, before, m) && Sound(hash, n) && Finds(hash, n, origin, der)
    requires OthersSame(CertsIn(hash, m), BindingsIn(m), CertsIn(hash, n), BindingsIn(n), origin)
    ensures Fine(hash, before, n, origin, der)
  {
    hide Consistent, Resolves, CertsIn, BindingsIn;
  }

  // ----- reading -----

  class Cache {
    const flash: Store<Key, seq<byte>>
    const hash: Hash

    constructor (flash: Store<Key, seq<byte>>, hash: Hash)
      ensures this.flash == flash && this.hash == hash
    {
      this.flash, this.hash := flash, hash;
    }

    method ReadCert(i: nat) returns (slot: Slot<Cert>)
      ensures slot == CertAt(hash, flash.view, i)
    {
      hide EncodeCert, CertFits;
      var record := flash.Get(CertKey(i));
      if record.None? { return Empty; }
      var cert := ParseCert(hash, record.value);
      forall c, d | IsCert(hash, record.value, c) && IsCert(hash, record.value, d) ensures c == d { CertUnique(c, d); }
      assert cert.Some? ==> IsCert(hash, record.value, cert.value);
      return if cert.Some? then Full(cert.value) else Bad;
    }

    method ReadBinding(i: nat) returns (slot: Slot<Binding>)
      ensures slot == BindingAt(flash.view, i)
    {
      hide EncodeBinding, OriginValid;
      var record := flash.Get(BindKey(i));
      if record.None? { return Empty; }
      var binding := ParseBinding(record.value);
      forall c, d | IsBinding(record.value, c) && IsBinding(record.value, d) ensures c == d { BindingUnique(c, d); }
      assert binding.Some? ==> IsBinding(record.value, binding.value);
      return if binding.Some? then Full(binding.value) else Bad;
    }

    /** Both tables, unless a record cannot be read. */
    method ReadSlots() returns (ok: bool, certs: Certs, bindings: Bindings)
      ensures ok <==> NoneBad(CertsIn(hash, flash.view), BindingsIn(flash.view))
      ensures ok ==> certs == CertsIn(hash, flash.view) && bindings == BindingsIn(flash.view)
    {
      hide CertAt, BindingAt;
      ok, certs, bindings := true, seq(CERT_SLOTS, _ => Empty), seq(BINDING_SLOTS, _ => Empty);
      for i := 0 to BINDING_SLOTS
        invariant forall j | 0 <= j < i :: bindings[j] == BindingAt(flash.view, j) && !bindings[j].Bad?
      {
        var slot := ReadBinding(i);
        if slot.Bad? {
          assert BindingsIn(flash.view)[i].Bad?;
          return false, certs, bindings;
        }
        bindings := bindings[i := slot];
      }
      for i := 0 to CERT_SLOTS
        invariant forall j | 0 <= j < i :: certs[j] == CertAt(hash, flash.view, j) && !certs[j].Bad?
      {
        var slot := ReadCert(i);
        if slot.Bad? {
          assert CertsIn(hash, flash.view)[i].Bad?;
          return false, certs, bindings;
        }
        certs := certs[i := slot];
      }
    }

    /**
     * A lookup succeeds exactly for the origins that are bound, and gives the certificate that the origin resolves to.
     */
    method Lookup(origin: text) returns (status: Status, der: seq<byte>)
      ensures status in {Ok, NotFound, InvalidArg, InvalidState}
      ensures status == Ok ==> Finds(hash, flash.view, origin, der)
      ensures status == NotFound ==> forall x :: !Finds(hash, flash.view, origin, x)
      ensures status == InvalidArg <==> !OriginValid(origin)
      ensures Sound(hash, flash.view) ==> status != InvalidState
    {
      hide OriginValid, CertsIn, BindingsIn;
      der := [];
      var valid := CanonicalOriginValid(origin);
      if !valid { return InvalidArg, der; }
      var ok, certs, bindings := ReadSlots();
      if !ok { return InvalidState, der; }
      var b := 0;
      while b < BINDING_SLOTS && !HasOrigin(bindings[b], origin)
        invariant 0 <= b <= BINDING_SLOTS && forall i | 0 <= i < b :: !HasOrigin(bindings[i], origin)
      {
        b := b + 1;
      }
      if b == BINDING_SLOTS { return NotFound, der; }
      var c := 0;
      while c < CERT_SLOTS && !HasDigest(certs[c], bindings[b].value.digest)
        invariant 0 <= c <= CERT_SLOTS && forall i | 0 <= i < c :: !HasDigest(certs[i], bindings[b].value.digest)
      {
        c := c + 1;
      }
      if c == CERT_SLOTS { return InvalidState, der; }
      assert ThroughSlots(certs, bindings, b, c, origin, certs[c].value.der);
      return Ok, certs[c].value.der;
    }

    // ----- choosing slots -----

    static method PickBinding(bindings: Bindings, origin: text) returns (b: Option<nat>)
      requires OriginsDiffer(bindings) && forall i | 0 <= i < BINDING_SLOTS :: !bindings[i].Bad?
      ensures b.Some? ==> b.value < BINDING_SLOTS && Fits(bindings, b.value, origin)
      ensures b.None? <==> forall i | 0 <= i < BINDING_SLOTS :: bindings[i].Full? && !HasOrigin(bindings[i], origin)
    {
      b := None;
      for i := 0 to BINDING_SLOTS
        invariant b.Some? ==> b.value < BINDING_SLOTS && HasOrigin(bindings[b.value], origin)
        invariant b.None? ==> forall j | 0 <= j < i :: !HasOrigin(bindings[j], origin)
      {
        if HasOrigin(bindings[i], origin) { b := Some(i); }
      }
      if b.Some? { return; }
      var i := 0;
      while i < BINDING_SLOTS && bindings[i].Full?
        invariant 0 <= i <= BINDING_SLOTS && forall j | 0 <= j < i :: bindings[j].Full?
      {
        i := i + 1;
      }
      if i < BINDING_SLOTS { b := Some(i); }
    }

    /** There is always a slot for the certificate: where it is already, or one that no binding needs. */
    static method PickCert(certs: Certs, bindings: Bindings, digest: Digest) returns (c: nat)
      requires DigestsDiffer(certs) && forall i | 0 <= i < CERT_SLOTS :: !certs[i].Bad?
      ensures c < CERT_SLOTS
      ensures if Stored(digest, certs) then HasDigest(certs[c], digest) else Free(certs, bindings, c)
    {
      c := 0;
      while c < CERT_SLOTS && !HasDigest(certs[c], digest)
        invariant 0 <= c <= CERT_SLOTS && forall i | 0 <= i < c :: !HasDigest(certs[i], digest)
      {
        c := c + 1;
      }
      if c < CERT_SLOTS { return; }
      c := 0;
      while c < CERT_SLOTS && !certs[c].Empty?
        invariant 0 <= c <= CERT_SLOTS && forall i | 0 <= i < c :: certs[i].Full?
      {
        c := c + 1;
      }
      if c < CERT_SLOTS { return; }
      SomeSlotFree(certs, bindings);
      c := 0;
      while c < CERT_SLOTS && Referenced(certs[c].value.digest, bindings)
        invariant 0 <= c <= CERT_SLOTS && forall i | 0 <= i < c :: !Free(certs, bindings, i)
      {
        c := c + 1;
      }
    }

    // ----- writing -----

    /** What the flash went through since, all of it images that no origin notices. */
    twostate predicate WentQuietly()
      reads flash
    {
      && old(flash.floor) <= flash.floor && old(flash.history) <= flash.history
      && AllQuiet(hash, old(flash.view), flash.history[|old(flash.history)|..])
      && Quiet(hash, old(flash.view), flash.view)
    }

    /** Writes the certificate into a free slot and reads it back; a slot that did not take it is erased again. */
    method Stage(c: nat, cert: Cert) returns (ok: bool)
      requires flash.Valid() && Sound(hash, flash.view) && c < CERT_SLOTS && CertFits(hash, cert)
      requires Free(CertsIn(hash, flash.view), BindingsIn(flash.view), c)
      requires !Stored(cert.digest, CertsIn(hash, flash.view))
      modifies flash
      ensures flash.Valid() && WentQuietly() && (ok ==> flash.failed == old(flash.failed)) && (!ok ==> flash.failed)
      ensures ok ==>
        && CertsIn(hash, flash.view) == old(CertsIn(hash, flash.view))[c := Full(cert)]
        && BindingsIn(flash.view) == old(BindingsIn(flash.view))
    {
      hide EncodeCert, CertFits, CertAt, BindingAt, CertsIn, BindingsIn, Consistent, Free, Stored, AllSame;
      ghost var m, start := flash.view, flash.history;
      StageQuiet(hash, m, c, cert);
      ok := flash.Set(CertKey(c), EncodeCert(cert));
      if ok { ok := flash.Commit(); }
      ghost var n, middle := flash.view, flash.history;
      assert middle[|start|..] == [] || middle[|start|..] == [n];
      CertWritten(hash, m, c, cert);
      if ok {
        var checked := ReadCert(c);
        if checked != Full(cert) { assert false by { TableAt(hash, n, c); } }
      }
      if !ok {
        var erased := flash.Erase(CertKey(c));
        var committed := flash.Commit();
        assert flash.history[|start|..] == middle[|start|..]
          || flash.history[|start|..] == middle[|start|..] + [flash.view];
      }
    }

    /**
     * Writes the binding: from that write on the origin resolves to
     * the new certificate, and everything else as before.
     */
    method Bind(b: nat, c: nat, x: Binding) returns (ok: bool)
      requires flash.Valid() && Sound(hash, flash.view) && b < BINDING_SLOTS && c < CERT_SLOTS && OriginValid(x.origin)
      requires Fits(BindingsIn(flash.view), b, x.origin) && HasDigest(CertsIn(hash, flash.view)[c], x.digest)
      modifies flash
      ensures flash.Valid() && old(flash.floor) <= flash.floor && (ok ==> flash.failed == old(flash.failed))
      ensures (!ok ==> flash.failed)
      ensures var next := old(flash.view)[BindKey(b) := EncodeBinding(x)];
              || (flash.view == next && flash.history == old(flash.history) + [next])
              || (!ok && flash.view == old(flash.view) && flash.history == old(flash.history))
      ensures ok ==> flash.floor == |flash.history| - 1
    {
      hide EncodeBinding, OriginValid, CertsIn, Consistent;
      ok := flash.Set(BindKey(b), EncodeBinding(x));
      if ok { ok := flash.Commit(); }
      if ok {
        BindingOfOne(x);
        var checked := ReadBinding(b);
        if checked != Full(x) { assert false; }
      }
    }

    /** Erases the certificates that no binding needs any more. */
    method Collect(certs: Certs, bindings: Bindings)
      requires flash.Valid() && Sound(hash, flash.view)
      requires certs == CertsIn(hash, flash.view) && bindings == BindingsIn(flash.view)
      modifies flash
      ensures flash.Valid() && WentQuietly() && BindingsIn(flash.view) == bindings
      ensures flash.failed || forall i | 0 <= i < CERT_SLOTS && CertsIn(hash, flash.view)[i].Full? ::
        Referenced(CertsIn(hash, flash.view)[i].value.digest, bindings)
    {
      hide CertsIn, BindingsIn, Consistent, AllSame, Referenced, Quiet;
      ghost var m, start := flash.view, flash.history;
      QuietSelf(hash, m);
      var changed := false;
      for i := 0 to CERT_SLOTS
        invariant flash.Valid() && flash.floor == old(flash.floor) && start <= flash.history
        invariant BindingsIn(flash.view) == bindings && Quiet(hash, m, flash.view)
        invariant AllQuiet(hash, m, flash.history[|start|..])
        invariant forall j | i <= j < CERT_SLOTS :: CertsIn(hash, flash.view)[j] == certs[j]
        invariant flash.failed || forall j | 0 <= j < i && CertsIn(hash, flash.view)[j].Full? ::
          Referenced(CertsIn(hash, flash.view)[j].value.digest, bindings)
      {
        if certs[i].Full? && !Referenced(certs[i].value.digest, bindings) {
          ghost var n, middle := flash.view, flash.history;
          EraseQuiet(hash, m, n, i);
          var erased := flash.Erase(CertKey(i));
          assert flash.history[|start|..] == middle[|start|..]
            || flash.history[|start|..] == middle[|start|..] + [flash.view];
          if erased { changed := true; }
        }
      }
      if changed { var committed := flash.Commit(); }
    }

    /** The second half: the binding, and the collection that may follow only a binding that is committed. */
    method BindAndCollect(certs: Certs, bindings: Bindings, b: nat, c: nat, x: Binding) returns (status: Status)
      requires flash.Valid() && Sound(hash, flash.view) && OriginValid(x.origin) && b < BINDING_SLOTS && c < CERT_SLOTS
      requires certs == CertsIn(hash, flash.view) && bindings == BindingsIn(flash.view)
      requires Fits(bindings, b, x.origin) && HasDigest(certs[c], x.digest)
      modifies flash
      ensures flash.Valid() && old(flash.floor) <= flash.floor && old(flash.history) <= flash.history
      ensures status in {Ok, WriteFailed} && (status == WriteFailed ==> flash.failed)
      ensures AllFine(hash, old(flash.view), flash.history[|old(flash.history)|..], x.origin, certs[c].value.der)
      ensures Fine(hash, old(flash.view), flash.view, x.origin, certs[c].value.der)
      ensures status == Ok ==>
        Finds(hash, flash.view, x.origin, certs[c].value.der) && AllNeeded(flash.failed, hash, flash.view)
      ensures status == Ok ==>
        |old(flash.history)| <= flash.floor && Durable(hash, flash.history[flash.floor..], x.origin, certs[c].value.der)
    {
      hide EncodeBinding, OriginValid, CertsIn, BindingsIn, Consistent, Fine, Quiet, AllSame, OthersSame, Fits,
        Resolves;
      ghost var m, start, der := flash.view, flash.history, certs[c].value.der;
      BindFine(hash, m, b, c, x);
      var bound := Bind(b, c, x);
      ghost var n, middle := flash.view, flash.history;
      assert middle[|start|..] == [] || middle[|start|..] == [n];
      if !bound { return WriteFailed; }
      Collect(certs, bindings[b := Full(x)]);
      assert flash.history[|start|..] == middle[|start|..] + flash.history[|middle|..];
      forall i | i in flash.history[|middle|..]
        ensures Fine(hash, m, i, x.origin, der) { FineOn(hash, m, n, i, x.origin, der); }
      FineOn(hash, m, n, flash.view, x.origin, der);
      assert |middle| - 1 <= flash.floor && middle[|middle| - 1] == n;
      forall k | flash.floor <= k < |flash.history| ensures Finds(hash, flash.history[k], x.origin, der) {
        if k >= |middle| {
          assert flash.history[|middle|..][k - |middle|] == flash.history[k];
          FineOn(hash, m, n, flash.history[k], x.origin, der);
        }
      }
      return Ok;
    }

    /** An installation into readable tables. */
    method InstallInto(certs: Certs, bindings: Bindings, origin: text, cert: Cert,
      freeEntries: nat) returns (status: Status)
      requires flash.Valid() && Sound(hash, flash.view) && OriginValid(origin) && CertFits(hash, cert)
      requires certs == CertsIn(hash, flash.view) && bindings == BindingsIn(flash.view)
      modifies flash
      ensures flash.Valid() && old(flash.floor) <= flash.floor && old(flash.history) <= flash.history
      ensures status in {Ok, NoMemory, WriteFailed}
      ensures var der := StandsFor(certs, cert.digest, cert.der);
              && AllFine(hash, old(flash.view), flash.history[|old(flash.history)|..], origin, der)
              && Fine(hash, old(flash.view), flash.view, origin, der)
              && (status == Ok ==> Finds(hash, flash.view, origin, der) && AllNeeded(flash.failed, hash, flash.view))
              && (status == Ok ==> Durable(hash, flash.history[flash.floor..], origin, der))
      ensures status == Ok ==> |old(flash.history)| <= flash.floor
      ensures status == WriteFailed ==> flash.failed
      ensures status == NoMemory ==> unchanged(flash)
      ensures status == NoMemory <==> AllTaken(bindings, origin) || freeEntries < Needed(certs, cert, origin)
    {
      hide OriginValid, CertFits, CertsIn, BindingsIn, Consistent, Fine, AllSame, Resolves, StandsFor, Free, Fits,
        AllNeeded;
      ghost var m, start, der := flash.view, flash.history, StandsFor(certs, cert.digest, cert.der);
      QuietSelf(hash, m);
      QuietIsFine(hash, m, m, origin, der);
      TablesOk(certs, bindings);
      var b := PickBinding(bindings, origin);
      if b.None? { return NoMemory; }
      var c := PickCert(certs, bindings, cert.digest);
      var stage := !HasDigest(certs[c], cert.digest);
      if freeEntries < CONFIG_RESERVE_ENTRIES + (if stage then EntriesFor(38 + |cert.der|) else 0)
        + EntriesFor(38 + |origin|) {
        return NoMemory;
      }
      var now := certs;
      if stage {
        NoStandIn(certs, cert.digest, cert.der);
        var staged := Stage(c, cert);
        AllQuietFine(hash, m, flash.history[|start|..], flash.view, origin, der);
        if !staged { return WriteFailed; }
        now := certs[c := Full(cert)];
      } else {
        StandsForStored(certs, cert.digest, cert.der, c);
      }
      ghost var n, middle := flash.view, flash.history;
      status := BindAndCollect(now, bindings, b.value, c, Binding(origin, cert.digest));
      assert flash.history[|start|..] == middle[|start|..] + flash.history[|middle|..];
      LaterFine(hash, m, n, flash.history[|middle|..], flash.view, origin, der);
    }

    /**
     * Installs a certificate for an origin. At every moment, and so whenever power is lost, the cache is
     * sound, the other origins resolve as before, and this one to its old certificate or the new one. Once
     * it has succeeded, no power cut brings the old one back.
     * A cache with a record that cannot be read is left alone.
     */
    method Install(origin: text, der: seq<byte>, freeEntries: nat) returns (status: Status)
      requires flash.Valid()
      requires NoneBad(CertsIn(hash, flash.view), BindingsIn(flash.view)) ==> Sound(hash, flash.view)
      modifies flash
      ensures flash.Valid() && old(flash.floor) <= flash.floor && old(flash.history) <= flash.history
      ensures status == InvalidArg <==> !OriginValid(origin)
      ensures status == InvalidSize <==> OriginValid(origin) && !(0 < |der| <= MAX_DER_BYTES)
      ensures status !in {Ok, WriteFailed} ==> unchanged(flash)
      ensures Sound(hash, old(flash.view)) ==>
        var kept := StandsFor(CertsIn(hash, old(flash.view)), hash(der), der);
        && AllFine(hash, old(flash.view), flash.history[|old(flash.history)|..], origin, kept)
        && Fine(hash, old(flash.view), flash.view, origin, kept)
        && (status == Ok ==> Finds(hash, flash.view, origin, kept) && AllNeeded(flash.failed, hash, flash.view))
        && (status == Ok ==>
          |old(flash.history)| <= flash.floor && Durable(hash, flash.history[flash.floor..], origin, kept))
        && (status == WriteFailed ==> flash.failed) && status != InvalidState && status != NotFound
        && (status == NoMemory ==>
          AllTaken(BindingsIn(old(flash.view)), origin)
          || freeEntries < Needed(CertsIn(hash, old(flash.view)), Cert(hash(der), der), origin))
      ensures !Sound(hash, old(flash.view)) ==> status in {InvalidArg, InvalidSize, InvalidState}
    {
      hide OriginValid, CertsIn, BindingsIn, Fine, Resolves, StandsFor, AllNeeded, AllTaken, Needed, Consistent;
      if Sound(hash, flash.view) {
        QuietSelf(hash, flash.view);
        QuietIsFine(hash, flash.view, flash.view, origin, StandsFor(CertsIn(hash, flash.view), hash(der), der));
        TablesOk(CertsIn(hash, flash.view), BindingsIn(flash.view));
      }
      var valid := CanonicalOriginValid(origin);
      if !valid { return InvalidArg; }
      if |der| == 0 || |der| > MAX_DER_BYTES { return InvalidSize; }
      var digest := hash(der);
      var ok, certs, bindings := ReadSlots();
      if !ok { return InvalidState; }
      status := InstallInto(certs, bindings, origin, Cert(digest, der), freeEntries);
    }
  }

  lemma TablesOk(cs: Certs, bs: Bindings)
    requires Consistent(cs, bs)
    ensures DigestsDiffer(cs) && OriginsDiffer(bs) && NoneBad(cs, bs)
  {
  }

  lemma NoStandIn(cs: Certs, digest: Digest, der: seq<byte>)
    requires !Stored(digest, cs)
    ensures StandsFor(cs, digest, der) == der
  {
  }

  lemma AllQuietFine(hash: Hash, before: Image, images: seq<Image>, last: Image, origin: text, der: seq<byte>)
    requires AllQuiet(hash, before, images) && Quiet(hash, before, last)
    ensures AllFine(hash, before, images, origin, der) && Fine(hash, before, last, origin, der)
  {
    hide Quiet, Fine;
    forall m | m in images ensures Fine(hash, before, m, origin, der) { QuietIsFine(hash, before, m, origin, der); }
    QuietIsFine(hash, before, last, origin, der);
  }

  /** What is fine after quiet steps is fine. */
  lemma LaterFine(hash: Hash, before: Image, m: Image, images: seq<Image>, last: Image, origin: text, der: seq<byte>)
    requires Quiet(hash, before, m) && AllFine(hash, m, images, origin, der) && Fine(hash, m, last, origin, der)
    ensures AllFine(hash, before, images, origin, der) && Fine(hash, before, last, origin, der)
  {
    hide Consistent, Resolves, CertsIn, BindingsIn;
    forall n | n in images ensures Fine(hash, before, n, origin, der) { OneLaterFine(hash, before, m, n, origin, der); }
    OneLaterFine(hash, before, m, last, origin, der);
  }

  lemma OneLaterFine(hash: Hash, before: Image, m: Image, n: Image, origin: text, der: seq<byte>)
    requires Quiet(hash, before, m) && Fine(hash, m, n, origin, der)
    ensures Fine(hash, before, n, origin, der)
  {
    hide Consistent, Resolves, CertsIn, BindingsIn;
  }

  lemma BindFine(hash: Hash, m: Image, b: nat, c: nat, x: Binding)
    requires Sound(hash, m) && OriginValid(x.origin) && b < BINDING_SLOTS && c < CERT_SLOTS
    requires Fits(BindingsIn(m), b, x.origin) && HasDigest(CertsIn(hash, m)[c], x.digest)
    ensures var n, der := m[BindKey(b) := EncodeBinding(x)], CertsIn(hash, m)[c].value.der;
            && CertsIn(hash, n) == CertsIn(hash, m) && BindingsIn(n) == BindingsIn(m)[b := Full(x)] && Sound(hash, n)
            && Fine(hash, m, m, x.origin, der) && Fine(hash, m, n, x.origin, der) && Finds(hash, n, x.origin, der)
  {
    hide EncodeBinding, OriginValid, CertsIn, BindingsIn, Consistent, Fits, Resolves, Fine;
    var n, der := m[BindKey(b) := EncodeBinding(x)], CertsIn(hash, m)[c].value.der;
    BindingWritten(hash, m, b, x);
    BindKeeps(CertsIn(hash, m), BindingsIn(m), b, c, x);
    QuietSelf(hash, m);
    QuietIsFine(hash, m, m, x.origin, der);
    BoundIsFine(hash, m, m, n, x.origin, der);
  }

  function EntriesFor(bytes: nat): nat { 2 + (bytes + NVS_ENTRY_BYTES - 1) / NVS_ENTRY_BYTES }

  /** Two entries of their own, and the fewest others that hold so many bytes. */
  lemma EntriesHold(bytes: nat)
    ensures EntriesFor(bytes) >= 2 && bytes <= (EntriesFor(bytes) - 2) * NVS_ENTRY_BYTES < bytes + NVS_ENTRY_BYTES
  {
  }

  /** The entries that an installation needs, over those that are reserved for the configuration. */
  function Needed(certs: Certs, cert: Cert, origin: text): nat {
    CONFIG_RESERVE_ENTRIES + (if Stored(cert.digest, certs) then 0 else EntriesFor(38 + |cert.der|))
      + EntriesFor(38 + |origin|)
  }

  /** Every binding is taken by another origin. */
  predicate AllTaken(bs: Bindings, origin: text) {
    forall i | 0 <= i < BINDING_SLOTS :: bs[i].Full? && !HasOrigin(bs[i], origin)
  }

  /** If no write has failed, only certificates that are bound are left. */
  ghost predicate AllNeeded(failed: bool, hash: Hash, m: Image) {
    failed || forall i | 0 <= i < CERT_SLOTS && CertsIn(hash, m)[i].Full? ::
      Referenced(CertsIn(hash, m)[i].value.digest, BindingsIn(m))
  }

  lemma QuietSelf(hash: Hash, m: Image)
    requires Sound(hash, m)
    ensures Quiet(hash, m, m)
  {
    hide CertsIn, BindingsIn, Consistent, Resolves;
  }

  lemma EraseQuiet(hash: Hash, before: Image, m: Image, c: nat)
    requires Quiet(hash, before, m) && c < CERT_SLOTS && Free(CertsIn(hash, m), BindingsIn(m), c)
    ensures Quiet(hash, before, m - {CertKey(c)}) && BindingsIn(m - {CertKey(c)}) == BindingsIn(m)
    ensures CertsIn(hash, m - {CertKey(c)}) == CertsIn(hash, m)[c := Empty]
  {
    hide CertsIn, BindingsIn, Consistent, Free, Resolves;
    CertErased(hash, m, c);
    DropKeeps(CertsIn(hash, m), BindingsIn(m), c);
  }

  lemma TableAt(hash: Hash, m: Image, c: nat)
    requires c < CERT_SLOTS
    ensures CertsIn(hash, m)[c] == CertAt(hash, m, c)
  {
  }

  /** The slot before, with the certificate, and erased after that. */
  lemma StageQuiet(hash: Hash, m: Image, c: nat, cert: Cert)
    requires Sound(hash, m) && c < CERT_SLOTS && CertFits(hash, cert)
    requires Free(CertsIn(hash, m), BindingsIn(m), c) && !Stored(cert.digest, CertsIn(hash, m))
    ensures var n := m[CertKey(c) := EncodeCert(cert)];
            Quiet(hash, m, m) && Quiet(hash, m, n) && Quiet(hash, m, n - {CertKey(c)})
              && Quiet(hash, m, m - {CertKey(c)})
  {
    hide EncodeCert, CertFits, CertsIn, BindingsIn, Consistent, Free, Stored, Resolves;
    var n := m[CertKey(c) := EncodeCert(cert)];
    assert n - {CertKey(c)} == m - {CertKey(c)};
    CertWritten(hash, m, c, cert);
    CertErased(hash, m, c);
    StageKeeps(CertsIn(hash, m), BindingsIn(m), c, cert);
    DropKeeps(CertsIn(hash, m), BindingsIn(m), c);
  }
}
