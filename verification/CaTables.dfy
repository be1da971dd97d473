/** The certificate cache as two tables: certificates by their digests, and bindings of origins to digests. */
module CaTables {
  import opened Bytes
  import opened ConfigTypes
  import opened CaRecords

  const CERT_SLOTS := 6
  const BINDING_SLOTS := 5

  datatype Slot<T> = Empty | Bad | Full(value: T)

  type Certs = s: seq<Slot<Cert>> | |s| == CERT_SLOTS witness seq(CERT_SLOTS, _ => Empty)
  type Bindings = s: seq<Slot<Binding>> | |s| == BINDING_SLOTS witness seq(BINDING_SLOTS, _ => Empty)

  predicate HasDigest(c: Slot<Cert>, d: Digest) { c.Full? && c.value.digest == d }

  predicate PointsTo(b: Slot<Binding>, d: Digest) { b.Full? && b.value.digest == d }

  predicate HasOrigin(b: Slot<Binding>, origin: text) { b.Full? && b.value.origin == origin }

  predicate Stored(d: Digest, cs: Certs) { exists c | 0 <= c < CERT_SLOTS :: HasDigest(cs[c], d) }

  predicate Referenced(d: Digest, bs: Bindings) { exists b | 0 <= b < BINDING_SLOTS :: PointsTo(bs[b], d) }

  predicate NoneBad(cs: Certs, bs: Bindings) {
    (forall c | 0 <= c < CERT_SLOTS :: !cs[c].Bad?) && (forall b | 0 <= b < BINDING_SLOTS :: !bs[b].Bad?)
  }

  predicate DigestsDiffer(cs: Certs) {
    forall i, j | 0 <= i < j < CERT_SLOTS && cs[i].Full? && cs[j].Full? :: cs[i].value.digest != cs[j].value.digest
  }

  predicate OriginsDiffer(bs: Bindings) {
    forall i, j | 0 <= i < j < BINDING_SLOTS && bs[i].Full? && bs[j].Full? :: bs[i].value.origin != bs[j].value.origin
  }

  /** Every binding refers to a certificate that is there; digests and origins are unique; every record can be read. */
  predicate Consistent(cs: Certs, bs: Bindings) {
    && NoneBad(cs, bs) && DigestsDiffer(cs) && OriginsDiffer(bs)
    && forall b | 0 <= b < BINDING_SLOTS && bs[b].Full? :: Stored(bs[b].value.digest, cs)
  }

  predicate ThroughSlots(cs: Certs, bs: Bindings, b: nat, c: nat, origin: text, der: seq<byte>)
    requires b < BINDING_SLOTS && c < CERT_SLOTS
  {
    HasOrigin(bs[b], origin) && HasDigest(cs[c], bs[b].value.digest) && cs[c].value.der == der
  }

  /** A lookup of the origin finds this certificate. */
  predicate Resolves(cs: Certs, bs: Bindings, origin: text, der: seq<byte>) {
    exists b, c | 0 <= b < BINDING_SLOTS && 0 <= c < CERT_SLOTS :: ThroughSlots(cs, bs, b, c, origin, der)
  }

  /** An origin resolves to one certificate at most, and to one if it is bound at all. */
  lemma ResolvesOne(cs: Certs, bs: Bindings, origin: text, x: seq<byte>, y: seq<byte>)
    requires Consistent(cs, bs) && Resolves(cs, bs, origin, x) && Resolves(cs, bs, origin, y)
    ensures x == y
  {
    var b, c :| 0 <= b < BINDING_SLOTS && 0 <= c < CERT_SLOTS && ThroughSlots(cs, bs, b, c, origin, x);
    var e, f :| 0 <= e < BINDING_SLOTS && 0 <= f < CERT_SLOTS && ThroughSlots(cs, bs, e, f, origin, y);
    assert b == e;
    assert c == f;
  }

  // ----- what an installation does to the tables -----

  /** Every origin but this one resolves as before. */
  ghost predicate OthersSame(cs: Certs, bs: Bindings, ds: Certs, es: Bindings, but: text) {
    forall origin: text, der: seq<byte> :: origin != but ==>
      (Resolves(cs, bs, origin, der) <==> Resolves(ds, es, origin, der))
  }

  /** This origin resolves as before. */
  ghost predicate SameFor(cs: Certs, bs: Bindings, ds: Certs, es: Bindings, origin: text) {
    forall der: seq<byte> :: Resolves(cs, bs, origin, der) <==> Resolves(ds, es, origin, der)
  }

  ghost predicate AllSame(cs: Certs, bs: Bindings, ds: Certs, es: Bindings) {
    forall origin: text, der: seq<byte> :: Resolves(cs, bs, origin, der) <==> Resolves(ds, es, origin, der)
  }

  /** The slot can be written or erased without any binding noticing. */
  predicate Free(cs: Certs, bs: Bindings, c: nat)
    requires c < CERT_SLOTS
  {
    cs[c].Full? ==> !Referenced(cs[c].value.digest, bs)
  }

  lemma StageKeeps(cs: Certs, bs: Bindings, c: nat, cert: Cert)
    requires Consistent(cs, bs) && c < CERT_SLOTS && Free(cs, bs, c) && !Stored(cert.digest, cs)
    ensures Consistent(cs[c := Full(cert)], bs)
    ensures AllSame(cs, bs, cs[c := Full(cert)], bs)
  {
    var ds: Certs := cs[c := Full(cert)];
    forall b | 0 <= b < BINDING_SLOTS && bs[b].Full? ensures Stored(bs[b].value.digest, ds) {
      var i :| 0 <= i < CERT_SLOTS && HasDigest(cs[i], bs[b].value.digest);
      assert PointsTo(bs[b], bs[b].value.digest);
      assert HasDigest(ds[i], bs[b].value.digest);
    }
    forall i, j | 0 <= i < j < CERT_SLOTS && ds[i].Full? && ds[j].Full?
      ensures ds[i].value.digest != ds[j].value.digest {
      assert !HasDigest(cs[i], cert.digest) && !HasDigest(cs[j], cert.digest);
    }
    forall origin, der ensures Resolves(cs, bs, origin, der) <==> Resolves(ds, bs, origin, der) {
      StageResolves(cs, bs, c, cert, origin, der);
    }
  }

  lemma StageResolves(cs: Certs, bs: Bindings, c: nat, cert: Cert, origin: text, der: seq<byte>)
    requires Consistent(cs, bs) && c < CERT_SLOTS && Free(cs, bs, c) && !Stored(cert.digest, cs)
    ensures Resolves(cs, bs, origin, der) <==> Resolves(cs[c := Full(cert)], bs, origin, der)
  {
    var ds: Certs := cs[c := Full(cert)];
    forall b, i | 0 <= b < BINDING_SLOTS && 0 <= i < CERT_SLOTS
      ensures ThroughSlots(cs, bs, b, i, origin, der) <==> ThroughSlots(ds, bs, b, i, origin, der)
    {
      if bs[b].Full? { assert PointsTo(bs[b], bs[b].value.digest); }
    }
  }

  lemma DropKeeps(cs: Certs, bs: Bindings, c: nat)
    requires Consistent(cs, bs) && c < CERT_SLOTS && Free(cs, bs, c)
    ensures Consistent(cs[c := Empty], bs)
    ensures AllSame(cs, bs, cs[c := Empty], bs)
  {
    var ds: Certs := cs[c := Empty];
    forall b | 0 <= b < BINDING_SLOTS && bs[b].Full? ensures Stored(bs[b].value.digest, ds) {
      var i :| 0 <= i < CERT_SLOTS && HasDigest(cs[i], bs[b].value.digest);
      assert PointsTo(bs[b], bs[b].value.digest);
      assert HasDigest(ds[i], bs[b].value.digest);
    }
    forall origin, der ensures Resolves(cs, bs, origin, der) <==> Resolves(ds, bs, origin, der) {
      forall b, i | 0 <= b < BINDING_SLOTS && 0 <= i < CERT_SLOTS
        ensures ThroughSlots(cs, bs, b, i, origin, der) <==> ThroughSlots(ds, bs, b, i, origin, der)
      {
        if bs[b].Full? { assert PointsTo(bs[b], bs[b].value.digest); }
      }
    }
  }

  /** The binding of an origin goes where it was, or where there was none. */
  predicate Fits(bs: Bindings, b: nat, origin: text)
    requires b < BINDING_SLOTS
  {
    && (bs[b].Full? ==> bs[b].value.origin == origin)
    && forall i | 0 <= i < BINDING_SLOTS && i != b :: !HasOrigin(bs[i], origin)
  }

  lemma BindKeeps(cs: Certs, bs: Bindings, b: nat, c: nat, x: Binding)
    requires Consistent(cs, bs) && b < BINDING_SLOTS && c < CERT_SLOTS && Fits(bs, b, x.origin)
    requires HasDigest(cs[c], x.digest)
    ensures Consistent(cs, bs[b := Full(x)])
    ensures OthersSame(cs, bs, cs, bs[b := Full(x)], x.origin)
    ensures Resolves(cs, bs[b := Full(x)], x.origin, cs[c].value.der)
  {
    var es: Bindings := bs[b := Full(x)];
    forall i, j | 0 <= i < j < BINDING_SLOTS && es[i].Full? && es[j].Full?
      ensures es[i].value.origin != es[j].value.origin {
      assert i != b ==> !HasOrigin(bs[i], x.origin);
      assert j != b ==> !HasOrigin(bs[j], x.origin);
    }
    forall origin, der | origin != x.origin ensures Resolves(cs, bs, origin, der) <==> Resolves(cs, es, origin, der) {
      forall i, j | 0 <= i < BINDING_SLOTS && 0 <= j < CERT_SLOTS
        ensures ThroughSlots(cs, bs, i, j, origin, der) <==> ThroughSlots(cs, es, i, j, origin, der)
      {
      }
    }
    assert ThroughSlots(cs, es, b, c, x.origin, cs[c].value.der);
  }

  /** The certificate that stands for a digest: the one stored already, or else the one that is offered. */
  ghost function StandsFor(cs: Certs, digest: Digest, der: seq<byte>): seq<byte> {
    if c :| 0 <= c < CERT_SLOTS && HasDigest(cs[c], digest) then cs[c].value.der else der
  }

  lemma StandsForStored(cs: Certs, digest: Digest, der: seq<byte>, c: nat)
    requires DigestsDiffer(cs) && c < CERT_SLOTS && HasDigest(cs[c], digest)
    ensures StandsFor(cs, digest, der) == cs[c].value.der
  {
  }

  // ----- there is always a slot for a certificate -----

  lemma {:induction false} DistinctCount<T>(s: seq<T>)
    requires forall i, j | 0 <= i < j < |s| :: s[i] != s[j]
    ensures |set x | x in s| == |s|
  {
    if s == [] {
      assert (set x | x in s) == {};
    } else {
      DistinctCount(s[1..]);
      assert s[0] !in s[1..];
      assert (set x | x in s) == (set x | x in s[1..]) + {s[0]};
    }
  }

  lemma {:induction false} CountAtMost<T>(s: seq<T>)
    ensures |set x | x in s| <= |s|
  {
    if s == [] {
      assert (set x | x in s) == {};
    } else {
      CountAtMost(s[1..]);
      assert (set x | x in s) == (set x | x in s[1..]) + {s[0]};
    }
  }

  lemma {:induction false} SubsetCount<T>(a: set<T>, b: set<T>)
    requires a <= b
    ensures |a| <= |b|
  {
    if a != {} {
      var x :| x in a;
      SubsetCount(a - {x}, b - {x});
    }
  }

  /** Six certificates cannot all be bound by five bindings. */
  lemma SomeSlotFree(cs: Certs, bs: Bindings)
    requires DigestsDiffer(cs)
    ensures exists c | 0 <= c < CERT_SLOTS :: Free(cs, bs, c)
  {
    if forall c | 0 <= c < CERT_SLOTS :: !Free(cs, bs, c) {
      forall c | 0 <= c < CERT_SLOTS
        ensures cs[c].Full? && Referenced(cs[c].value.digest, bs) { assert !Free(cs, bs, c); }
      var ds := seq(CERT_SLOTS, c requires 0 <= c < CERT_SLOTS => cs[c].value.digest);
      var es := seq(BINDING_SLOTS, b requires 0 <= b < BINDING_SLOTS => if bs[b].Full? then bs[b].value.digest
        else ds[0]);
      DistinctCount(ds);
      CountAtMost(es);
      forall d | d in ds ensures d in es {
        var c :| 0 <= c < CERT_SLOTS && ds[c] == d;
        var b :| 0 <= b < BINDING_SLOTS && PointsTo(bs[b], cs[c].value.digest);
        assert es[b] == d;
      }
      SubsetCount(set d | d in ds, set e | e in es);
    }
  }
}
