/** The records of the certificate cache, and the origins that a certificate can be bound to. */
module CaRecords {
  import opened Bytes
  import opened ConfigTypes
  import opened ConfigWire
  import opened Decimals

  const MAX_DER_BYTES := 8192
  const MAX_ORIGIN_BYTES := 512
  const DIGEST_BYTES := 32
  const CERT_RECORD_MAX := 4 + DIGEST_BYTES + 2 + MAX_DER_BYTES
  const BINDING_RECORD_MAX := 4 + 2 + MAX_ORIGIN_BYTES + DIGEST_BYTES
  const NVS_ENTRY_BYTES := 32
  const CONFIG_RESERVE_ENTRIES := 1100

  type Digest = d: seq<byte> | |d| == DIGEST_BYTES witness seq(DIGEST_BYTES, _ => 0)

  /** SHA-256, of which nothing more is used than that it is a function. */
  type Hash = seq<byte> -> Digest

  // ----- origins -----

  predicate HostByte(b: byte) { 'a' as int <= b <= 'z' as int || '0' as int <= b <= '9' as int || b == '-' as int }

  const DOT: byte := '.' as int
  const DASH: byte := '-' as int
  const COLON: byte := ':' as int

  /** The byte belongs in a host: a dash or a dot is neither first nor last, nor next to a dot. */
  predicate PlaceOk(h: text, i: nat)
    requires i < |h|
  {
    && (HostByte(h[i]) || h[i] == DOT)
    && (i == 0 || h[i - 1] == DOT ==> h[i] != DOT && h[i] != DASH)
    && (i + 1 == |h| || h[i + 1] == DOT ==> h[i] != DOT && h[i] != DASH)
  }

  /** Labels of letters, digits and dashes with dots between them; a dash is neither first nor last in a label. */
  predicate HostValid(h: text) { h != [] && forall i | 0 <= i < |h| :: PlaceOk(h, i) }

  method ValidDnsHost(host: text) returns (ok: bool)
    ensures ok == HostValid(host)
  {
    hide HostByte;
    if host == [] { return false; }
    if host[0] == DOT || host[|host| - 1] == DOT {
      assert !PlaceOk(host, 0) || !PlaceOk(host, |host| - 1);
      return false;
    }
    var start := 0;
    for i := 0 to |host| + 1
      invariant 0 <= start <= i && (start == |host| + 1 || forall k | start <= k < i && k < |host| :: host[k] != DOT)
      invariant i == |host| + 1 ==> start == i
      invariant 0 < start <= |host| ==> host[start - 1] == DOT
      invariant start > 0 ==> start >= 2 && forall k | 0 <= k < start - 1 :: PlaceOk(host, k)
    {
      if i == |host| || host[i] == DOT {
        if i == start {
          assert start > 0 ==> !PlaceOk(host, start - 1);
          return false;
        }
        if host[start] == DASH || host[i - 1] == DASH {
          assert !PlaceOk(host, start) || !PlaceOk(host, i - 1);
          return false;
        }
        var j := start;
        while j < i
          invariant start <= j <= i && forall k | start <= k < j :: HostByte(host[k])
        {
          if !HostByte(host[j]) {
            assert !PlaceOk(host, j);
            return false;
          }
          j := j + 1;
        }
        assert start > 0 ==> PlaceOk(host, start - 2) && PlaceOk(host, start - 1);
        assert forall k | start <= k < i :: PlaceOk(host, k);
        start := i + 1;
      }
    }
    ok := true;
  }

  predicate PortValid(p: text) { 1 <= |p| <= 5 && (forall b | b in p :: DigitByte(b)) && 1 <= Decimal(p) <= 65535 }

  method ValidPort(port: text) returns (ok: bool)
    ensures ok == PortValid(port)
  {
    if port == [] || |port| > 5 { return false; }
    var value := 0;
    for i := 0 to |port|
      invariant (forall b | b in port[..i] :: DigitByte(b)) && value == Decimal(port[..i])
    {
      if !DigitByte(port[i]) {
        assert port[i] in port;
        return false;
      }
      assert port[..i + 1] == port[..i] + [port[i]];
      value := value * 10 + DigitValue(port[i]);
    }
    assert port[..|port|] == port;
    return 1 <= value <= 65535;
  }

  predicate AddressByte(b: byte) { 'a' as int <= b <= 'f' as int || DigitByte(b) || b == COLON || b == DOT }

  const OPEN: byte := '[' as int
  const CLOSE: byte := ']' as int

  predicate BracketValid(n: text) {
    |n| >= 3 && n[0] == OPEN && n[|n| - 1] == CLOSE && forall i | 1 <= i < |n| - 1 :: AddressByte(n[i])
  }

  predicate PortPart(p: text) { p == [] || (p[0] == COLON && PortValid(p[1..])) }

  /** A host name or an address in brackets, and a port where it is not the usual one. */
  predicate AuthoritySplit(a: text, n: nat)
    requires n <= |a|
  {
    (HostValid(a[..n]) || BracketValid(a[..n])) && PortPart(a[n..])
  }

  predicate AuthorityValid(a: text) { exists n | 0 <= n <= |a| :: AuthoritySplit(a, n) }

  const PREFIX: string := "https://"

  predicate OriginValid(o: text) {
    |o| <= MAX_ORIGIN_BYTES && |PREFIX| <= |o| && o[..|PREFIX|] == Ascii(PREFIX) && AuthorityValid(o[|PREFIX|..])
  }

  /** The first place of a byte, or the length. */
  method Find(s: text, b: byte, from: nat) returns (at: nat)
    requires from <= |s|
    ensures from <= at <= |s| && (at < |s| ==> s[at] == b) && forall i | from <= i < at :: s[i] != b
  {
    at := from;
    while at < |s| && s[at] != b
      invariant from <= at <= |s| && forall i | from <= i < at :: s[i] != b
    {
      at := at + 1;
    }
  }

  predicate Separator(b: byte) { b in {'/' as int, '?' as int, '#' as int, '@' as int} }

  method HasSeparator(s: text) returns (found: bool)
    ensures found <==> exists i | 0 <= i < |s| :: Separator(s[i])
  {
    hide Separator;
    for i := 0 to |s|
      invariant forall k | 0 <= k < i :: !Separator(s[k])
    {
      if Separator(s[i]) { return true; }
    }
    return false;
  }

  /** An authority has no other bytes than those of names, addresses and ports; in particular no NUL. */
  lemma AuthorityBytes(a: text, n: nat, i: nat)
    requires n <= |a| && AuthoritySplit(a, n) && i < |a|
    ensures !Separator(a[i]) && a[i] != 0
    ensures i < n && HostValid(a[..n]) ==> a[i] != COLON && a[i] != OPEN && a[i] != CLOSE
    ensures i > n ==> DigitByte(a[i])
    ensures i == n ==> a[i] == COLON
  {
    if i < n {
      assert a[i] == a[..n][i];
      if HostValid(a[..n]) { assert PlaceOk(a[..n], i); }
    } else {
      assert a[n..][0] == a[n];
      if i > n {
        assert a[i] == a[n..][1..][i - n - 1];
        assert DigitByte(a[i]);
        PlainByte(a[i]);
      } else {
        PlainByte(COLON);
      }
    }
  }

  method ValidAuthority(a: text) returns (ok: bool)
    requires a != []
    ensures ok == AuthorityValid(a)
  {
    hide HostValid, PortValid, Separator;
    var bad := HasSeparator(a);
    if bad {
      forall n | 0 <= n <= |a| ensures !AuthoritySplit(a, n) {
        if AuthoritySplit(a, n) {
          var i :| 0 <= i < |a| && Separator(a[i]);
          AuthorityBytes(a, n, i);
        }
      }
      return false;
    }
    if a[0] == OPEN {
      ok := ValidBracketed(a);
    } else {
      ok := ValidNamed(a);
    }
  }

  method ValidBracketed(a: text) returns (ok: bool)
    requires a != [] && a[0] == OPEN
    ensures ok == AuthorityValid(a)
  {
    hide HostValid, PortValid;
    var close := Find(a, CLOSE, 0);
    OnlyAtClose(a, close);
    if close == |a| || close == 1 { return false; }
    for i := 1 to close
      invariant forall k | 1 <= k < i :: AddressByte(a[k])
    {
      if !AddressByte(a[i]) {
        assert a[..close + 1][i] == a[i];
        return false;
      }
    }
    if close + 1 == |a| {
      assert AuthoritySplit(a, |a|);
      return true;
    }
    if a[close + 1] != COLON { return false; }
    assert a[close + 1..][1..] == a[close + 2..];
    ok := ValidPort(a[close + 2..]);
  }

  lemma PlainByte(b: byte)
    ensures DigitByte(b) || b == COLON ==> !Separator(b) && b != 0
  {
  }

  lemma HostStart(h: text)
    ensures HostValid(h) ==> h != [] && h[0] != OPEN
  {
    if HostValid(h) { assert PlaceOk(h, 0); }
  }

  /** With a bracket in front, the name can only end at the first closing bracket. */
  lemma OnlyAtClose(a: text, close: nat)
    requires a != [] && a[0] == OPEN && close <= |a| && (close < |a| ==> a[close] == CLOSE)
    requires forall i | 0 <= i < close :: a[i] != CLOSE
    ensures AuthorityValid(a) <==> close < |a| && AuthoritySplit(a, close + 1)
    ensures close < |a| ==> !HostValid(a[..close + 1])
  {
    hide PortPart;
    forall n | 0 <= n <= |a| && AuthoritySplit(a, n) ensures n == close + 1 {
      HostStart(a[..n]);
      assert a[..n][n - 1] == a[n - 1];
      assert forall i | 1 <= i < n - 1 :: a[i] == a[..n][i] && AddressByte(a[i]);
    }
    if close < |a| { HostStart(a[..close + 1]); }
  }

  method ValidNamed(a: text) returns (ok: bool)
    requires a != [] && a[0] != OPEN
    ensures ok == AuthorityValid(a)
  {
    hide HostValid, PortValid;
    var colon := Find(a, COLON, 0);
    OnlyAtColon(a, colon);
    if colon == |a| {
      assert a[..|a|] == a && a[|a|..] == [];
      ok := ValidDnsHost(a);
      return;
    }
    var second := Find(a, COLON, colon + 1);
    if second < |a| { return false; }
    var host := ValidDnsHost(a[..colon]);
    assert a[colon..][1..] == a[colon + 1..];
    var port := ValidPort(a[colon + 1..]);
    ok := host && port;
  }

  /** Otherwise it can only end at the first colon, or at the end. */
  lemma OnlyAtColon(a: text, colon: nat)
    requires a != [] && a[0] != OPEN && colon <= |a| && (colon < |a| ==> a[colon] == COLON)
    requires forall i | 0 <= i < colon :: a[i] != COLON
    ensures AuthorityValid(a) <==> AuthoritySplit(a, colon)
    ensures AuthoritySplit(a, colon) ==> forall i | colon < i < |a| :: a[i] != COLON
    ensures colon > 0 ==> !BracketValid(a[..colon])
  {
    hide HostValid, PortValid, PortPart, DigitByte;
    forall n | 0 <= n <= |a| && AuthoritySplit(a, n) ensures n == colon {
      if n < |a| { AuthorityBytes(a, n, n); }
      if colon < n { AuthorityBytes(a, n, colon); }
    }
    if AuthoritySplit(a, colon) {
      forall i | colon < i < |a| ensures a[i] != COLON {
        AuthorityBytes(a, colon, i);
        assert !DigitByte(COLON) by { ColonIsNoDigit(); }
      }
    }
  }

  lemma ColonIsNoDigit()
    ensures !DigitByte(COLON)
  {
  }

  /** The check agrees with the grammar. */
  method CanonicalOriginValid(origin: text) returns (ok: bool)
    ensures ok == OriginValid(origin)
  {
    hide AuthorityValid, Ascii;
    assert |Ascii(PREFIX)| == 8 by { EightBytes(); }
    if |origin| <= |PREFIX| || |origin| > MAX_ORIGIN_BYTES || origin[..|PREFIX|] != Ascii(PREFIX) {
      if |origin| == |PREFIX| { NothingIsNoAuthority(origin[|PREFIX|..]); }
      return false;
    }
    ok := ValidAuthority(origin[|PREFIX|..]);
  }

  lemma EightBytes()
    ensures |Ascii(PREFIX)| == 8
  {
  }

  lemma NothingIsNoAuthority(a: text)
    requires a == []
    ensures !AuthorityValid(a)
  {
  }

  lemma OriginHasNoNul(o: text)
    requires OriginValid(o)
    ensures |o| > 8 && 0 !in o
  {
    hide AuthoritySplit, Ascii;
    var a := o[|PREFIX|..];
    var n :| 0 <= n <= |a| && AuthoritySplit(a, n);
    if a == [] { NothingIsNoAuthority(a); }
    forall i | 0 <= i < |o| ensures o[i] != 0 {
      if i < |PREFIX| {
        assert o[i] == Ascii(PREFIX)[i];
        PrefixHasNoNul(i);
      } else {
        AuthorityBytes(a, n, i - |PREFIX|);
      }
    }
  }

  lemma PrefixHasNoNul(i: nat)
    requires i < |PREFIX|
    ensures |Ascii(PREFIX)| == |PREFIX| && Ascii(PREFIX)[i] != 0
  {
  }

  // ----- records -----

  datatype Cert = Cert(digest: Digest, der: seq<byte>)

  datatype Binding = Binding(origin: text, digest: Digest)

  predicate CertFits(hash: Hash, c: Cert) { 0 < |c.der| <= MAX_DER_BYTES && hash(c.der) == c.digest }

  function CertMagic(): (r: seq<byte>)
    ensures |r| == 4
  {
    Ascii("CAD1")
  }

  function BindingMagic(): (r: seq<byte>)
    ensures |r| == 4
  {
    Ascii("CAB1")
  }

  function EncodeCert(c: Cert): (r: seq<byte>)
    ensures |r| == 38 + |c.der|
  {
    CertMagic() + c.digest + Little(|c.der|, 2) + c.der
  }

  function EncodeBinding(b: Binding): (r: seq<byte>)
    ensures |r| == 38 + |b.origin|
  {
    BindingMagic() + Little(|b.origin|, 2) + b.origin + b.digest
  }

  method ParseCert(hash: Hash, record: seq<byte>) returns (r: Option<Cert>)
    ensures r.Some? <==> exists c :: CertFits(hash, c) && record == EncodeCert(c)
    ensures r.Some? ==> CertFits(hash, r.value) && record == EncodeCert(r.value)
  {
    hide CertMagic, FromLittle, Little;
    if record == [] || |record| > CERT_RECORD_MAX { return None; }
    if |record| < 38 || record[..4] != CertMagic() {
      forall c | record == EncodeCert(c) ensures false { CertParts(c); }
      return None;
    }
    var digest: Digest := record[4..36];
    var length := FromLittle(record[36..38]);
    var der := record[38..];
    forall c | CertFits(hash, c) && record == EncodeCert(c)
      ensures c.digest == digest && c.der == der && length == |der| && hash(der) == digest && 0 < |der| <= MAX_DER_BYTES
    {
      CertParts(c);
      HalfBack(|c.der|);
    }
    if length == 0 || length > MAX_DER_BYTES || |record| != 38 + length { return None; }
    var actual := hash(der);
    if actual != digest { return None; }
    BackLittle(record[36..38]);
    assert record == record[..4] + record[4..36] + record[36..38] + record[38..];
    assert record == EncodeCert(Cert(digest, der));
    return Some(Cert(digest, der));
  }

  lemma CertParts(c: Cert)
    ensures var r := EncodeCert(c);
            && r[..4] == CertMagic() && r[4..36] == c.digest && r[36..38] == Little(|c.der|, 2) && r[38..] == c.der
  {
    hide CertMagic, Little;
  }

  method ParseBinding(record: seq<byte>) returns (r: Option<Binding>)
    ensures r.Some? <==> exists b: Binding :: OriginValid(b.origin) && record == EncodeBinding(b)
    ensures r.Some? ==> OriginValid(r.value.origin) && record == EncodeBinding(r.value)
  {
    hide BindingMagic, FromLittle, Little, OriginValid;
    forall b: Binding | OriginValid(b.origin) && record == EncodeBinding(b)
      ensures |record| == 38 + |b.origin| && 0 < |b.origin| <= MAX_ORIGIN_BYTES && 0 !in b.origin
    {
      OriginHasNoNul(b.origin);
      OriginIsShort(b.origin);
    }
    if record == [] || |record| > BINDING_RECORD_MAX { return None; }
    if |record| < 38 || record[..4] != BindingMagic() {
      forall b | record == EncodeBinding(b) ensures false { BindingParts(b); }
      return None;
    }
    var length := FromLittle(record[4..6]);
    forall b: Binding | OriginValid(b.origin) && record == EncodeBinding(b)
      ensures length == |b.origin| && record[6..6 + length] == b.origin && record[6 + length..] == b.digest
    {
      BindingParts(b);
      HalfBack(|b.origin|);
    }
    if length == 0 || length > MAX_ORIGIN_BYTES || |record| != 6 + length + DIGEST_BYTES { return None; }
    var origin := record[6..6 + length];
    if 0 in origin { return None; }
    var canonical := CanonicalOriginValid(origin);
    if !canonical { return None; }
    var digest: Digest := record[6 + length..];
    BackLittle(record[4..6]);
    assert record == record[..4] + record[4..6] + record[6..6 + length] + record[6 + length..];
    assert record == EncodeBinding(Binding(origin, digest));
    return Some(Binding(origin, digest));
  }

  lemma OriginIsShort(o: text)
    requires OriginValid(o)
    ensures |o| <= MAX_ORIGIN_BYTES
  {
  }

  lemma BindingParts(b: Binding)
    ensures var r, n := EncodeBinding(b), |b.origin|;
            && r[..4] == BindingMagic() && r[4..6] == Little(n, 2) && r[6..6 + n] == b.origin && r[6 + n..] == b.digest
  {
    hide BindingMagic, Little;
  }

  /** No record can be read in two ways. */
  lemma CertUnique(c: Cert, d: Cert)
    requires EncodeCert(c) == EncodeCert(d)
    ensures c == d
  {
    hide CertMagic, Little;
    CertParts(c);
    CertParts(d);
  }

  lemma BindingUnique(b: Binding, d: Binding)
    requires EncodeBinding(b) == EncodeBinding(d)
    ensures b == d
  {
    hide BindingMagic, Little;
    BindingParts(b);
    BindingParts(d);
  }
}
