/**
 * The pending notifications of a card: read, put in the order of their servers and sequence numbers,
 * posted, and removed from the card as far as their servers have acknowledged them.
 */
module Notifications {
  import opened Bytes
  import opened ConfigTypes

  const MAX_PENDING := 16

  datatype Pending = Pending(offset: nat, length: nat, sequence: u32, address: text)

  // ----- the order of hosts -----

  function Upper(b: byte): byte { if 'a' as int <= b <= 'z' as int then b - 'a' as int + 'A' as int else b }

  function Folded(s: text): text { seq(|s|, i requires 0 <= i < |s| => Upper(s[i])) }

  /** Where two texts part: the end of the shorter one, or the first place where they differ. */
  predicate PartAt(s: text, t: text, n: nat) {
    && n <= |s| && n <= |t| && s[..n] == t[..n] && (n < |s| && n < |t| ==> s[n] != t[n])
  }

  function Parting(s: text, t: text): (n: nat)
    ensures PartAt(s, t, n)
  {
    if s == [] || t == [] || s[0] != t[0] then 0 else
      var n := Parting(s[1..], t[1..]);
      assert s[..n + 1] == [s[0]] + s[1..][..n] && t[..n + 1] == [t[0]] + t[1..][..n];
      n + 1
  }

  predicate Less(s: text, t: text) {
    var n := Parting(s, t);
    n < |t| && (n == |s| || s[n] < t[n])
  }

  predicate SameHost(s: text, t: text) { Folded(s) == Folded(t) }

  lemma {:induction false} PartIs(s: text, t: text, n: nat)
    requires PartAt(s, t, n)
    ensures Parting(s, t) == n
  {
    if n > 0 {
      assert s[0] == s[..n][0] && t[0] == t[..n][0];
      assert s[1..][..n - 1] == s[..n][1..] && t[1..][..n - 1] == t[..n][1..];
      PartIs(s[1..], t[1..], n - 1);
    }
  }

  lemma LessIsOrder(s: text, t: text, u: text)
    ensures !Less(s, s) && !(Less(s, t) && Less(t, s))
    ensures Less(s, t) && Less(t, u) ==> Less(s, u)
  {
    hide Parting;
    PartIs(s, s, |s|);
    PartIs(t, s, Parting(s, t));
    if Less(s, t) && Less(t, u) {
      var n, m := Parting(s, t), Parting(t, u);
      var k := if n < m then n else m;
      assert s[..k] == s[..n][..k] && t[..k] == t[..n][..k] && u[..k] == u[..m][..k] && t[..k] == t[..m][..k];
      if n < m { assert t[..m][n] == u[..m][n]; }
      if m < n { assert s[..n][m] == t[..n][m]; }
      PartIs(s, u, k);
    }
  }

  lemma LessIsTotal(s: text, t: text)
    ensures Less(s, t) || Less(t, s) || s == t
  {
    hide Parting;
    var n := Parting(s, t);
    PartIs(t, s, n);
    assert |s| == n ==> s == s[..n];
    assert |t| == n ==> t == t[..n];
  }

  /** Compares without regard to the case of ASCII letters: below 0, 0 or above 0. */
  method CompareAsciiCi(left: text, right: text) returns (r: int)
    ensures r < 0 <==> Less(Folded(left), Folded(right))
    ensures r == 0 <==> SameHost(left, right)
    ensures r > 0 <==> Less(Folded(right), Folded(left))
  {
    hide Less;
    var common := if |left| < |right| then |left| else |right|;
    ghost var s, t := Folded(left), Folded(right);
    var index := 0;
    while index < common
      invariant 0 <= index <= common && s[..index] == t[..index]
    {
      var x, y := Upper(left[index]), Upper(right[index]);
      if x != y {
        Decide(s, t, index);
        return if x < y then -1 else 1;
      }
      index := index + 1;
    }
    if |left| == |right| {
      assert s == s[..|left|] && t == t[..|left|];
      LessIsOrder(s, s, s);
      return 0;
    }
    Decide(s, t, index);
    r := if |left| < |right| then -1 else 1;
  }

  lemma Decide(s: text, t: text, n: nat)
    requires PartAt(s, t, n) && (n < |s| || n < |t|)
    ensures if n < |t| && (n == |s| || s[n] < t[n]) then Less(s, t) && !Less(t, s) else Less(t, s) && !Less(s, t)
    ensures s != t
  {
    hide Parting;
    PartIs(s, t, n);
    PartIs(t, s, n);
    LessIsOrder(s, s, s);
  }

  // ----- the order of notifications -----

  predicate Before(x: Pending, y: Pending) {
    Less(Folded(x.address), Folded(y.address)) || (SameHost(x.address, y.address) && x.sequence < y.sequence)
  }

  predicate SameKey(x: Pending, y: Pending) { SameHost(x.address, y.address) && x.sequence == y.sequence }

  lemma BeforeIsOrder(x: Pending, y: Pending, z: Pending)
    ensures !Before(x, x) && !(Before(x, y) && Before(y, x))
    ensures Before(x, y) && Before(y, z) ==> Before(x, z)
    ensures !Before(x, y) && !Before(y, x) <==> SameKey(x, y)
  {
    hide Less, Folded;
    var a, b, c := Folded(x.address), Folded(y.address), Folded(z.address);
    LessIsOrder(a, b, c);
    LessIsOrder(a, a, a);
    LessIsOrder(b, a, b);
    LessIsTotal(a, b);
  }

  method NotificationLess(x: Pending, y: Pending) returns (less: bool)
    ensures less == Before(x, y)
  {
    hide Less, Folded;
    LessIsOrder(Folded(x.address), Folded(y.address), Folded(x.address));
    LessIsOrder(Folded(x.address), Folded(x.address), Folded(x.address));
    var order := CompareAsciiCi(x.address, y.address);
    return if order != 0 then order < 0 else x.sequence < y.sequence;
  }

  /** No entry belongs before one that stands before it. */
  predicate Sorted(s: seq<Pending>) { forall i, j | 0 <= i < j < |s| :: !Before(s[j], s[i]) }

  lemma NotBeforeOn(x: Pending, y: Pending, z: Pending)
    requires !Before(y, x) && !Before(z, y)
    ensures !Before(z, x)
  {
    hide Before, SameKey;
    BeforeIsOrder(z, x, y);
    BeforeIsOrder(x, y, z);
    BeforeIsOrder(y, z, x);
    BeforeSame(x, y, z);
  }

  lemma BeforeSame(x: Pending, y: Pending, z: Pending)
    ensures SameKey(x, y) ==> Before(x, z) == Before(y, z) && Before(z, x) == Before(z, y)
  {
    hide Less, Folded;
  }

  // ----- sorting in place -----

  /** `s` with the entry at `hole` taken out is sorted, and `x` belongs before everything after the hole. */
  predicate HoleAt(s: seq<Pending>, hole: nat, x: Pending)
    requires hole < |s|
  {
    && (forall i, j | 0 <= i < j < |s| && i != hole && j != hole :: !Before(s[j], s[i]))
    && (forall j | hole < j < |s| :: !Before(s[j], x))
  }

  lemma HoleFilled(s: seq<Pending>, hole: nat, x: Pending)
    requires hole < |s| && HoleAt(s, hole, x) && (hole > 0 ==> !Before(x, s[hole - 1]))
    ensures Sorted(s[hole := x])
  {
    hide Before;
    var t := s[hole := x];
    forall i, j | 0 <= i < j < |t| ensures !Before(t[j], t[i]) {
      if j == hole && i < hole - 1 { NotBeforeOn(s[i], s[hole - 1], x); }
    }
  }

  lemma HoleMoves(s: seq<Pending>, hole: nat, x: Pending)
    requires 0 < hole < |s| && HoleAt(s, hole, x) && Before(x, s[hole - 1])
    ensures HoleAt(s[hole := s[hole - 1]], hole - 1, x)
    ensures multiset(s[hole := s[hole - 1]][hole - 1 := x]) == multiset(s[hole := x])
  {
    hide Before;
    var t := s[hole := s[hole - 1]];
    BeforeIsOrder(x, s[hole - 1], x);
    assert t[hole - 1 := x] == s[hole := x][hole := s[hole - 1]][hole - 1 := x];
  }

  /** In the middle of an insertion: `x` has been taken out, and the entries after it have moved up to `at`. */
  predicate Inserting(whole: seq<Pending>, s: seq<Pending>, index: nat, at: nat, x: Pending) {
    && at <= index < |s| && |s| == |whole| && s[index + 1..] == whole[index + 1..]
    && HoleAt(s[..index + 1], at, x) && multiset(s[at := x]) == multiset(whole)
  }

  lemma InsertStarts(s: seq<Pending>, index: nat)
    requires 0 < index < |s| && Sorted(s[..index])
    ensures Inserting(s, s, index, index, s[index])
  {
    hide Before;
    assert s[index := s[index]] == s;
    forall i, j | 0 <= i < j < index ensures !Before(s[j], s[i]) { assert !Before(s[..index][j], s[..index][i]); }
  }

  lemma InsertMoves(whole: seq<Pending>, s: seq<Pending>, index: nat, at: nat, x: Pending)
    requires Inserting(whole, s, index, at, x) && at > 0 && Before(x, s[at - 1])
    ensures Inserting(whole, s[at := s[at - 1]], index, at - 1, x)
  {
    hide Before, HoleAt;
    var t := s[at := s[at - 1]];
    HoleMoves(s[..index + 1], at, x);
    assert t[..index + 1] == s[..index + 1][at := s[..index + 1][at - 1]];
    assert t[at - 1 := x] == s[at := x][at := s[at - 1]][at - 1 := x];
    assert t[index + 1..] == s[index + 1..];
  }

  lemma InsertEnds(whole: seq<Pending>, s: seq<Pending>, index: nat, at: nat, x: Pending)
    requires Inserting(whole, s, index, at, x) && (at > 0 ==> !Before(x, s[at - 1]))
    ensures var t := s[at := x];
      Sorted(t[..index + 1]) && t[index + 1..] == whole[index + 1..] && multiset(t) == multiset(whole)
  {
    hide Before, HoleAt, Sorted;
    HoleFilled(s[..index + 1], at, x);
    assert s[at := x][..index + 1] == s[..index + 1][at := x];
  }

  method InsertInto(a: array<Pending>, index: nat)
    requires 0 < index < a.Length && Sorted(a[..index])
    modifies a
    ensures Sorted(a[..index + 1]) && a[index + 1..] == old(a[index + 1..])
    ensures multiset(a[..]) == multiset(old(a[..]))
  {
    hide Before, Sorted, Inserting;
    var current := a[index];
    var at := index;
    ghost var whole := a[..];
    assert whole[..index] == a[..index];
    InsertStarts(whole, index);
    while at > 0
      invariant 0 <= at <= index && Inserting(whole, a[..], index, at, current)
    {
      ghost var s := a[..];
      var less := NotificationLess(current, a[at - 1]);
      if !less { break; }
      InsertMoves(whole, s, index, at, current);
      a[at] := a[at - 1];
      assert a[..] == s[at := s[at - 1]];
      at := at - 1;
    }
    ghost var t := a[..];
    InsertEnds(whole, t, index, at, current);
    a[at] := current;
    assert a[..] == t[at := current];
    assert a[..index + 1] == a[..][..index + 1] && a[index + 1..] == a[..][index + 1..];
  }

  method SortInPlace(a: array<Pending>)
    modifies a
    ensures Sorted(a[..]) && multiset(a[..]) == multiset(old(a[..]))
  {
    hide Before;
    ghost var whole := a[..];
    if a.Length == 0 { return; }
    for index := 1 to a.Length
      invariant Sorted(a[..index]) && multiset(a[..]) == multiset(whole)
    {
      InsertInto(a, index);
    }
    assert a[..a.Length] == a[..];
  }
}
