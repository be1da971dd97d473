/** Bytes, machine words, and the concatenation of byte strings. */
module Bytes {
  datatype Option<+T> = None | Some(value: T)

  type byte = b: int | 0 <= b < 0x100
  type u16 = n: int | 0 <= n < 0x1_0000
  type u32 = n: int | 0 <= n < 0x1_0000_0000

  /** A number from its base-256 digits, most significant first. */
  function BigEndian(s: seq<byte>): (n: nat) {
    if s == [] then 0 else BigEndian(s[..|s| - 1]) * 0x100 + s[|s| - 1]
  }

  /** The concatenation of the parts, in order. */
  function Flat<T>(parts: seq<seq<T>>): (r: seq<T>) {
    if parts == [] then [] else parts[0] + Flat(parts[1..])
  }

  lemma {:induction false} FlatAppend<T>(a: seq<seq<T>>, b: seq<seq<T>>)
    ensures Flat(a + b) == Flat(a) + Flat(b)
  {
    if a == [] {
      assert a + b == b;
    } else {
      assert (a + b)[1..] == a[1..] + b;
      FlatAppend(a[1..], b);
    }
  }

  lemma FlatSnoc<T>(a: seq<seq<T>>, s: seq<T>)
    ensures Flat(a + [s]) == Flat(a) + s
  {
    FlatAppend(a, [s]);
    assert Flat([s]) == s + Flat([]);
  }

  /** A part of a longer concatenation starts where the earlier parts end. */
  lemma FlatSplit<T>(parts: seq<seq<T>>, k: nat)
    requires k <= |parts|
    ensures Flat(parts) == Flat(parts[..k]) + Flat(parts[k..])
  {
    FlatAppend(parts[..k], parts[k..]);
    assert parts == parts[..k] + parts[k..];
  }

  /** The starts of two strings of which one extends the other. */
  lemma PrefixesCompare<T>(h1: seq<T>, r1: seq<T>, h2: seq<T>, r2: seq<T>)
    requires h1 + r1 <= h2 + r2 || h2 + r2 <= h1 + r1
    ensures h1 <= h2 || h2 <= h1
  {
    var n := if |h1| <= |h2| then |h1| else |h2|;
    assert h1[..n] == (h1 + r1)[..n] == (h2 + r2)[..n] == h2[..n];
  }

  lemma SliceOfSlice<T>(s: seq<T>, a: nat, b: nat, c: nat, d: nat)
    requires a <= b <= |s| && c <= d <= b - a
    ensures s[a..b][c..d] == s[a + c..a + d]
  {
    forall i | 0 <= i < d - c ensures s[a..b][c..d][i] == s[a + c..a + d][i] {}
  }

  lemma AppendMore<T>(x: seq<T>, s: seq<T>, a: nat, n: nat)
    requires a + n <= |s|
    ensures (x + s[..a]) + s[a..][..n] == x + s[..a + n]
  {
  }

  lemma PrefixWithin<T>(x: seq<T>, y: seq<T>, n: nat)
    requires n <= |y|
    ensures x + y[..n] <= x + y
  {
    assert (x + y)[..|x| + n] == x + y[..n];
  }

  lemma PrefixOfPrefix<T>(x: seq<T>, a: seq<T>, b: seq<T>, whole: seq<T>)
    requires a <= b && x + b <= whole
    ensures x + a <= whole
  {
    assert x + a == (x + b)[..|x| + |a|];
  }
}
