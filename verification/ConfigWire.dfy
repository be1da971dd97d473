/**
 * The wire format of a stored configuration: a run of bytes, little-endian words and
 * length-prefixed texts, written and read back in order.
 */
module ConfigWire {
  import opened Bytes
  import opened ConfigTypes

  /** One field as it is written. */
  datatype Value = B(n: byte) | W(word: u32) | T(text: text)

  /** What the decoder demands of one field. */
  datatype Kind =
    | Exactly(n: byte)
    | Flag
    | Between(low: u32, high: u32)
    | Power
    | Chars(max: nat)

  function Word32(n: int): u32 { n % 0x1_0000_0000 }

  lemma SmallWord(n: int)
    requires 0 <= n < 0x1_0000_0000
    ensures Word32(n) == n
  {
  }

  function Little(n: nat, digits: nat): (r: seq<byte>)
    ensures |r| == digits
  {
    if digits == 0 then [] else [n % 0x100] + Little(n / 0x100, digits - 1)
  }

  /** A number from its base-256 digits, least significant first. */
  function FromLittle(s: seq<byte>): (n: nat) {
    if s == [] then 0 else s[0] + 0x100 * FromLittle(s[1..])
  }

  lemma {:induction false} LittleBack(n: nat, digits: nat, limit: nat)
    requires n < limit && limit == Power256(digits)
    ensures FromLittle(Little(n, digits)) == n
  {
    if digits > 0 {
      assert Little(n, digits)[1..] == Little(n / 0x100, digits - 1);
      LittleBack(n / 0x100, digits - 1, Power256(digits - 1));
    }
  }

  function Power256(k: nat): nat { if k == 0 then 1 else 0x100 * Power256(k - 1) }

  lemma {:induction false} BackLittle(s: seq<byte>)
    ensures Little(FromLittle(s), |s|) == s && FromLittle(s) < Power256(|s|)
  {
    if s != [] {
      BackLittle(s[1..]);
      assert FromLittle(s) / 0x100 == FromLittle(s[1..]) && FromLittle(s) % 0x100 == s[0];
    }
  }

  lemma Powers()
    ensures Power256(2) == 0x1_0000 && Power256(4) == 0x1_0000_0000
  {
    assert Power256(1) == 0x100 && Power256(3) == 0x100_0000;
  }

  /** The length prefix has 16 bits: a longer text would be written with a prefix that does not fit it. */
  function Wire(v: Value): (r: seq<byte>)
    ensures r != []
  {
    match v
    case B(n) => [n]
    case W(n) => Little(n, 4)
    case T(t) => Little(|t|, 2) + t
  }

  function WireAll(vs: seq<Value>): seq<byte> {
    if vs == [] then [] else Wire(vs[0]) + WireAll(vs[1..])
  }

  predicate Shape(k: Kind, v: Value) {
    match k
    case Exactly(_) => v.B?
    case Flag => v.B?
    case Between(_, _) => v.W?
    case Power => v.W?
    case Chars(_) => v.T?
  }

  predicate Fits(k: Kind, v: Value) {
    match k
    case Exactly(n) => v == B(n)
    case Flag => v.B? && v.n <= 1
    case Between(low, high) => v.W? && low <= v.word <= high
    case Power => v.W? && v.word <= 0xFF && TxPowerValid(v.word)
    case Chars(max) => v.T? && |v.text| <= max && |v.text| <= 0xFFFF && NoNul(v.text)
  }

  predicate FitsAll(ks: seq<Kind>, vs: seq<Value>) {
    |ks| == |vs| && forall i :: 0 <= i < |ks| ==> Fits(ks[i], vs[i])
  }

  predicate Shaped(ks: seq<Kind>, vs: seq<Value>) {
    |ks| == |vs| && forall i :: 0 <= i < |ks| ==> Shape(ks[i], vs[i])
  }

  /** Texts that the 16-bit length prefix can describe. */
  predicate Prefixed(v: Value) { v.T? ==> |v.text| <= 0xFFFF }

  /** The field at the start of `s`, and how many bytes it takes. */
  function ReadRaw(k: Kind, s: seq<byte>): (r: Option<(Value, nat)>)
    ensures r.Some? ==> 0 < r.value.1 <= |s| && Shape(k, r.value.0)
  {
    match k
    case Exactly(_) => if |s| < 1 then None else Some((B(s[0]), 1))
    case Flag => if |s| < 1 then None else Some((B(s[0]), 1))
    case Between(_, _) => ReadWord(s)
    case Power => ReadWord(s)
    case Chars(max) =>
      if |s| < 2 then None else
        var n := FromLittle(s[..2]);
        if n > max || n > |s| - 2 then None else Some((T(s[2..2 + n]), 2 + n))
  }

  function ReadWord(s: seq<byte>): (r: Option<(Value, nat)>)
    ensures r.Some? ==> r.value.1 == 4 <= |s| && r.value.0.W?
  {
    if |s| < 4 then None else
      BackLittle(s[..4]);
      Powers();
      Some((W(FromLittle(s[..4])), 4))
  }

  /** The field at the start of `s`, if it is one that the decoder accepts. */
  function ReadOne(k: Kind, s: seq<byte>): (r: Option<(Value, nat)>)
    ensures r.Some? ==> 0 < r.value.1 <= |s|
  {
    match ReadRaw(k, s)
    case None => None
    case Some(p) => if Fits(k, p.0) then Some(p) else None
  }

  function Parse(ks: seq<Kind>, s: seq<byte>): (r: Option<(seq<Value>, seq<byte>)>) {
    if ks == [] then Some(([], s)) else
      match ReadOne(ks[0], s)
      case None => None
      case Some(p) =>
        match Parse(ks[1..], s[p.1..])
        case None => None
        case Some(q) => Some(([p.0] + q.0, q.1))
  }

  lemma WordBack(n: u32)
    ensures FromLittle(Little(n, 4)) == n
  {
    Powers();
    LittleBack(n, 4, Power256(4));
  }

  lemma HalfBack(n: nat)
    requires n <= 0xFFFF
    ensures FromLittle(Little(n, 2)) == n
  {
    Powers();
    LittleBack(n, 2, Power256(2));
  }

  /** A written field is read back exactly when it is one that the decoder accepts. */
  lemma WrittenIsRead(k: Kind, v: Value, rest: seq<byte>)
    requires Shape(k, v) && Prefixed(v)
    ensures ReadOne(k, Wire(v) + rest) == if Fits(k, v) then Some((v, |Wire(v)|)) else None
  {
    hide Little, FromLittle, NoNul, TxPowerValid;
    var s := Wire(v) + rest;
    match v
    case B(n) =>
    case W(n) =>
      WordBack(n);
      assert s[..4] == Little(n, 4);
    case T(t) =>
      HalfBack(|t|);
      assert s[..2] == Little(|t|, 2);
      assert s[2..2 + |t|] == t;
  }

  /** A field that has been read is what was written there. */
  lemma ReadIsWritten(k: Kind, s: seq<byte>)
    requires ReadOne(k, s).Some?
    ensures var p := ReadOne(k, s).value;
            Fits(k, p.0) && Wire(p.0) == s[..p.1] && Prefixed(p.0)
  {
    hide NoNul, TxPowerValid;
    match k
    case Exactly(_) =>
    case Flag =>
    case Between(_, _) => BackLittle(s[..4]);
    case Power => BackLittle(s[..4]);
    case Chars(_) =>
      BackLittle(s[..2]);
      Powers();
      var n := FromLittle(s[..2]);
      assert s[..2 + n] == s[..2] + s[2..2 + n];
  }

  /** Fields written one after the other are read back exactly when each is one that the decoder accepts. */
  lemma {:induction false} AllWrittenAreRead(ks: seq<Kind>, vs: seq<Value>, rest: seq<byte>)
    requires Shaped(ks, vs) && forall v | v in vs :: Prefixed(v)
    ensures Parse(ks, WireAll(vs) + rest) == if FitsAll(ks, vs) then Some((vs, rest)) else None
  {
    hide Wire, Shape, Fits, Prefixed, ReadOne;
    if ks == [] {
      assert WireAll(vs) + rest == rest;
    } else {
      var s := WireAll(vs) + rest;
      assert s == Wire(vs[0]) + (WireAll(vs[1..]) + rest);
      WrittenIsRead(ks[0], vs[0], WireAll(vs[1..]) + rest);
      assert s[|Wire(vs[0])|..] == WireAll(vs[1..]) + rest;
      AllWrittenAreRead(ks[1..], vs[1..], rest);
      assert vs == [vs[0]] + vs[1..];
      FitsFirst(ks, vs);
    }
  }

  lemma FitsFirst(ks: seq<Kind>, vs: seq<Value>)
    requires |ks| == |vs| > 0
    ensures FitsAll(ks, vs) <==> Fits(ks[0], vs[0]) && FitsAll(ks[1..], vs[1..])
  {
    hide Fits;
    if Fits(ks[0], vs[0]) && FitsAll(ks[1..], vs[1..]) {
      forall i | 0 <= i < |ks| ensures Fits(ks[i], vs[i]) {
        if i > 0 { assert Fits(ks[1..][i - 1], vs[1..][i - 1]); }
      }
    }
  }

  /** Whatever is read is what was written. */
  lemma {:induction false} AllReadAreWritten(ks: seq<Kind>, s: seq<byte>)
    requires Parse(ks, s).Some?
    ensures var q := Parse(ks, s).value;
            FitsAll(ks, q.0) && s == WireAll(q.0) + q.1 && forall v | v in q.0 :: Prefixed(v)
  {
    hide Wire, Fits, Prefixed, ReadOne;
    if ks != [] {
      var p := ReadOne(ks[0], s).value;
      ReadIsWritten(ks[0], s);
      AllReadAreWritten(ks[1..], s[p.1..]);
      var q := Parse(ks[1..], s[p.1..]).value;
      var vs := [p.0] + q.0;
      assert vs[1..] == q.0;
      FitsFirst(ks, vs);
      Rejoined(Wire(p.0), WireAll(q.0), q.1, s, p.1);
    }
  }

  lemma Rejoined<A>(a: seq<A>, b: seq<A>, c: seq<A>, s: seq<A>, n: nat)
    requires n <= |s| && s[..n] == a && s[n..] == b + c
    ensures s == a + b + c
  {
    assert s == s[..n] + s[n..];
  }

  lemma {:induction false} WireAllAppend(a: seq<Value>, b: seq<Value>)
    ensures WireAll(a + b) == WireAll(a) + WireAll(b)
  {
    hide Wire;
    if a == [] {
      assert a + b == b;
    } else {
      WireAllAppend(a[1..], b);
      assert (a + b)[1..] == a[1..] + b;
    }
  }

  lemma WireAllSnoc(a: seq<Value>, v: Value)
    ensures WireAll(a + [v]) == WireAll(a) + Wire(v)
  {
    hide Wire;
    WireAllAppend(a, [v]);
    assert WireAll([v]) == Wire(v) + WireAll([]);
  }

  /** Appending values one at a time, or all at once. */
  lemma Six<A>(s: seq<A>, a: A, b: A, c: A, d: A, e: A, f: A)
    ensures s + [a] + [b] + [c] + [d] + [e] + [f] == s + [a, b, c, d, e, f]
  {
  }

  lemma Seven<A>(s: seq<A>, a: A, b: A, c: A, d: A, e: A, f: A, g: A)
    ensures s + [a] + [b] + [c] + [d] + [e] + [f] + [g] == s + [a, b, c, d, e, f, g]
  {
  }

  // ----- writing -----

  /**
   * The two writers of the firmware. Without a capacity it grows as needed and cuts a
   * length prefix to 16 bits; with one it refuses what does not fit, and every later write.
   */
  class Writer {
    const capacity: Option<nat>
    var output: seq<byte>
    var ok: bool

    /** Everything that has been asked of the writer. */
    ghost var written: seq<Value>

    ghost predicate Fitting(vs: seq<Value>) {
      && |WireAll(vs)| <= (if capacity.Some? then capacity.value else |WireAll(vs)|)
      && (capacity.Some? ==> forall v | v in vs :: Prefixed(v))
    }

    /** The output is the wire form of what was written, as long as that fits. */
    ghost predicate Valid()
      reads this
    {
      && (ok <==> Fitting(written))
      && (ok ==> output == WireAll(written))
    }

    constructor (capacity: Option<nat>)
      ensures Valid() && written == [] && this.capacity == capacity
    {
      this.capacity := capacity;
      output, ok, written := [], true, [];
    }

    lemma FittingGrows(vs: seq<Value>, v: Value)
      ensures Fitting(vs + [v]) <==>
        && Fitting(vs) && (capacity.Some? ==> Prefixed(v) && |WireAll(vs)| + |Wire(v)| <= capacity.value)
    {
      hide Wire, WireAll, Prefixed;
      WireAllSnoc(vs, v);
      assert forall u :: u in vs + [v] <==> u in vs || u == v;
    }

    method Raw(data: seq<byte>)
      modifies `output, `ok
      ensures ok == (old(ok) && (capacity.Some? ==> |data| <= capacity.value - |old(output)|))
      ensures output == if ok then old(output) + data else old(output)
    {
      if !ok || (capacity.Some? && |data| > capacity.value - |output|) {
        ok := false;
        return;
      }
      output := output + data;
    }

    method U8(value: byte)
      requires Valid()
      modifies this
      ensures Valid() && written == old(written) + [B(value)]
    {
      hide WireAll;
      FittingGrows(written, B(value));
      WireAllSnoc(written, B(value));
      Raw([value]);
      written := written + [B(value)];
    }

    method U32(value: int)
      requires Valid()
      modifies this
      ensures Valid() && written == old(written) + [W(Word32(value))]
    {
      hide WireAll;
      ghost var v := W(Word32(value));
      FittingGrows(written, v);
      WireAllSnoc(written, v);
      Raw(Little(Word32(value), 4));
      written := written + [v];
    }

    method Text(value: text)
      requires Valid()
      modifies this
      ensures Valid() && written == old(written) + [T(value)]
    {
      hide WireAll;
      FittingGrows(written, T(value));
      WireAllSnoc(written, T(value));
      ghost var was := output;
      if capacity.Some? && |value| > 0xFFFF {
        ok := false;
      } else {
        Raw(Little(|value|, 2));
        Raw(value);
      }
      assert was + Little(|value|, 2) + value == was + Wire(T(value));
      written := written + [T(value)];
    }
  }

  // ----- reading -----

  function Prepend(front: seq<Value>, r: Option<(seq<Value>, seq<byte>)>): Option<(seq<Value>, seq<byte>)> {
    match r case None => None case Some(q) => Some((front + q.0, q.1))
  }

  lemma ParseStep(ks: seq<Kind>, s: seq<byte>, taken: seq<Value>)
    requires ks != []
    ensures ReadOne(ks[0], s).None? ==> Parse(ks, s).None?
    ensures ReadOne(ks[0], s).Some? ==>
      var p := ReadOne(ks[0], s).value;
      Prepend(taken, Parse(ks, s)) == Prepend(taken + [p.0], Parse(ks[1..], s[p.1..]))
  {
    hide ReadOne;
    if ReadOne(ks[0], s).Some? {
      var p := ReadOne(ks[0], s).value;
      var q := Parse(ks[1..], s[p.1..]);
      assert q.Some? ==> taken + ([p.0] + q.value.0) == taken + [p.0] + q.value.0;
    }
  }

  /** Reads fields one after the other. `plan` is what the decoder demands of all of them. */
  class Reader {
    const data: seq<byte>
    ghost const plan: seq<Kind>
    var cursor: nat
    ghost var taken: seq<Value>

    ghost predicate Valid()
      reads this
    {
      && cursor <= |data| && |taken| <= |plan|
      && Parse(plan, data) == Prepend(taken, Parse(plan[|taken|..], data[cursor..]))
    }

    /** The plan goes on with this demand. */
    ghost predicate Next(k: Kind)
      reads this
    {
      |taken| < |plan| && plan[|taken|] == k
    }

    constructor (data: seq<byte>, ghost plan: seq<Kind>)
      ensures Valid() && this.data == data && this.plan == plan && taken == []
    {
      this.data, this.plan := data, plan;
      cursor, taken := 0, [];
      new;
      assert data[0..] == data && plan[0..] == plan;
      assert Parse(plan, data).Some? ==> [] + Parse(plan, data).value.0 == Parse(plan, data).value.0;
    }

    method Byte() returns (ok: bool, value: byte)
      requires cursor <= |data|
      modifies `cursor
      ensures ok <==> old(cursor) < |data|
      ensures ok ==> cursor == old(cursor) + 1 && value == data[old(cursor)]
    {
      if cursor >= |data| { return false, 0; }
      value := data[cursor];
      cursor := cursor + 1;
      return true, value;
    }

    method Word() returns (ok: bool, value: u32)
      requires cursor <= |data|
      modifies `cursor
      ensures ok <==> ReadWord(data[old(cursor)..]).Some?
      ensures ok ==> cursor == old(cursor) + 4 <= |data| && ReadWord(data[old(cursor)..]) == Some((W(value), 4))
    {
      if |data| - cursor < 4 { return false, 0; }
      ghost var s := data[cursor..];
      value := data[cursor] + 0x100 * (data[cursor + 1] as int) + 0x1_0000 * (data[cursor + 2] as int)
               + 0x100_0000 * (data[cursor + 3] as int);
      FourBytes(s[..4]);
      cursor := cursor + 4;
      return true, value;
    }

    /** The field in front of the cursor has been read and is one that the plan demands. */
    ghost method Accept(v: Value, from: nat)
      requires from < cursor <= |data| && |taken| < |plan|
      requires Parse(plan, data) == Prepend(taken, Parse(plan[|taken|..], data[from..]))
      requires ReadOne(plan[|taken|], data[from..]) == Some((v, cursor - from))
      modifies `taken
      ensures Valid() && taken == old(taken) + [v]
    {
      hide Parse, ReadOne;
      ParseStep(plan[|taken|..], data[from..], taken);
      assert data[from..][cursor - from..] == data[cursor..];
      assert plan[|taken|..][1..] == plan[|taken| + 1..];
      taken := taken + [v];
    }

    /** The input has already been refused. */
    ghost predicate Refused()
      reads this
    {
      Parse(plan, data).None?
    }

    lemma Refusal(from: nat)
      requires from <= |data| && |taken| < |plan| && ReadOne(plan[|taken|], data[from..]).None?
      requires Parse(plan, data) == Prepend(taken, Parse(plan[|taken|..], data[from..]))
      ensures Refused()
    {
      hide ReadOne;
      ParseStep(plan[|taken|..], data[from..], taken);
    }

    method Count(n: byte) returns (ok: bool)
      requires Valid() && Next(Exactly(n))
      modifies this
      ensures if ok then Valid() && taken == old(taken) + [B(n)] else Refused()
    {
      hide Parse;
      ghost var from := cursor;
      var value;
      ok, value := Byte();
      if !ok || value != n {
        Refusal(from);
        return false;
      }
      Accept(B(n), from);
    }

    method Bool() returns (ok: bool, value: bool)
      requires Valid() && Next(Flag)
      modifies this
      ensures if ok then Valid() && taken == old(taken) + [B(if value then 1 else 0)] else Refused()
    {
      hide Parse;
      ghost var from := cursor;
      var n;
      ok, n := Byte();
      if !ok || n > 1 {
        Refusal(from);
        return false, false;
      }
      value := n != 0;
      Accept(B(n), from);
    }

    method Number(low: u32, high: u32) returns (ok: bool, value: u32)
      requires Valid() && Next(Between(low, high))
      modifies this
      ensures if ok then low <= value <= high && Valid() && taken == old(taken) + [W(value)]
              else Refused()
    {
      hide Parse;
      ghost var from := cursor;
      ok, value := Word();
      if !ok || value < low || value > high {
        Refusal(from);
        return false, 0;
      }
      Accept(W(value), from);
    }

    /** A signed number in two's complement. */
    method Signed() returns (ok: bool, value: int)
      requires Valid() && Next(Between(0, 0xFFFF_FFFF))
      modifies this
      ensures if ok then -0x8000_0000 <= value < 0x8000_0000 && Valid()
                         && taken == old(taken) + [W(Word32(value))]
              else Refused()
    {
      var raw;
      ok, raw := Number(0, 0xFFFF_FFFF);
      value := if raw < 0x8000_0000 then raw else (raw as int) - 0x1_0000_0000;
    }

    method TxPower() returns (ok: bool, value: byte)
      requires Valid() && Next(Power)
      modifies this
      ensures if ok then Valid() && taken == old(taken) + [W(value)] else Refused()
    {
      hide Parse, TxPowerValid;
      ghost var from := cursor;
      var raw;
      ok, raw := Word();
      if !ok || raw > 0xFF || !TxPowerValid(raw) {
        Refusal(from);
        return false, 0;
      }
      Accept(W(raw), from);
      return true, raw;
    }

    method String(max: nat) returns (ok: bool, value: text)
      requires Valid() && Next(Chars(max))
      modifies this
      ensures if ok then Valid() && taken == old(taken) + [T(value)] else Refused()
    {
      hide Parse;
      ghost var from, s := cursor, data[cursor..];
      value := [];
      if |data| - cursor < 2 {
        Refusal(from);
        return false, [];
      }
      var length := data[cursor] + 0x100 * (data[cursor + 1] as int);
      TwoBytes(s[..2]);
      cursor := cursor + 2;
      if length > max || |data| - cursor < length {
        Refusal(from);
        return false, [];
      }
      value := data[cursor..cursor + length];
      assert value == s[2..2 + length];
      if 0 in value {
        Refusal(from);
        return false, [];
      }
      cursor := cursor + length;
      Accept(T(value), from);
      return true, value;
    }
  }

  lemma TwoBytes(s: seq<byte>)
    requires |s| == 2
    ensures FromLittle(s) == s[0] + 0x100 * (s[1] as int)
  {
    assert FromLittle(s[1..]) == s[1] + 0x100 * FromLittle(s[1..][1..]);
    assert s[1..][1..] == [];
  }

  lemma FourBytes(s: seq<byte>)
    requires |s| == 4
    ensures FromLittle(s) == s[0] + 0x100 * (s[1] as int) + 0x1_0000 * (s[2] as int) + 0x100_0000 * (s[3] as int)
  {
    TwoBytes(s[2..]);
    assert s[1..][1..] == s[2..];
    assert FromLittle(s[1..]) == s[1] + 0x100 * FromLittle(s[2..]);
  }
}
