/** A JSON document as it comes in: its strings character by character, everything else token by token. */
module BppSpelling {
  import opened BppDocument

  type PlainToken = t: Token | !t.Str? witness Comma

  /** A quote, a character of a string, or any other token as a whole. */
  datatype Item = Quote | Char(c: char) | Mark(token: PlainToken)

  function Chars(s: string): (r: seq<Item>)
    ensures |r| == |s|
  {
    if s == "" then [] else [Char(s[0])] + Chars(s[1..])
  }

  function Spell(t: Token): (r: seq<Item>)
    ensures r != []
  {
    if t.Str? then [Quote] + (Chars(t.text) + [Quote]) else [Mark(t)]
  }

  function Spelled(ts: seq<Token>): (r: seq<Item>)
    ensures r == [] <==> ts == []
  {
    if ts == [] then [] else Spell(ts[0]) + Spelled(ts[1..])
  }

  lemma {:induction false} SpelledAppend(a: seq<Token>, b: seq<Token>)
    ensures Spelled(a + b) == Spelled(a) + Spelled(b)
  {
    hide Spell;
    if a == [] {
      assert a + b == b;
    } else {
      assert (a + b)[1..] == a[1..] + b;
      SpelledAppend(a[1..], b);
    }
  }

  lemma SpelledOn(ts: seq<Token>, t: Token)
    ensures Spelled(ts + [t]) == Spelled(ts) + Spell(t)
  {
    hide Spell;
    SpelledAppend(ts, [t]);
    assert Spelled([t]) == Spell(t) + Spelled([]);
  }

  lemma {:induction false} CharsOn(s: string, c: char)
    ensures Chars(s + [c]) == Chars(s) + [Char(c)]
  {
    if s == "" {
      assert s + [c] == [c];
    } else {
      assert (s + [c])[1..] == s[1..] + [c];
      CharsOn(s[1..], c);
    }
  }

  /** Of two sequences of which one starts the other, what follows the same first item does too. */
  lemma Tails<T>(x: T, a: seq<T>, y: T, b: seq<T>)
    requires [x] + a <= [y] + b
    ensures x == y && a <= b
  {
    assert ([x] + a)[0] == ([y] + b)[0];
    assert a == ([x] + a)[1..] && b == ([y] + b)[1..];
  }

  /** What the characters so far say of a string that goes on with them. */
  lemma {:induction false} CharsAhead(p: string, s: string, rest: seq<Item>)
    requires Chars(p) <= Chars(s) + ([Quote] + rest)
    ensures p <= s
  {
    hide Chars;
    if p != "" {
      CharsAre(p);
      FirstChar(s, rest);
      var all := Chars(s) + ([Quote] + rest);
      Tails(Char(p[0]), Chars(p[1..]), all[0], all[1..]);
      CharsAhead(p[1..], s[1..], rest);
      assert p == [p[0]] + p[1..] && s == [s[0]] + s[1..];
    }
  }

  lemma FirstChar(s: string, rest: seq<Item>)
    ensures var all := Chars(s) + ([Quote] + rest);
            && all == [all[0]] + all[1..] && all[0] == (if s == "" then Quote else Char(s[0]))
            && all[1..] == (if s == "" then rest else Chars(s[1..]) + ([Quote] + rest))
  {
    var x := if s == "" then Quote else Char(s[0]);
    var a := if s == "" then rest else Chars(s[1..]) + ([Quote] + rest);
    CharsAre(s);
    hide Chars;
    if s == "" { NothingBefore([Quote] + rest); } else { Front(x, Chars(s[1..]), [Quote] + rest); }
    FrontAgain(x, a);
  }

  lemma CharsAre(s: string)
    ensures Chars(s) == if s == "" then [] else [Char(s[0])] + Chars(s[1..])
  {
  }

  lemma NothingBefore<T>(a: seq<T>)
    ensures [] + a == a
  {
  }

  lemma Front<T>(x: T, a: seq<T>, b: seq<T>)
    ensures ([x] + a) + b == [x] + (a + b)
  {
  }

  lemma FrontAgain<T>(x: T, a: seq<T>)
    ensures ([x] + a)[0] == x && ([x] + a)[1..] == a
  {
  }

  lemma {:induction false} NoMarkAhead(p: string, s: string, t: PlainToken, rest: seq<Item>)
    ensures !(Chars(p) + [Mark(t)] <= Chars(s) + ([Quote] + rest))
  {
    hide Chars;
    var all := Chars(s) + ([Quote] + rest);
    if Chars(p) + [Mark(t)] <= all {
      CharsAre(p);
      FirstChar(s, rest);
      if p == "" {
        NothingBefore([Mark(t)]);
      } else {
        Front(Char(p[0]), Chars(p[1..]), [Mark(t)]);
        Tails(Char(p[0]), Chars(p[1..]) + [Mark(t)], all[0], all[1..]);
        NoMarkAhead(p[1..], s[1..], t, rest);
      }
    }
  }

  lemma {:induction false} CharsEnd(p: string, s: string, more: seq<Item>, rest: seq<Item>)
    requires Chars(p) + ([Quote] + more) <= Chars(s) + ([Quote] + rest)
    ensures p == s && more <= rest
  {
    hide Chars;
    var some, all := Chars(p) + ([Quote] + more), Chars(s) + ([Quote] + rest);
    FirstChar(p, more);
    FirstChar(s, rest);
    Tails(some[0], some[1..], all[0], all[1..]);
    if p != "" {
      CharsEnd(p[1..], s[1..], more, rest);
      assert p == [p[0]] + p[1..] && s == [s[0]] + s[1..];
    }
  }

  lemma Regroup3<T>(a: seq<T>, b: seq<T>, c: seq<T>, d: seq<T>)
    ensures (a + (b + c)) + d == a + (b + (c + d))
  {
  }

  /** One token after the other: no spelling starts like another one. */
  lemma SpellUnique(t: Token, u: Token, more: seq<Item>, rest: seq<Item>)
    requires Spell(t) + more <= Spell(u) + rest
    ensures t == u && more <= rest
  {
    hide Chars;
    if t.Str? { Regroup3([Quote], Chars(t.text), [Quote], more); }
    if u.Str? { Regroup3([Quote], Chars(u.text), [Quote], rest); }
    var first, second := Spell(t)[0], Spell(u)[0];
    var a := if t.Str? then Chars(t.text) + ([Quote] + more) else more;
    var b := if u.Str? then Chars(u.text) + ([Quote] + rest) else rest;
    assert Spell(t) + more == [first] + a && Spell(u) + rest == [second] + b;
    Tails(first, a, second, b);
    if t.Str? { CharsEnd(t.text, u.text, more, rest); }
  }

  /** A start of a spelled document is the spelling of a start of its tokens, and a start of what follows them. */
  lemma {:induction false} SpelledStarts(ts: seq<Token>, all: seq<Token>, more: seq<Item>)
    requires Spelled(ts) + more <= Spelled(all)
    ensures ts <= all && more <= Spelled(all[|ts|..])
    decreases |ts|
  {
    hide Spell;
    if ts == [] {
      assert Spelled(ts) + more == more && all[|ts|..] == all;
    } else {
      assert all != [];
      assert Spelled(ts) + more == Spell(ts[0]) + (Spelled(ts[1..]) + more);
      SpellUnique(ts[0], all[0], Spelled(ts[1..]) + more, Spelled(all[1..]));
      SpelledStarts(ts[1..], all[1..], more);
      assert ts == [ts[0]] + ts[1..] && all == [all[0]] + all[1..];
      assert all[1..][|ts| - 1..] == all[|ts|..];
    }
  }

  /** The next token of a document, by what comes next of its spelling. */
  lemma NextMark(ts: seq<Token>, all: seq<Token>, t: PlainToken)
    requires Spelled(ts) + [Mark(t)] <= Spelled(all)
    ensures ts + [t] <= all
  {
    hide Spell;
    SpelledStarts(ts, all, [Mark(t)]);
    var rest := all[|ts|..];
    MarkSpelled(t);
    SpellUnique(t, rest[0], [], Spelled(rest[1..]));
    OneMore(ts, all, rest);
  }

  lemma MarkSpelled(t: PlainToken)
    ensures Spell(t) + [] == [Mark(t)]
  {
  }

  /** Outside a string there is no character of one. */
  lemma NoCharNext(ts: seq<Token>, all: seq<Token>, c: char)
    ensures !(Spelled(ts) + [Char(c)] <= Spelled(all))
  {
    hide Spelled, Spell;
    if Spelled(ts) + [Char(c)] <= Spelled(all) {
      var rest := RestOf(ts, all, [Char(c)]);
      RestIs(rest);
      FirstItem(rest[0], c, Spelled(rest[1..]));
    }
  }

  lemma FirstItem(t: Token, c: char, later: seq<Item>)
    ensures !([Char(c)] <= Spell(t) + later)
  {
    var first := Spell(t)[0];
    assert (Spell(t) + later)[0] == first != Char(c);
  }

  lemma OneMore<T>(front: seq<T>, all: seq<T>, rest: seq<T>)
    requires front <= all && rest == all[|front|..] && rest != []
    ensures front + [rest[0]] <= all
  {
    assert front + [rest[0]] == all[..|front| + 1];
  }

  lemma SomeRest(rest: seq<Token>, p: string)
    requires [Quote] + Chars(p) <= Spelled(rest)
    ensures rest != [] && rest[0].Str? && p <= rest[0].text && 1 + |p| < |Spelled(rest)|
  {
    hide Chars, Spelled, Spell;
    RestIs(rest);
    assert ([Quote] + Chars(p))[0] == Quote;
    StringIn(rest[0], Spelled(rest[1..]), p);
  }

  /** Inside a string: the next token is one that goes on like this. */
  lemma NextString(ts: seq<Token>, all: seq<Token>, p: string) returns (u: Token)
    requires Spelled(ts) + ([Quote] + Chars(p)) <= Spelled(all)
    ensures ts + [u] <= all && u.Str? && p <= u.text
    ensures |Spelled(ts)| + 1 + |p| < |Spelled(all)|
  {
    hide Spelled, Chars;
    var rest := RestOf(ts, all, [Quote] + Chars(p));
    SomeRest(rest, p);
    u := rest[0];
    OneMore(ts, all, rest);
  }

  /** Inside a string there is nothing but characters. */
  lemma NoMarkNext(ts: seq<Token>, all: seq<Token>, p: string, t: PlainToken)
    ensures !(Spelled(ts) + ([Quote] + (Chars(p) + [Mark(t)])) <= Spelled(all))
  {
    hide Chars, Spelled, Spell;
    if Spelled(ts) + ([Quote] + (Chars(p) + [Mark(t)])) <= Spelled(all) {
      var rest := RestOf(ts, all, [Quote] + (Chars(p) + [Mark(t)]));
      RestIs(rest);
      SomeString(rest, Chars(p) + [Mark(t)]);
      NoMarkAhead(p, rest[0].text, t, Spelled(rest[1..]));
    }
  }

  lemma SomeString(rest: seq<Token>, more: seq<Item>)
    requires [Quote] + more <= Spelled(rest)
    ensures rest != [] && rest[0].Str? && more <= Chars(rest[0].text) + ([Quote] + Spelled(rest[1..]))
  {
    hide Chars, Spelled;
    RestIs(rest);
    var u, later := rest[0], Spelled(rest[1..]);
    if u.Str? { Regroup3([Quote], Chars(u.text), [Quote], later); }
    var b := if u.Str? then Chars(u.text) + ([Quote] + later) else later;
    assert Spell(u) + later == [Spell(u)[0]] + b;
    Tails(Quote, more, Spell(u)[0], b);
  }

  lemma RestOf(ts: seq<Token>, all: seq<Token>, more: seq<Item>) returns (rest: seq<Token>)
    requires Spelled(ts) + more <= Spelled(all)
    ensures ts <= all && rest == all[|ts|..] && more <= Spelled(rest)
    ensures |Spelled(all)| == |Spelled(ts)| + |Spelled(rest)|
  {
    hide Spelled;
    SpelledStarts(ts, all, more);
    rest := all[|ts|..];
    SpelledAppend(ts, rest);
    assert all == ts + rest;
  }

  lemma StringIn(u: Token, later: seq<Item>, p: string)
    requires [Quote] + Chars(p) <= Spell(u) + later
    ensures u.Str? && p <= u.text && 1 + |p| < |Spell(u)|
  {
    hide Chars;
    if u.Str? { Regroup3([Quote], Chars(u.text), [Quote], later); }
    var b := if u.Str? then Chars(u.text) + ([Quote] + later) else later;
    assert Spell(u) + later == [Spell(u)[0]] + b;
    Tails(Quote, Chars(p), Spell(u)[0], b);
    CharsAhead(p, u.text, later);
  }

  lemma RestIs(rest: seq<Token>)
    ensures rest == [] <==> Spelled(rest) == []
    ensures rest != [] ==> Spelled(rest) == Spell(rest[0]) + Spelled(rest[1..])
  {
  }

  /** At the end of one. */
  lemma WholeString(ts: seq<Token>, all: seq<Token>, p: string)
    requires Spelled(ts) + ([Quote] + (Chars(p) + [Quote])) <= Spelled(all)
    ensures ts + [Str(p)] <= all
  {
    hide Chars, Spelled;
    SpelledStarts(ts, all, [Quote] + (Chars(p) + [Quote]));
    var rest := all[|ts|..];
    RestIs(rest);
    assert Spell(Str(p)) + [] == [Quote] + (Chars(p) + [Quote]);
    SpellUnique(Str(p), rest[0], [], Spelled(rest[1..]));
    OneMore(ts, all, rest);
  }

  /** A string that has not ended is not the end of a document. */
  lemma NotInString(ts: seq<Token>, all: seq<Token>, p: string)
    ensures Spelled(ts) + ([Quote] + Chars(p)) != Spelled(all)
  {
    hide Chars, Spelled;
    if Spelled(ts) + ([Quote] + Chars(p)) == Spelled(all) { var u := NextString(ts, all, p); }
  }

  /** A document that has been spelled to its end has been read to its end. */
  lemma WholeDocument(ts: seq<Token>, all: seq<Token>)
    requires Spelled(ts) == Spelled(all)
    ensures ts == all
  {
    hide Spelled;
    assert Spelled(ts) + [] == Spelled(all) && Spelled(all) + [] == Spelled(ts);
    SpelledStarts(ts, all, []);
    SpelledStarts(all, ts, []);
  }
}
