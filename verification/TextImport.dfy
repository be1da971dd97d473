/** Exporting the settings as text, and importing a text over the settings of a device. */
module TextImport {
  import opened Bytes
  import opened ConfigTypes
  import opened Decimals
  import opened TextFields
  import opened ConfigText

  // ----- lines -----

  /** The first place of a byte, or the length. */
  function FirstOf(s: text, b: byte): (n: nat)
    ensures n <= |s| && b !in s[..n] && (n < |s| ==> s[n] == b)
  {
    if s == [] || s[0] == b then 0 else
      var n := FirstOf(s[1..], b);
      assert s[..n + 1] == [s[0]] + s[1..][..n];
      n + 1
  }

  lemma {:induction false} FirstOfIs(front: text, b: byte, rest: text)
    requires b !in front
    ensures FirstOf(front + [b] + rest, b) == |front|
  {
    var s := front + [b] + rest;
    if front != [] {
      assert s[0] == front[0] && front[0] in front;
      assert s[1..] == front[1..] + [b] + rest;
      FirstOfIs(front[1..], b, rest);
    }
  }

  predicate KeySpace(b: byte) { b in {0x20, 9, RETURN, NEWLINE} }

  function TrimmedStart(s: text): text { if s != [] && KeySpace(s[0]) then TrimmedStart(s[1..]) else s }

  function Trimmed(s: text): text {
    var t := TrimmedStart(s);
    if t != [] && KeySpace(t[|t| - 1]) then TrimmedEnd(t) else t
  }

  function TrimmedEnd(s: text): text { if s != [] && KeySpace(s[|s| - 1]) then TrimmedEnd(s[..|s| - 1]) else s }

  /** The bytes of a key as characters. */
  function Chars(s: text): string { seq(|s|, i requires 0 <= i < |s| => s[i] as char) }

  // ----- importing -----

  datatype Imported = Imported(settings: Settings, applied: nat)

  function Applied(s: Settings, key: string, value: text): (r: Settings)
    requires Complete(s)
    ensures Complete(r)
  {
    match FieldOfKey(key)
    case None => s
    case Some(f) => s[f := Accepted(f, value, s[f])]
  }

  function WithoutReturn(line: text): text {
    if line != [] && line[|line| - 1] == RETURN then line[..|line| - 1] else line
  }

  /** The settings after a line, and whether it counts as applied; any line with a key does. */
  ghost function ImportLine(s: Settings, line: text): (r: Imported)
    requires Complete(s)
    ensures Complete(r.settings)
  {
    var l := WithoutReturn(line);
    var eq := FirstOf(l, EQUALS);
    if eq == |l| || Trimmed(l[..eq]) == [] then Imported(s, 0)
    else Imported(Applied(s, Chars(Trimmed(l[..eq])), Unescaped(l[eq + 1..])), 1)
  }

  ghost function Import(s: Settings, text: text): (r: Imported)
    requires Complete(s)
    ensures Complete(r.settings)
    decreases |text|
  {
    var n := FirstOf(text, NEWLINE);
    var one := ImportLine(s, text[..n]);
    if n == |text| then one else Counting(one.applied, Import(one.settings, text[n + 1..]))
  }

  ghost function Counting(more: nat, r: Imported): (t: Imported)
    ensures t.settings == r.settings && t.applied == more + r.applied
  {
    Imported(r.settings, more + r.applied)
  }

  // ----- exporting -----

  ghost predicate AllFit(s: Settings) { Complete(s) && forall f | FieldOk(f) :: Fits(f, s[f]) }

  function Line(f: Field, v: Value, full: bool): text
    requires FieldOk(f) && Fits(f, v)
  {
    Ascii(KeyOf(f)) + [EQUALS] + Escaped(Shown(f, v, full)) + [NEWLINE]
  }

  ghost function Lines(fs: seq<Field>, s: Settings, full: bool): text
    requires AllFit(s) && forall f | f in fs :: FieldOk(f)
  {
    if fs == [] then [] else Line(fs[0], s[fs[0]], full) + Lines(fs[1..], s, full)
  }

  lemma ExportedOk()
    ensures forall f | f in Exported() :: FieldOk(f)
  {
    hide Exported;
    forall f | f in Exported() ensures FieldOk(f) { AllExported(f); }
  }

  ghost function Export(s: Settings, full: bool): text
    requires AllFit(s)
  {
    ExportedOk();
    Lines(Exported(), s, full)
  }

  // ----- a line that was exported is imported -----

  lemma CleanKeyBytes(key: string)
    requires KeyClean(key)
    ensures Chars(Ascii(key)) == key && Trimmed(Ascii(key)) == Ascii(key) && Ascii(key) != []
    ensures EQUALS !in Ascii(key) && NEWLINE !in Ascii(key) && RETURN !in Ascii(key)
  {
    var k := Ascii(key);
    forall i | 0 <= i < |key|
      ensures k[i] == key[i] as int && k[i] >= 0x30 && k[i] != EQUALS { assert '0' <= key[i] <= 'z'; }
    assert k[0] == Ascii(key)[0] && k[|k| - 1] >= 0x30;
  }

  lemma LineImported(s: Settings, key: string, value: text)
    requires Complete(s) && KeyClean(key)
    ensures ImportLine(s, Ascii(key) + [EQUALS] + Escaped(value)) == Imported(Applied(s, key, value), 1)
    ensures NEWLINE !in Ascii(key) + [EQUALS] + Escaped(value)
  {
    hide Applied, Unescaped, Escaped, Trimmed, Chars, Ascii;
    CleanKeyBytes(key);
    EscapedBack(value);
    var line := Ascii(key) + [EQUALS] + Escaped(value);
    assert line[|line| - 1] == EQUALS || line[|line| - 1] in Escaped(value);
    FirstOfIs(Ascii(key), EQUALS, Escaped(value));
    assert line[..|Ascii(key)|] == Ascii(key) && line[|Ascii(key)| + 1..] == Escaped(value);
  }

  lemma FirstLineImported(s: Settings, line: text, rest: text)
    requires Complete(s) && NEWLINE !in line
    ensures var one := ImportLine(s, line);
            Import(s, line + [NEWLINE] + rest) == Counting(one.applied, Import(one.settings, rest))
  {
    hide ImportLine, Import;
    var whole := line + [NEWLINE] + rest;
    FirstOfIs(line, NEWLINE, rest);
    assert whole[..|line|] == line && whole[|line| + 1..] == rest;
    ImportIs(s, whole);
  }

  lemma ImportIs(s: Settings, text: text)
    requires Complete(s) && FirstOf(text, NEWLINE) < |text|
    ensures var n := FirstOf(text, NEWLINE);
            var one := ImportLine(s, text[..n]);
            Import(s, text) == Counting(one.applied, Import(one.settings, text[n + 1..]))
  {
    hide ImportLine, FirstOf, Counting, Complete, FieldOk;
  }

  lemma NothingImported(s: Settings)
    requires Complete(s)
    ensures Import(s, []) == Imported(s, 0)
  {
  }

  lemma AcceptedTwice(f: Field, value: text, now: Value)
    ensures Accepted(f, value, Accepted(f, value, now)) == Accepted(f, value, now)
  {
    hide KindOf, ParseInt, ParseWord, Blank, IsRedacted, Ascii, DefaultName, TextIsYes;
  }

  /**
   * What is imported from lines that have been exported is, for each
   * of their settings, what its own value makes of it.
   */
  lemma {:induction false} LinesImported(s: Settings, fs: seq<Field>, source: Settings, full: bool)
    requires Complete(s) && AllFit(source) && forall f | f in fs :: FieldOk(f)
    ensures var r := Import(s, Lines(fs, source, full));
            && r.applied == |fs|
            && forall f | FieldOk(f) :: r.settings[f] == if f in fs then Accepted(f, Shown(f, source[f], full), s[f])
              else s[f]
  {
    hide Import, ImportLine, Accepted, Shown, Fits, FieldOfKey, KeyOf, Escaped;
    if fs == [] {
      NothingImported(s);
    } else {
      var f := fs[0];
      var value := Shown(f, source[f], full);
      KeysTell(f);
      KeyIsClean(f);
      LineImported(s, KeyOf(f), value);
      var line, more := Ascii(KeyOf(f)) + [EQUALS] + Escaped(value), Lines(fs[1..], source, full);
      assert Lines(fs, source, full) == line + [NEWLINE] + more;
      FirstLineImported(s, line, more);
      var t := Applied(s, KeyOf(f), value);
      LinesImported(t, fs[1..], source, full);
      AcceptedTwice(f, value, s[f]);
      assert fs == [f] + fs[1..];
    }
  }

  // ----- the export of a device imported by the same or by another device -----

  /** Everything that an import of an export does, setting by setting; each line counts as applied. */
  lemma ExportImported(s: Settings, source: Settings, full: bool)
    requires Complete(s) && AllFit(source)
    ensures var r := Import(s, Export(source, full));
            r.applied == |Exported()| && forall f | FieldOk(f) ::
              r.settings[f] == Accepted(f, Shown(f, source[f], full), s[f])
  {
    hide Import, Accepted, Shown, Fits, Exported, Lines;
    ExportedOk();
    LinesImported(s, Exported(), source, full);
    forall f | FieldOk(f) ensures f in Exported() { AllExported(f); }
  }

  /** A setting that the import replaces by a default when it is empty, and that is empty. */
  predicate EmptyDefaulted(f: Field, v: Value)
    requires Fits(f, v)
  {
    KindOf(f) in {Address, ChannelName} && v.text == []
  }

  /**
   * Importing its own export, whole or redacted, leaves a setting as it is exactly if it is not the keep-alive
   * address or a channel name that is empty.
   */
  lemma OwnExport(s: Settings, full: bool)
    requires AllFit(s)
    ensures forall f | FieldOk(f) :: Import(s, Export(s, full)).settings[f] == s[f] <==> !EmptyDefaulted(f, s[f])
  {
    hide Import, Accepted, Shown, Fits, KindOf, Export;
    ExportImported(s, s, full);
    forall f | FieldOk(f) ensures Import(s, Export(s, full)).settings[f] == s[f] <==>
      !EmptyDefaulted(f, s[f]) { TakesBack(f, s[f], full); }
  }

  /** A full export sets any other device to the same, but for texts that are blank or that read as redacted. */
  lemma FullExport(s: Settings, source: Settings)
    requires Complete(s) && AllFit(source)
    ensures forall f | FieldOk(f) && (source[f].T? ==> !Blank(source[f].text) && !IsRedacted(source[f].text)) ::
      Import(s, Export(source, true)).settings[f] == source[f]
  {
    hide Import, Accepted, Shown, Fits, Export, Blank, IsRedacted;
    ExportImported(s, source, true);
    forall f | FieldOk(f) && (source[f].T? ==> !Blank(source[f].text) && !IsRedacted(source[f].text))
      ensures Import(s, Export(source, true)).settings[f] == source[f]
    {
      Carries(f, source[f], s[f]);
    }
  }

  /** The values are the same, or they are two secrets that are there. */
  predicate AlikeButSecret(f: Field, v: Value, w: Value) {
    v == w || (KindOf(f) in {Secret, AccountSecret} && v.T? && w.T? && v.text != [] && w.text != [])
  }

  lemma {:induction false} RedactedLines(fs: seq<Field>, a: Settings, b: Settings)
    requires AllFit(a) && AllFit(b) && forall f | f in fs :: FieldOk(f)
    requires forall f | FieldOk(f) :: AlikeButSecret(f, a[f], b[f])
    ensures Lines(fs, a, false) == Lines(fs, b, false)
  {
    hide Ascii, Escaped, KindOf;
    if fs != [] {
      assert FieldOk(fs[0]) && AlikeButSecret(fs[0], a[fs[0]], b[fs[0]]);
      RedactedLines(fs[1..], a, b);
    }
  }

  /**
   * A redacted export says nothing of a secret but whether there is one: devices that differ in nothing else have
   * the same export. An import of it keeps the secrets of the device wherever the source has one.
   */
  lemma RedactedExport(s: Settings, a: Settings, b: Settings)
    requires Complete(s) && AllFit(a) && AllFit(b) && forall f | FieldOk(f) :: AlikeButSecret(f, a[f], b[f])
    ensures Export(a, false) == Export(b, false)
    ensures forall f | FieldOk(f) && KindOf(f) in {Secret, AccountSecret} && a[f].text != [] ::
      Import(s, Export(a, false)).settings[f] == s[f]
  {
    hide Import, KindOf, Ascii, Blank, Exported, Lines;
    ExportedOk();
    RedactedLines(Exported(), a, b);
    ExportImported(s, a, false);
  }
}
