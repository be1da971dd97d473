/** The loops that write and read the text of the settings, and the update that makes an import of it last. */
module TextUpdate {
  import opened Bytes
  import opened ConfigTypes
  import opened Decimals
  import opened TextFields
  import opened ConfigText
  import opened TextImport

  // ----- exporting -----

  lemma {:induction false} LinesAppend(a: seq<Field>, b: seq<Field>, s: Settings, full: bool)
    requires AllFit(s) && forall f | f in a + b :: FieldOk(f)
    ensures (forall f | f in a :: FieldOk(f)) && (forall f | f in b :: FieldOk(f))
    ensures Lines(a + b, s, full) == Lines(a, s, full) + Lines(b, s, full)
  {
    hide Line, Fits;
    forall f | f in a || f in b ensures FieldOk(f) { assert f in a + b; }
    if a == [] {
      assert a + b == b;
    } else {
      assert (a + b)[1..] == a[1..] + b && (a + b)[0] == a[0];
      LinesAppend(a[1..], b, s, full);
    }
  }

  method AppendKv(out: text, f: Field, s: Settings, full: bool) returns (r: text)
    requires AllFit(s) && FieldOk(f)
    ensures r == out + Line(f, s[f], full)
  {
    hide Escaped, Shown, KeyOf;
    var value := CfgEscape(Shown(f, s[f], full));
    r := out + Ascii(KeyOf(f));
    r := r + [EQUALS];
    r := r + value;
    r := r + [NEWLINE];
  }

  method AppendFields(out: text, fs: seq<Field>, s: Settings, full: bool) returns (r: text)
    requires AllFit(s) && forall f | f in fs :: FieldOk(f)
    ensures r == out + Lines(fs, s, full)
  {
    hide Line, Fits;
    r := out;
    assert out + Lines(fs[..0], s, full) == out;
    for i := 0 to |fs|
      invariant r == out + Lines(fs[..i], s, full)
    {
      assert fs[..i + 1] == fs[..i] + [fs[i]];
      LinesAppend(fs[..i], [fs[i]], s, full);
      assert Lines([fs[i]], s, full) == Line(fs[i], s[fs[i]], full) + Lines([], s, full);
      r := AppendKv(r, fs[i], s, full);
    }
    assert fs[..|fs|] == fs;
  }

  lemma {:induction false} RowsWithin(i: nat, n: nat, row: nat -> seq<Field>)
    requires i <= n
    ensures forall f | f in Rows(i, row) :: f in Rows(n, row)
    decreases n
  {
    if i < n { RowsWithin(i, n - 1, row); }
  }

  lemma NoLines(s: Settings, full: bool)
    requires AllFit(s)
    ensures Lines([], s, full) == []
  {
  }

  method AppendRows(out: text, n: nat, row: nat -> seq<Field>, s: Settings, full: bool) returns (r: text)
    requires AllFit(s) && forall f | f in Rows(n, row) :: FieldOk(f)
    ensures r == out + Lines(Rows(n, row), s, full)
  {
    hide Line, Fits, Lines;
    r := out;
    NoLines(s, full);
    assert out + [] == out;
    for i := 0 to n
      invariant forall f | f in Rows(i, row) :: FieldOk(f)
      invariant r == out + Lines(Rows(i, row), s, full)
    {
      RowsWithin(i + 1, n, row);
      assert Rows(i + 1, row) == Rows(i, row) + row(i);
      LinesAppend(Rows(i, row), row(i), s, full);
      r := AppendFields(r, row(i), s, full);
    }
  }

  /** `idf_config_export_text`. */
  method ExportText(s: Settings, full: bool) returns (out: text)
    requires AllFit(s)
    ensures out == Export(s, full)
  {
    hide Lines, AllFit, FieldOk, PlainFields, Rows;
    ExportedOk();
    var a, b, c, d := Rows(WIFI_NETWORKS, WifiFields), PlainFields(), Rows(SIM_CREDENTIALS, SimFields),
      Rows(PUSH_CHANNELS, PushFields);
    ghost var e := Rows(SCHED_TASKS, TaskFields);
    assert forall f | f in a || f in b || f in c || f in d || f in e :: f in Exported();
    LinesAppend(a + b + c + d, e, s, full);
    LinesAppend(a + b + c, d, s, full);
    LinesAppend(a + b, c, s, full);
    LinesAppend(a, b, s, full);
    out := AppendRows([], WIFI_NETWORKS, WifiFields, s, full);
    out := AppendFields(out, PlainFields(), s, full);
    out := AppendRows(out, SIM_CREDENTIALS, SimFields, s, full);
    out := AppendRows(out, PUSH_CHANNELS, PushFields, s, full);
    out := AppendRows(out, SCHED_TASKS, TaskFields, s, full);
    assert [] + Lines(a, s, full) == Lines(a, s, full);
  }

  // ----- importing -----

  method Find(s: text, b: byte, from: nat) returns (at: nat)
    requires from <= |s|
    ensures at == from + FirstOf(s[from..], b)
  {
    at := from;
    while at < |s| && s[at] != b
      invariant from <= at <= |s| && from + FirstOf(s[from..], b) == at + FirstOf(s[at..], b)
    {
      assert s[at..][1..] == s[at + 1..];
      at := at + 1;
    }
  }

  method TrimKey(s: text) returns (key: text)
    ensures key == Trimmed(s)
  {
    key := s;
    while key != [] && KeySpace(key[0])
      invariant TrimmedStart(key) == TrimmedStart(s)
      decreases |key|
    {
      key := key[1..];
    }
    ghost var t := key;
    while key != [] && KeySpace(key[|key| - 1])
      invariant TrimmedEnd(key) == TrimmedEnd(t)
      decreases |key|
    {
      key := key[..|key| - 1];
    }
  }

  method ApplyImportKey(s: Settings, key: string, value: text) returns (next: Settings)
    requires Complete(s)
    ensures next == Applied(s, key, value)
  {
    hide FieldOfKey, ParseInt, ParseWord, Blank, IsRedacted, TextIsYes, Ascii;
    var f := FieldOfKey(key);
    if f.None? { return s; }
    if KindOf(f.value) == Word {
      var word := ParseU32Strict(value);
      return if word.Some? then s[f.value := N(word.value)] else s[f.value := s[f.value]];
    }
    next := s[f.value := Accepted(f.value, value, s[f.value])];
  }

  method ImportOne(s: Settings, text: text) returns (next: Settings, counted: nat)
    requires Complete(s)
    ensures Complete(next) && Imported(next, counted) == ImportLine(s, text)
  {
    hide Complete, Applied, Unescaped, Trimmed, Chars, FirstOf;
    next, counted := s, 0;
    var line := text;
    if line != [] && line[|line| - 1] == RETURN { line := line[..|line| - 1]; }
    var eq := Find(line, EQUALS, 0);
    assert line[0..] == line;
    NothingTrimmed(line[..0]);
    if eq < |line| && eq > 0 {
      var value := CfgUnescape(line[eq + 1..]);
      var key := TrimKey(line[..eq]);
      if key != [] {
        next := ApplyImportKey(s, Chars(key), value);
        counted := 1;
      }
    }
  }

  /** The loop of `idf_config_import_text`. */
  method ImportLines(s: Settings, text: text) returns (next: Settings, applied: nat)
    requires Complete(s)
    ensures Complete(next) && Imported(next, applied) == Import(s, text)
  {
    hide Complete, ImportLine, Import, FirstOf;
    next, applied := s, 0;
    var pos := 0;
    assert text[0..] == text;
    ghost var all := Import(s, text);
    while true
      invariant 0 <= pos <= |text| && Complete(next)
      invariant all == Counting(applied, Import(next, text[pos..]))
      decreases |text| - pos
    {
      ghost var rest := text[pos..];
      var end := Find(text, NEWLINE, pos);
      assert text[pos..end] == rest[..end - pos];
      if end < |text| {
        ImportIs(next, rest);
      } else {
        ImportLast(next, rest);
        assert rest[..end - pos] == rest;
      }
      var counted;
      next, counted := ImportOne(next, text[pos..end]);
      applied := applied + counted;
      if end == |text| {
        assert all.settings == next && all.applied == applied;
        return;
      }
      assert rest[end - pos + 1..] == text[end + 1..];
      pos := end + 1;
    }
  }

  lemma ImportLast(s: Settings, text: text)
    requires Complete(s) && FirstOf(text, NEWLINE) == |text|
    ensures Import(s, text) == ImportLine(s, text)
  {
    hide ImportLine, FirstOf, Complete, FieldOk;
    assert text[..|text|] == text;
  }

  lemma NothingTrimmed(s: text)
    requires s == []
    ensures Trimmed(s) == []
  {
  }

  // ----- the update -----

  /** A configuration as far as an import can touch it: the settings, and what some of them mirror. */
  datatype Device = Device(settings: Settings, hostname: text, heartbeat: bool, username: text, password: text)

  const MDNS: Field := ClockField(MdnsHost)
  const BEAT: Field := ClockField(HbEnabled)
  const USER: Field := MailField(WebUser)
  const PASS: Field := MailField(WebPass)

  /** A mirror that the update has changed is taken over, unless what it mirrors has been changed as well. */
  function Promoted(next: Device, base: Device): Device
    requires AllFit(next.settings) && AllFit(base.settings)
  {
    var n, b := next.settings, base.settings;
    next.(
      hostname := if next.hostname == base.hostname && n[MDNS] != b[MDNS] then n[MDNS].text else next.hostname,
      heartbeat := if next.heartbeat == base.heartbeat && n[BEAT] != b[BEAT] then n[BEAT].yes else next.heartbeat,
      username := if next.username == base.username && n[USER] != b[USER] then n[USER].text else next.username,
      password := if next.password == base.password && n[PASS] != b[PASS] then n[PASS].text else next.password)
  }

  /** The value that a mirror has to follow. */
  function Followed(d: Device, f: Field): Value
    requires AllFit(d.settings) && FieldOk(f)
  {
    if f == MDNS then T(d.hostname) else if f == BEAT then B(d.heartbeat) else if f == USER then T(d.username)
    else if f == PASS then T(d.password) else d.settings[f]
  }

  /** After a save every mirror shows what it mirrors. */
  function Synced(d: Device): Device
    requires AllFit(d.settings)
  {
    d.(settings := d.settings[MDNS := T(d.hostname)][BEAT := B(d.heartbeat)][USER := T(d.username)][PASS :=
      T(d.password)])
  }

  /** A value that an import accepts has the type of its setting again. */
  lemma AcceptedFits(f: Field, value: text, now: Value)
    requires Fits(f, now)
    ensures Fits(f, Accepted(f, value, now))
  {
    hide ParseInt, ParseWord, Blank, IsRedacted, TextIsYes;
  }

  lemma {:induction false} ImportFits(s: Settings, text: text)
    requires AllFit(s)
    ensures AllFit(Import(s, text).settings)
    decreases |text|
  {
    hide Fits, Accepted, Trimmed, Unescaped, FieldOfKey, FieldOk;
    var n := FirstOf(text, NEWLINE);
    LineFits(s, text[..n]);
    if n == |text| {
      ImportLast(s, text);
    } else {
      ImportIs(s, text);
      ImportFits(ImportLine(s, text[..n]).settings, text[n + 1..]);
    }
  }

  lemma LineFits(s: Settings, line: text)
    requires AllFit(s)
    ensures AllFit(ImportLine(s, line).settings)
  {
    hide Fits, Accepted, Trimmed, Unescaped, FieldOfKey, FieldOk, FirstOf;
    forall f, value | FieldOk(f) ensures Fits(f, Accepted(f, value, s[f])) { AcceptedFits(f, value, s[f]); }
  }

  /** What an import that is saved makes of a device. */
  ghost function AfterImport(d: Device, text: text): (r: Device)
    requires AllFit(d.settings)
  {
    ImportFits(d.settings, text);
    Synced(Promoted(d.(settings := Import(d.settings, text).settings), d))
  }

  class ConfigHolder {
    var config: Device

    constructor (config: Device)
      requires AllFit(config.settings)
      ensures this.config == config
    {
      this.config := config;
    }

    /** An empty text is refused; if the save fails nothing changes. */
    method ImportText(text: text, saved: bool) returns (ok: bool, applied: nat)
      requires AllFit(config.settings)
      modifies this
      ensures ok <==> text != [] && saved
      ensures ok ==> config == AfterImport(old(config), text) && applied == Import(old(config).settings, text).applied
      ensures !ok ==> config == old(config)
    {
      hide Complete, Fits, Import;
      applied := 0;
      if text == [] { return false, 0; }
      var next, count := ImportLines(config.settings, text);
      ImportFits(config.settings, text);
      if !saved { return false, 0; }
      config := Synced(Promoted(config.(settings := next), config));
      return true, count;
    }
  }

  /**
   * Importing the own export, whole or redacted, and saving it: a setting is as it was exactly if it is not
   * an empty address or channel name, and did mirror what it has to. What is mirrored stays in any case.
   */
  lemma OwnExportSaved(d: Device, full: bool)
    requires AllFit(d.settings)
    ensures var r := AfterImport(d, Export(d.settings, full));
            && r.hostname == d.hostname && r.heartbeat == d.heartbeat && r.username == d.username
            && r.password == d.password
            && forall f | FieldOk(f) :: f in r.settings &&
                 (r.settings[f] == d.settings[f] <==>
                   !EmptyDefaulted(f, d.settings[f]) && Followed(d, f) == d.settings[f])
  {
    hide Import, Export, EmptyDefaulted;
    OwnExport(d.settings, full);
    MirrorsAreNotDefaulted(d.settings);
  }

  lemma MirrorsAreNotDefaulted(s: Settings)
    requires AllFit(s)
    ensures !EmptyDefaulted(MDNS, s[MDNS]) && !EmptyDefaulted(BEAT, s[BEAT]) && !EmptyDefaulted(USER, s[USER])
    ensures !EmptyDefaulted(PASS, s[PASS])
  {
  }

  predicate IsMirror(f: Field) { f in {MDNS, BEAT, USER, PASS} }

  /**
   * Setting one mirror by a line of text: what it mirrors becomes what the mirror has been changed to. Setting it to
   * what it was already changes nothing, even where it was out of step. Every mirror is in step afterwards, and nothing
   * else is touched.
   */
  lemma MirrorSet(d: Device, f: Field, value: text)
    requires AllFit(d.settings) && IsMirror(f)
    ensures var r := AfterImport(d, Ascii(KeyOf(f)) + [EQUALS] + Escaped(value));
            var v := Accepted(f, value, d.settings[f]);
            && AllFit(r.settings)
            && Followed(r, f) == (if v != d.settings[f] then v else Followed(d, f))
            && (forall g | IsMirror(g) ::
              r.settings[g] == Followed(r, g) && (g != f ==> Followed(r, g) == Followed(d, g)))
            && (forall g | FieldOk(g) && !IsMirror(g) :: r.settings[g] == d.settings[g])
  {
    hide Import, Accepted, Fits, Escaped, Ascii;
    OneLineImported(d.settings, f, value);
    AcceptedFits(f, value, d.settings[f]);
    MirrorTypes(d.settings);
    MirrorTypes(d.settings[f := Accepted(f, value, d.settings[f])]);
  }

  lemma MirrorTypes(s: Settings)
    requires AllFit(s)
    ensures s[MDNS].T? && s[BEAT].B? && s[USER].T? && s[PASS].T?
    ensures forall x: text, y: bool :: Fits(MDNS, T(x)) && Fits(BEAT, B(y)) && Fits(USER, T(x)) && Fits(PASS, T(x))
  {
  }

  lemma OneLineImported(s: Settings, f: Field, value: text)
    requires Complete(s) && FieldOk(f)
    ensures Import(s, Ascii(KeyOf(f)) + [EQUALS] + Escaped(value)).settings == s[f := Accepted(f, value, s[f])]
  {
    hide Accepted, KeyOf, FieldOfKey, Escaped, Ascii, ImportLine, FirstOf;
    KeysTell(f);
    KeyIsClean(f);
    LineImported(s, KeyOf(f), value);
    var line := Ascii(KeyOf(f)) + [EQUALS] + Escaped(value);
    NoBreak(line);
    assert line[..|line|] == line;
  }

  lemma NoBreak(line: text)
    requires NEWLINE !in line
    ensures FirstOf(line, NEWLINE) == |line|
  {
  }
}
