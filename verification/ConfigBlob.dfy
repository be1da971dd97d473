/** Stored configurations with their header, and the markers that commit them. */
module ConfigBlob {
  import opened Bytes
  import opened ConfigTypes
  import opened ConfigWire
  import opened ConfigCodec
  import opened ConfigSchema
  import opened ConfigRoundTrip

  const MAX_BLOB_SIZE := 32768
  const HEADER_BYTES := 20
  const MARKER_BYTES := 20
  const CONFIG_MAGIC := 0x3247_4643
  const MARKER_MAGIC := 0x324B_524D
  const SCHEMA_VERSION := 7

  // ----- the checksum -----

  function CrcStep(crc: bv32): bv32 { (crc >> 1) ^ (if crc & 1 == 1 then 0xEDB8_8320 else 0) }

  function CrcBits(crc: bv32, n: nat): bv32
    decreases n
  {
    if n == 0 then crc else CrcBits(CrcStep(crc), n - 1)
  }

  function CrcByte(crc: bv32, b: byte): bv32 { CrcBits(crc ^ (b as bv32), 8) }

  function CrcRun(s: seq<byte>): bv32 {
    if s == [] then 0xFFFF_FFFF else CrcByte(CrcRun(s[..|s| - 1]), s[|s| - 1])
  }

  function Inverted(crc: bv32): u32 { (!crc) as int }

  function Crc32(s: seq<byte>): u32 { Inverted(CrcRun(s)) }

  method StepByte(crc: bv32, b: byte) returns (r: bv32)
    ensures r == CrcByte(crc, b)
  {
    hide CrcStep;
    r := crc ^ (b as bv32);
    var bit := 0;
    while bit < 8
      invariant 0 <= bit <= 8 && CrcBits(r, 8 - bit) == CrcByte(crc, b)
    {
      r := CrcStep(r);
      bit := bit + 1;
    }
  }

  method ComputeCrc32(s: seq<byte>) returns (r: u32)
    ensures r == Crc32(s)
  {
    hide CrcByte, Inverted;
    var crc: bv32 := 0xFFFF_FFFF;
    var i := 0;
    while i < |s|
      invariant 0 <= i <= |s| && crc == CrcRun(s[..i])
    {
      assert s[..i + 1][..i] == s[..i];
      crc := StepByte(crc, s[i]);
      i := i + 1;
    }
    assert s[..|s|] == s;
    r := Inverted(crc);
  }

  // ----- blobs -----

  function BlobHeader(schema: u16, generation: u32, payload: seq<byte>): (r: seq<byte>)
    ensures |r| == HEADER_BYTES
  {
    Little(CONFIG_MAGIC, 4) + Little(schema, 2) + Little(0, 2) + Little(generation, 4)
    + Little(|payload|, 4) + Little(Crc32(payload), 4)
  }

  function Blob(schema: u16, generation: u32, payload: seq<byte>): seq<byte> {
    BlobHeader(schema, generation, payload) + payload
  }

  function Get16(s: seq<byte>, at: nat): u16
    requires at + 2 <= |s|
  {
    BackLittle(s[at..at + 2]);
    Powers();
    FromLittle(s[at..at + 2])
  }

  function Get32(s: seq<byte>, at: nat): u32
    requires at + 4 <= |s|
  {
    BackLittle(s[at..at + 4]);
    Powers();
    FromLittle(s[at..at + 4])
  }

  datatype Decoded = Invalid | Unsupported(generation: u32) | Valid(config: Config, schema: u16, generation: u32)

  /** Decoders of schemas 1 to 5, taken as given: each reads a configuration or refuses. */
  type Legacy = (nat, seq<byte>) -> Option<Config>

  predicate HeaderOk(blob: seq<byte>) {
    && HEADER_BYTES <= |blob| <= MAX_BLOB_SIZE && Get32(blob, 0) == CONFIG_MAGIC
    && Get32(blob, 12) == |blob| - HEADER_BYTES && Get32(blob, 16) == Crc32(blob[HEADER_BYTES..])
  }

  ghost predicate HeldAs(c: Config, schema: nat, payload: seq<byte>) { Stored(c, schema == 7, payload) }

  /** What a blob decodes to. */
  ghost function Decode(legacy: Legacy, blob: seq<byte>): Decoded {
    if !HeaderOk(blob) then Invalid else
      var schema, generation, payload := Get16(blob, 4), Get32(blob, 8), blob[HEADER_BYTES..];
      if schema > SCHEMA_VERSION then Unsupported(generation)
      else if schema == 0 then Invalid
      else if schema < 6 then
        match legacy(schema, payload)
        case None => Invalid
        case Some(c) => Valid(c, schema, generation)
      else if c: Config :| HeldAs(c, schema, payload) then Valid(c, schema, generation)
      else Invalid
  }

  lemma Back16(n: u16)
    ensures FromLittle(Little(n, 2)) == n
  {
    HalfBack(n);
  }

  lemma BlobFields(schema: u16, generation: u32, payload: seq<byte>)
    requires |payload| < 0x1_0000_0000
    ensures var b := Blob(schema, generation, payload);
            && |b| == HEADER_BYTES + |payload| && b[HEADER_BYTES..] == payload
            && Get32(b, 0) == CONFIG_MAGIC && Get16(b, 4) == schema && Get16(b, 6) == 0
            && Get32(b, 8) == generation && Get32(b, 12) == |payload| && Get32(b, 16) == Crc32(payload)
  {
    hide Little, FromLittle, Crc32;
    var b := Blob(schema, generation, payload);
    assert b[0..4] == Little(CONFIG_MAGIC, 4) && b[4..6] == Little(schema, 2) && b[6..8] == Little(0, 2);
    assert b[8..12] == Little(generation, 4) && b[12..16] == Little(|payload|, 4)
      && b[16..20] == Little(Crc32(payload), 4);
    WordBack(CONFIG_MAGIC);
    WordBack(generation);
    WordBack(|payload|);
    WordBack(Crc32(payload));
    Back16(schema);
    Back16(0);
  }

  predicate Encodable(c: Config, schema: nat) {
    && Sized(c) && SemanticallyValid(c, false) && (schema == 6 ==> !RequiresV7(c))
    && HEADER_BYTES + |WireAll(Values(c, schema == 7, true))| <= MAX_BLOB_SIZE
  }

  function Encoded(c: Config, schema: u16, generation: u32): seq<byte> {
    Blob(schema, generation, WireAll(Values(c, schema == 7, true)))
  }

  /** `encodeV6` and `encodeV7`. */
  method EncodeBlob(c: Config, schema: u16, generation: u32) returns (ok: bool, blob: seq<byte>)
    requires Sized(c) && schema in {6, 7}
    ensures ok <==> Encodable(c, schema)
    ensures ok ==> blob == Encoded(c, schema, generation)
  {
    hide SemanticallyValid, RequiresV7, Values, WireAll, Crc32, Sized, Writer.Valid, Little;
    blob := [];
    if !SemanticallyValid(c, false) || (schema == 6 && RequiresV7(c)) { return false, []; }
    var writer := new Writer(None);
    EncodeFields(c, writer, false, true, schema == 7);
    GrowingWriter(writer);
    var payload := writer.output;
    if |payload| + HEADER_BYTES > MAX_BLOB_SIZE { return false, []; }
    var crc := ComputeCrc32(payload);
    blob := Little(CONFIG_MAGIC, 4) + Little(schema, 2) + Little(0, 2) + Little(generation, 4)
            + Little(|payload|, 4) + Little(crc, 4) + payload;
    return true, blob;
  }

  lemma GrowingWriter(writer: Writer)
    requires writer.Valid() && writer.capacity.None?
    ensures writer.ok && writer.output == WireAll(writer.written)
  {
    hide WireAll;
  }

  /** A blob is decoded to what it holds, whoever wrote it. */
  method DecodeBlob(blob: seq<byte>, legacy: Legacy) returns (d: Decoded)
    ensures d == Decode(legacy, blob)
  {
    hide Stored, Crc32, FromLittle;
    if |blob| < HEADER_BYTES || |blob| > MAX_BLOB_SIZE { return Invalid; }
    if Get32(blob, 0) != CONFIG_MAGIC { return Invalid; }
    var schema, generation := Get16(blob, 4), Get32(blob, 8);
    var payload := blob[HEADER_BYTES..];
    var crc := ComputeCrc32(payload);
    if Get32(blob, 12) != |blob| - HEADER_BYTES || Get32(blob, 16) != crc { return Invalid; }
    if schema > SCHEMA_VERSION { return Unsupported(generation); }
    if schema == 0 { return Invalid; }
    if schema < 6 {
      var old_ := legacy(schema, payload);
      return if old_.Some? then Valid(old_.value, schema, generation) else Invalid;
    }
    var ok, c := DecodePayload(payload, schema == 7);
    OnlyOneHeld(schema, payload);
    if !ok {
      assert forall x: Config :: !HeldAs(x, schema, payload);
      return Invalid;
    }
    assert HeldAs(c, schema, payload);
    return Valid(c, schema, generation);
  }

  lemma OnlyOneHeld(schema: nat, payload: seq<byte>)
    ensures forall a: Config, b: Config :: HeldAs(a, schema, payload) && HeldAs(b, schema, payload) ==> a == b
  {
    hide Stored;
    forall a: Config, b: Config | HeldAs(a, schema, payload) && HeldAs(b, schema, payload) ensures a == b {
      StoredUnique(a, b, schema == 7, payload);
    }
  }

  predicate EnvelopeOk(blob: seq<byte>, schema: u16, generation: u32) {
    HeaderOk(blob) && Get16(blob, 4) == schema && Get16(blob, 6) == 0 && Get32(blob, 8) == generation
  }

  /** The check after a blob has been written back from flash: it looks at the header and the checksum only. */
  method EnvelopeValid(blob: seq<byte>, schema: u16, generation: u32) returns (ok: bool)
    ensures ok == EnvelopeOk(blob, schema, generation)
  {
    hide Crc32, FromLittle;
    if |blob| < HEADER_BYTES || |blob| > MAX_BLOB_SIZE { return false; }
    var crc := ComputeCrc32(blob[HEADER_BYTES..]);
    ok := Get32(blob, 0) == CONFIG_MAGIC && Get16(blob, 4) == schema && Get16(blob, 6) == 0
      && Get32(blob, 8) == generation && Get32(blob, 12) == |blob| - HEADER_BYTES && Get32(blob, 16) == crc;
  }

  /**
   * What the encoder has written passes the check after writing, and decodes to the same
   * configuration if and only if the keep-alive texts are bounded; otherwise to nothing.
   */
  lemma EncodedDecodes(legacy: Legacy, c: Config, schema: u16, generation: u32)
    requires schema in {6, 7} && Encodable(c, schema)
    ensures var blob := Encoded(c, schema, generation);
            && EnvelopeOk(blob, schema, generation) && c.webAccounts != []
            && Decode(legacy, blob) == if KeepaliveBounded(c) then Valid(Normal(c), schema, generation) else Invalid
  {
    hide SemanticallyValid, RequiresV7, Values, WireAll, Crc32, Stored, KeepaliveBounded, Normal, Get16, Get32, Blob;
    var payload := WireAll(Values(c, schema == 7, true));
    BlobFields(schema, generation, payload);
    ReadBack(c, schema == 7);
    OnlyOneHeld(schema, payload);
    assert forall x: Config :: HeldAs(x, schema, payload) ==> x == Normal(c);
    if KeepaliveBounded(c) { assert HeldAs(Normal(c), schema, payload); }
  }

  /** A valid configuration with bounded keep-alive texts is never too large to encode. */
  lemma BoundedIsEncodable(c: Config)
    requires Sized(c) && SemanticallyValid(c, false) && KeepaliveBounded(c)
    ensures Encodable(c, if RequiresV7(c) then 7 else 6)
  {
    hide SemanticallyValid, RequiresV7, Values, WireAll, KeepaliveBounded;
    StoredFits(c, RequiresV7(c));
  }

  /** Nor is any other valid configuration, unless its keep-alive texts alone take kilobytes. */
  lemma ValidIsEncodable(c: Config)
    requires Sized(c) && SemanticallyValid(c, false) && KeepaliveBytes(c) <= 3822
    ensures Encodable(c, if RequiresV7(c) then 7 else 6)
  {
    hide SemanticallyValid, RequiresV7, Values, WireAll, KeepaliveBytes;
    ValidFits(c, RequiresV7(c));
  }

  /** A decoded blob of schema 6 or 7 can be encoded again, to the same payload. */
  lemma DecodedEncodes(legacy: Legacy, blob: seq<byte>)
    requires Decode(legacy, blob).Valid? && Decode(legacy, blob).schema >= 6
    ensures var d := Decode(legacy, blob);
            && d.schema in {6, 7} && Encodable(d.config, d.schema) && KeepaliveBounded(d.config)
            && Encoded(d.config, d.schema, d.generation)[HEADER_BYTES..] == blob[HEADER_BYTES..]
  {
    hide SemanticallyValid, RequiresV7, Values, WireAll, Crc32, KeepaliveBounded, Normal, Get16, Get32, FitsAll, Layout;
    var d := Decode(legacy, blob);
    assert HeldAs(d.config, d.schema, blob[HEADER_BYTES..]);
    Rewritten(d.config, d.schema == 7, blob[HEADER_BYTES..]);
    BlobFields(d.schema, d.generation, blob[HEADER_BYTES..]);
  }

  // ----- markers -----

  function MarkerBody(generation: u32, length: u32, crc: u32): (r: seq<byte>)
    ensures |r| == 16
  {
    Little(MARKER_MAGIC, 4) + Little(generation, 4) + Little(length, 4) + Little(crc, 4)
  }

  /** The record that commits a blob. */
  function Marker(generation: u32, length: u32, crc: u32): (r: seq<byte>)
    ensures |r| == MARKER_BYTES
  {
    var body := MarkerBody(generation, length, crc);
    body + Little(Crc32(body), 4)
  }

  datatype Mark = Mark(generation: u32, length: u32, crc: u32)

  function ReadMarker(marker: seq<byte>): Option<Mark> {
    if |marker| != MARKER_BYTES || Get32(marker, 0) != MARKER_MAGIC
      || Get32(marker, 16) != Crc32(marker[..16]) then None
    else Some(Mark(Get32(marker, 4), Get32(marker, 8), Get32(marker, 12)))
  }

  lemma MarkerBack(generation: u32, length: u32, crc: u32)
    ensures ReadMarker(Marker(generation, length, crc)) == Some(Mark(generation, length, crc))
  {
    hide Little, FromLittle, Crc32;
    var m, body := Marker(generation, length, crc), MarkerBody(generation, length, crc);
    assert m[..16] == body && m[16..20] == Little(Crc32(body), 4);
    assert m[0..4] == Little(MARKER_MAGIC, 4) && m[4..8] == Little(generation, 4);
    assert m[8..12] == Little(length, 4) && m[12..16] == Little(crc, 4);
    WordBack(MARKER_MAGIC);
    WordBack(generation);
    WordBack(length);
    WordBack(crc);
    WordBack(Crc32(body));
  }
}
