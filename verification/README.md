# A verified model of the SMS gateway firmware

A Dafny model of the parts of the firmware that keep state through failures, and proofs of what they keep:

- **Profile download** (`Bpp*`, `Der`, `Base64`): the push parsers for a Bound Profile Package. A JSON response carries
  base64 text, the text carries DER, and the DER is cut into segments and blocks for the card (sections 2.5.4 and 2.5.5 of
  GSMA SGP.22). Metadata is held back until it has been checked, and the end of the package until the whole response is good.
- **TLV codec** (`Tlv`): the parser of card responses, and the builder.
- **Configuration** (`Config*`, `Flash`): two slots on flash with markers and wrapping generations, the codec of schemas 6
  and 7, backups, the first start, and power cuts between any two writes.
- **Text export and import** (`Decimals`, `Text*`, `ConfigText`).
- **Certificate cache** (`Ca*`): content-addressed certificates and the origins bound to them, under power cuts.
- **USB recovery link** (`Usb*`): the two frame parsers, the answer to every request and how the host reads it, and the two
  tasks that provision WiFi.
- **Modem session** (`Modem*`): what a session changes on an unreliable modem, and undoes.
- **Notifications** (`Notification*`): sorting and delivering what a profile
  installation left behind.

## How it is built

Each stateful component is a class (or a method with loops) in the shape of the C++ or Python code. Its specification is a
function or a predicate on values, and the invariant is kept step by step: one lemma for every step, on values, which the
method then cites. `BppReading` is the invariant of the package parser and `BppGate` that of the envelope reader; the
strings of an envelope come in character by character, everything else of it token by token (`BppSpelling`, `BppStrings`).
`BppDue` and `BppFollow` are the same for the opposite direction: what is still to come when the input is one that must be
taken.

`Flash.Store` is the key-value store on flash: it remembers every image that it has had since the last one that a commit made
durable, a write may take effect even though it reports a failure, and a power cut leaves any image that is still possible.
Commands to the modem may have been executed whatever they report; the replies, and what the modem does, come from a
fate that is a parameter, and so does what becomes of each post and each removal of a notification. Calls to the card
may fail at any time and may answer anything; what it has been handed, and what it has answered each time, is kept in
a log. The hash of certificates, the decoder of the old schemas, the parser of the profile metadata and of
notifications are function parameters.

A result of the form "never refused" names a ghost constant `target`, which is any package or any document at all: the reader
cannot see it, so what is proved for it is proved for all. A card is at fault when a call to it fails, or when it does anything but
answer exactly one block, the last one of the last segment, with data.

## Findings

Properties that one would expect, that the code does not have, and when exactly it does:

- **A save can succeed and then not be loadable.** The check before a save bounds neither the keep-alive target nor its
  address nor its profile (`components/idf_config/idf_config_storage.cpp:366-372`); the decoder bounds all three (`:1006-1008`),
  and the check after writing looks at the header and the checksum only (`:1646`). A target of 65 bytes is enough
  (`ConfigImages.TooLongIsSaved`). After a save that reports success the new configuration is loaded if and only if the three
  texts are bounded and hold no NUL (`ConfigRuns.SaveThenStart`), and the same condition decides whether a backup can be
  restored (`ConfigPortable.ExportThenRestore`). The device keeps the old configuration otherwise.
- **A socket left over from before can stay open without `cleanup_failed`.** If closing it fails in the first stage, nothing
  has been noted yet that the cleanup would undo (`components/idf_modem/idf_modem_https.cpp:578-580`, `:766-826`). A session
  that does not report a failed cleanup ends with the socket closed on every honest modem if and only if it starts with the
  socket in its initial state (`ModemSession.Session.Run`, `ModemSession.StaleSocketStays`).
- **The text export of a device is not always taken back as it is.** An empty keep-alive address or channel name comes back as
  its default (`components/idf_config/idf_config.cpp:501-602`), and the old fields that mirror others are overwritten when the
  import is saved (`:799-814`). A device keeps all of its settings exactly if neither applies (`TextDevice.OwnExportKeepsAll`).

## Model

| member | source | states |
|---|---|---|
| BppCard.SegmentWriter.Write | components/idf_lpa/idf_lpa_bpp.cpp:115-149 | Bytes join the open segment; the card has been handed its full blocks except the last one, also when a card call fails in between. |
| BppCard.SegmentWriter.Finish | components/idf_lpa/idf_lpa_bpp.cpp:151-165 | The log grows by exactly the blocks of the segment, the last one flagged; an empty segment is refused. |
| BppCard.BlocksWellFormed | components/idf_lpa/idf_lpa_bpp.cpp:198-229 | Every segment of 1 to 30720 bytes is handed over as 1 to 256 blocks, numbered from 0: full ones, and one last one that is flagged, not empty and at most full. |
| BppCard.TranscriptPayload | components/idf_lpa/idf_lpa_bpp.cpp:198-229 | Putting the blocks of all segments together gives the segments back. |
| BppPackage.EncodeIsNested | components/idf_lpa/idf_lpa_bpp.cpp:642-864 | The segments of a package put together are the package as one nested element. |
| BppPackage.PlaintextIs | components/idf_lpa/idf_lpa_bpp.cpp:506-541 | What the metadata check is given is the fragments in order, without their MACs. |
| Der.DerHeaderReader.Consume | components/idf_lpa/idf_lpa_bpp.cpp:253-298 | Byte by byte the reader is where a scan of all the bytes so far is: in the middle of a header, at its end with that tag and length, or refused. |
| Der.HeaderStarts | components/idf_lpa/idf_lpa_bpp.cpp:253-298 | What has been taken is the start of a complete header, except where a length begins with a zero octet, which is refused only at its last octet; and what has been refused starts none. |
| Der.ScannedHeader | components/idf_lpa/idf_lpa_bpp.cpp:253-298 | A header that is accepted has one of the permitted tags and is the shortest form of its length, below 4 gibibytes. |
| Der.HeaderUnique | components/idf_lpa/idf_lpa_bpp.cpp:253-298 | Headers are a prefix code: two inputs of which one extends the other have the same first tag and length. |
| BppReplay.FragmentAt | components/idf_lpa/idf_lpa_bpp.cpp:550-559 | Cutting the held-back metadata with the TLV parser gives exactly the fragments that the stream parser saw. |
| BppStream.DerStreamParser.CheckMetadata | components/idf_lpa/idf_lpa_bpp.cpp:506-541 | Success means that the plaintext without the MACs parses, has no policy rules and carries both expected names; if that holds and the sizes do, the check succeeds. |
| BppStream.DerStreamParser.VerifyAndReplayMetadata | components/idf_lpa/idf_lpa_bpp.cpp:506-561 | Only after the check is the metadata handed out, fragment by fragment, as the segments that follow the first two; it fails only for a reason: the check, the count of segments, or the card. |
| BppStream.DerStreamParser.HandleHeader | components/idf_lpa/idf_lpa_bpp.cpp:642-864 | Handling a header keeps the counters, the open segment and the package read so far in agreement; a header of a package that must be taken is never refused. |
| BppStream.DerStreamParser.ConsumeValueByte | components/idf_lpa/idf_lpa_bpp.cpp:866-917 | The same for a byte of a value, and for the end of the value, where the last 86 keeps its segment open. |
| BppStream.DerStreamParser.Feed | components/idf_lpa/idf_lpa_bpp.cpp:345-382 | A piece of any size. After success and after failure alike the card is behind the input and the end of the package is withheld. A piece is refused only if the card is at fault, or the input so far is no start of a package that must be taken. |
| BppStream.DerStreamParser.Finish | components/idf_lpa/idf_lpa_bpp.cpp:384-411 | Success means that the whole input is the encoding of a complete package with approved metadata, that the card has been handed exactly its segments, in good blocks, and that the result is what the card has answered the last block with; no other block was answered with data. It is refused only if the card is at fault, or the input is not the package that must be taken. |
| BppStream.DerStreamParser.CardIsBehind | components/idf_lpa/idf_lpa_bpp.cpp:482-504 | At any time, whatever failed: what the card has is a start of the input. Unless approved metadata stands right behind the first two segments, it is a start of two such segments, BF36 with BF23, and A0: no byte of the metadata or of anything behind it. |
| BppStream.DerStreamParser.NotWhole | components/idf_lpa/idf_lpa_bpp.cpp:866-917 | At any time before `finish`, whatever failed: the card has not been handed the whole of any package. |
| BppDue.HeaderDue | components/idf_lpa/idf_lpa_bpp.cpp:642-864 | The next header of a complete package within the limits passes every test that it meets, and the reader is then further on in the same package. |
| BppUnique.EncodeInjective | components/idf_lpa/idf_lpa_bpp.cpp:642-864 | Two packages with the same encoding are the same: what a successful run hands out depends on the stream alone, not on how it is cut. |
| Base64.EncodeUnique | components/idf_lpa/idf_lpa_bpp.cpp:948-989 | Different bytes have different encodings. |
| Base64.TestVectors | components/idf_lpa/idf_lpa_bpp.cpp:948-989 | The encoding is that of RFC 4648. |
| BppDecoder.Base64Decoder.Feed | components/idf_lpa/idf_lpa_bpp.cpp:948-989 | A character is refused only if no canonical encoding goes on with it, the text is too long, or the parser refuses; never in the text of a package that must be taken. |
| BppDecoder.Base64Decoder.Finish | components/idf_lpa/idf_lpa_bpp.cpp:991-995 | The text is accepted if and only if it is the canonical encoding of at least one byte, and the parser has been given exactly what it encodes. |
| BppEnvelope.DecodeTransaction | components/idf_lpa/idf_lpa_bpp.cpp:1194-1214 | A transaction id is 1 to 16 bytes in hexadecimal, in either case. |
| BppGate.TransactionMeans | components/idf_lpa/idf_lpa_bpp.cpp:1194-1214 | A text stands for a transaction id if and only if it spells its bytes in hexadecimal digits of any case. |
| BppEnvelope.Envelope.AddKey | components/idf_lpa/idf_lpa_bpp.cpp:1345-1373 | A key is taken if and only if it is short enough, not one too many, not recorded already, and not one that may not follow the package; a key too many or too long is told from the other reasons. |
| BppEnvelope.Envelope.CloseContainer | components/idf_lpa/idf_lpa_bpp.cpp:1606-1638 | The status object and the header end only if they have said what they must. |
| BppEnvelope.Envelope.TakePackage | components/idf_lpa/idf_lpa_bpp.cpp:1424-1436 | The end of the package text: it is taken only if it is the canonical encoding of all that the parser below has been given. |
| BppEnvelope.Envelope.AppendChar | components/idf_lpa/idf_lpa_bpp.cpp:1438-1501 | A character of a string that is kept must be plain and fit the buffer; one of the package is decoded and handed on at once, and the end of the package stays withheld whatever happens. |
| BppEnvelope.Envelope.Feed | components/idf_lpa/idf_lpa_bpp.cpp:1054-1072 | A piece of the response, cut anywhere, also inside a string. It is refused only if the card is at fault, or the response so far is no start of an envelope that must be taken. |
| BppEnvelope.Envelope.Finish | components/idf_lpa/idf_lpa_bpp.cpp:1074-1089 | Anything more reaches the card only if the document is a good envelope; success means that the card has exactly the segments of the package in it, and that the result is its answer to the last block, the only one that it gave. An envelope that must be taken succeeds unless the card is at fault. |
| BppEnvelope.Envelope.WholeMeansAccepted | components/idf_lpa/idf_lpa_bpp.cpp:1074-1089 | At any time, whatever failed: a card that has been handed the whole of a package has it from a good envelope, read to its end. |
| BppEnvelope.Envelope.OnlyApproved | components/idf_lpa/idf_lpa_bpp.cpp:506-541 | At any time, whatever failed: the card has a start of what has been decoded, and nothing of the metadata unless it has been approved. |
| BppFollow.TokenTaken | components/idf_lpa/idf_lpa_bpp.cpp:1541-1695 | The next token of a good envelope within the limits passes every test that it meets, in every member order. |
| BppSpelling.SpelledStarts | components/idf_lpa/idf_lpa_bpp.cpp:1438-1501 | A start of a document, cut anywhere, is some of its tokens and a start of what follows them: a string is read in only one way. |
| Tlv.ParseIsExact | components/idf_esim/idf_esim_codec.cpp:39-112 | The parser reads a tree if and only if the input starts with the bytes of that tree, correctly framed: exactly tag, length and value, and children that tile the value. |
| Tlv.BuildThenParse | components/idf_esim/idf_esim_codec.cpp:354-363 | Parsing a tree built with `append_tlv` gives the tree back, at every size and depth that the parser takes. |
| Tlv.AppendTlv | components/idf_esim/idf_esim_codec.cpp:354-363 | What is appended is tag, shortest length and value; nothing for an empty tag. |
| Tlv.ParseTlv | components/idf_esim/idf_esim_codec.cpp:319-333 | A response is accepted if and only if it is tiled by one node of at most the allowed depth, in which the children of every constructed node tile its value; and that node, the only one, is the result. |
| Tlv.ParseTlvList | components/idf_esim/idf_esim_codec.cpp:335-352 | The same for a list of nodes that tile the response. |
| Tlv.BuiltIsParsed | components/idf_esim/idf_esim_codec.cpp:39-112 | Bytes that `append_tlv` builds of nodes, from the inside out, are tiled by those nodes and no others: parsing gives them back. |
| Tlv.CompleteTagMeans | components/idf_esim/idf_esim_codec.cpp:39-112 | A tag is one byte, or goes on up to the first byte below 0x80. |
| Tlv.LengthFieldMeans | components/idf_esim/idf_esim_codec.cpp:39-112 | A length is one byte below 0x80, or a count of one to three bytes and those. |
| Tlv.FramedIsParsed | components/idf_esim/idf_esim_codec.cpp:254-308 | A well-formed tree is parsed back, and `parse_tlv_span` gives the boundaries that the parser uses. |
| ConfigCodec.EncodeFields | components/idf_config/idf_config_storage.cpp:1120-1233 | The writers produce the fields of the schema in order; of a backup, without what belongs to the device. |
| ConfigSchema.DecodePayload | components/idf_config/idf_config_storage.cpp:955-1063 | A payload of schema 6 or 7 is accepted if and only if some configuration is stored as it, and then that configuration is the result. |
| ConfigRoundTrip.ReadBack | components/idf_config/idf_config_storage.cpp:955-1063 | What is written of a valid configuration is read back, with everything that is not stored at its default, if and only if its keep-alive texts are bounded; and it stands for no other configuration. |
| ConfigRoundTrip.SchemaSixLoses | components/idf_config/idf_config_storage.cpp:423-429 | Schema 6 loses something exactly for the configurations for which `save` chooses schema 7. |
| ConfigRoundTrip.Rewritten | components/idf_config/idf_config_storage.cpp:955-1063 | Writing again what has been read gives the same payload bytes. |
| ConfigRoundTrip.ValidFits | components/idf_config/idf_config_storage.cpp:1120-1233 | How large a valid configuration can get: a bound that depends on its keep-alive texts only. |
| ConfigBlob.EncodeBlob | components/idf_config/idf_config_storage.cpp:1248-1272 | Encoding succeeds exactly for valid configurations that fit, and schema 6 only if it loses nothing. |
| ConfigBlob.EncodedDecodes | components/idf_config/idf_config_storage.cpp:1065-1111 | An encoded blob always passes the check after writing, and decodes to the configuration if and only if its keep-alive texts are bounded; otherwise to nothing. |
| ConfigBlob.DecodedEncodes | components/idf_config/idf_config_storage.cpp:1065-1093 | A decoded blob of schema 6 or 7 is encoded again to the same payload. |
| ConfigChecksum.WrongByteIsInvalid | components/idf_config/idf_config_storage.cpp:1065-1093 | A blob with one wrong byte is refused, wherever that is, but for the schema and the generation, which its checksum does not cover. |
| ConfigUtf8.Utf8Means | components/idf_config/idf_config_storage.cpp:222-262 | The check of texts accepts exactly the encodings of Unicode scalar values. |
| ConfigPortable.EncodePortable | components/idf_config/idf_config_storage.cpp:1471-1498 | A backup is written if and only if the configuration is valid as a backup and fits the buffer. |
| ConfigPortable.DecodePortable | components/idf_config/idf_config_storage.cpp:1500-1568 | A backup of any schema is read, filled up from the device, and taken if the outcome may be stored; otherwise it is refused, and a later schema is told from anything else. |
| ConfigPortable.ExportThenRestore | components/idf_config/idf_config_storage.cpp:1471-1568 | A restored backup is taken if and only if the keep-alive texts of its source are bounded. |
| ConfigBackup.RestoreKeeps | components/idf_config/idf_config_storage.cpp:1500-1569 | After it the device has, field by field, what the source has of everything that is meant for another device, and has kept everything that is its own; the cellular routes are those of the source if it has any of its own. |
| ConfigBackup.RestoredExportsAgain | components/idf_config/idf_config_storage.cpp:1500-1569 | What a restore has made is exported as the same backup again. |
| ConfigBackup.BackupTells | components/idf_config/idf_config_storage.cpp:1120-1233 | Two devices export the same backup if and only if they agree on everything that is meant for another device: it says nothing of what belongs to one. |
| ConfigBackup.RestoreOfAnySchema | components/idf_config/idf_config_storage.cpp:1500-1569 | Whatever the schema of a backup: what it has no fields for stays as it was on the device, what is the device's own stays, and everything else comes from the backup. |
| ConfigPortable.OwnBackup | components/idf_config/idf_config_storage.cpp:1471-1568 | A device that takes its own backup in is left as it was, as far as it is stored. |
| ConfigSlots.OneGenerationApart | components/idf_config/idf_config_storage.cpp:1274-1277 | Two committed slots are one generation apart, also where the count wraps around, so the newer one is never mistaken. |
| ConfigSlots.HoldsOne | components/idf_config/idf_config_storage.cpp:1381-1429 | A flash image holds at most one configuration. |
| ConfigSlots.RollbackHolds | components/idf_config/idf_config_storage.cpp:1381-1429 | While no slot is of schema 7, firmware of schema 6 selects and decodes the same as this one. |
| ConfigSlots.SelectMeans | components/idf_config/idf_config_storage.cpp:1381-1429 | A slot is active exactly if it is valid and the other one holds nothing newer, whether or not that can be read. |
| ConfigSlots.LaterSchemaRefused | components/idf_config/idf_config_storage.cpp:1381-1429 | Older firmware that finds a configuration of a later schema takes neither that nor the one before it. |
| ConfigStore.Storage.SelectSlots | components/idf_config/idf_config_storage.cpp:1381-1429 | The loops over both slots choose what the selection says about the flash image. |
| ConfigStore.Storage.Save | components/idf_config/idf_config_storage.cpp:1570-1679 | A save goes through a start of its four images and reports success only after all of them are durable; a save that is refused changes nothing. |
| ConfigImages.SaveImages | components/idf_config/idf_config_storage.cpp:1637-1668 | Every image of a save holds the old configuration until the marker is written, and the new one from then on. |
| ConfigImages.SaveFromSteady | components/idf_config/idf_config_storage.cpp:1598-1636 | With a committed configuration only an encoding that does not fit, or a first schema 7 while the running image is under test, keeps a save from starting. |
| ConfigImages.TooLongIsSaved | components/idf_config/idf_config_storage.cpp:366-372 | Any loadable configuration, given a keep-alive target of 65 to 3000 bytes, passes the check before a save and cannot be read back. |
| ConfigImages.BootImages | components/idf_config/idf_config_storage.cpp:1760-1784 | Whatever image the first start leaves behind, a later one can finish it. |
| ConfigStore.Storage.Load | components/idf_config/idf_config_storage.cpp:1681-1784 | Data that cannot be selected is never replaced; the active slot is what is loaded; an untouched or half-migrated partition is migrated. |
| ConfigRuns.Device.Save | components/idf_config/idf_config_storage.cpp:1570-1679 | After success only the new configuration is possible, given that its keep-alive texts are bounded; after a write error the old one or the new one. |
| ConfigRuns.Device.Restart | components/idf_config/idf_config_storage.cpp:1681-1759 | A start after a power cut at any write succeeds, writes nothing, and loads one of the possible configurations. |
| ConfigRuns.Run | components/idf_config/idf_config_storage.cpp:1570-1759 | Every run of saves, write errors and power cuts: every start loads what was committed last or was being saved, and after a successful save only that. |
| ConfigRuns.SaveThenStart | components/idf_config/idf_config_storage.cpp:1570-1759 | After a save that reports success the next start loads what was saved if and only if its keep-alive texts are bounded. |
| ConfigRuns.SaveThenRollBack | components/idf_config/idf_config_storage.cpp:431-441 | Firmware under test may save any number of times: firmware of schema 6 then finds the same configuration as this one, in every image that a power cut can leave. |
| ConfigRuns.Start | components/idf_config/idf_config_storage.cpp:1681-1784 | One start, from wherever earlier first starts were cut off, keeps the migration resumable, and fails only for a write error or a schema 7 under test. |
| ConfigRuns.StartAgain | components/idf_config/idf_config_storage.cpp:1712-1784 | From an empty partition, first starts that are cut off anywhere any number of times: one that is not cut off, and whose writes do not fail, ends with the migrated configuration committed. |
| Decimals.ParseU32Strict | components/idf_config/idf_config.cpp:158-173 | A text is read as an unsigned number exactly if it is decimal digits, within range. |
| Decimals.IntBack | components/idf_config/idf_config.cpp:143-156 | Every signed 32-bit number is read back from its print. |
| ConfigText.EscapedBack | components/idf_config/idf_config.cpp:106-136 | Unescaping undoes escaping, and an escaped value has no line break. |
| ConfigText.TakesBack | components/idf_config/idf_config.cpp:501-602 | A setting takes its own exported value back, whole or redacted, exactly if it is not an empty address or channel name. |
| TextFields.KeysTell | components/idf_config/idf_config.cpp:501-602 | Every setting is found again by its key: no key is dispatched to another setting, whatever prefix it starts with. |
| TextFields.AllExported | components/idf_config/idf_config.cpp:383-499 | Every setting is exported, and nothing else. |
| TextUpdate.ExportText | components/idf_config/idf_config.cpp:383-499 | The appending loops write one line for every setting, in order. |
| TextUpdate.ImportLines | components/idf_config/idf_config.cpp:604-637 | The loop over lines, and the cutting and trimming in it, import what the specification says. |
| TextImport.ExportImported | components/idf_config/idf_config.cpp:604-637 | Importing any device's export on any device: every line counts as applied, and each setting becomes what its own line says. |
| TextImport.OwnExport | components/idf_config/idf_config.cpp:383-637 | Importing the own export, full or redacted, leaves a setting as it is if and only if it is not an empty keep-alive address or channel name. |
| TextImport.FullExport | components/idf_config/idf_config.cpp:383-637 | A full export sets any other device to the same, but for texts that are blank or read as redacted. |
| TextImport.RedactedExport | components/idf_config/idf_config.cpp:217-228 | Devices that differ only in secrets that are not empty have the same redacted export, and an import of it keeps the own secrets of a device wherever the source has one. |
| TextSecrets.RedactedTells | components/idf_config/idf_config.cpp:383-499 | Two configurations have the same redacted export if and only if they agree on every exported field that is no secret, and on which secrets are set. |
| TextUpdate.OwnExportSaved | components/idf_config/idf_config.cpp:756-814 | The same after the import has been saved, with the fields that mirror others: a setting stays exactly if it also agreed with what it mirrors. |
| TextUpdate.MirrorSet | components/idf_config/idf_config.cpp:756-814 | An import that sets a mirror changes what it mirrors, exactly if the mirror itself changes; every mirror is then in step, and nothing else is touched. |
| TextDevice.OwnExportKeepsAll | components/idf_config/idf_config.cpp:756-814 | A device that imports its own export keeps every setting if and only if it has no empty address or channel name and its mirrors agree. |
| TextDevice.LoadedMirrors | components/idf_config/idf_config_storage.cpp:306-312 | A configuration that has just been loaded has its mirrors in step, except where the first account has an empty name or password. |
| CaRecords.CanonicalOriginValid | components/idf_config/idf_config_ca_store.cpp:102-154 | The scan of an origin agrees with the grammar of canonical origins. |
| CaTables.SomeSlotFree | components/idf_config/idf_config_ca_store.cpp:430-444 | Six certificates cannot all be bound by five bindings: there is always a slot. |
| CaCache.EntriesHold | components/idf_config/idf_config_ca_store.cpp:298-314 | The entries counted for a record are two, and the fewest others that hold its bytes. |
| CaCache.Cache.Lookup | components/idf_config/idf_config_ca_store.cpp:337-389 | A lookup succeeds exactly for bound origins, with the certificate that the origin resolves to; a sound cache is never reported as damaged. |
| CaCache.Cache.Stage | components/idf_config/idf_config_ca_store.cpp:453-465 | No image of writing a certificate, or of taking a failed one back, is noticed by any origin. |
| CaCache.Cache.Collect | components/idf_config/idf_config_ca_store.cpp:324-335 | Erasing what no binding needs is noticed by no origin, in no image. |
| CaCache.Cache.Install | components/idf_config/idf_config_ca_store.cpp:397-478 | At every image the cache is sound, other origins resolve as before and this one to its old or its new certificate; after success every image that a power cut can leave resolves it to the new one. If another certificate of the same digest is stored, that one stays and is what the origin is bound to. |
| CaRuns.Run | components/idf_config/idf_config_ca_store.cpp:397-478 | In every run of installations, write errors and power cuts, every image is sound and resolves an origin only to what was offered for it. |
| CaRuns.InstallThenCut | components/idf_config/idf_config_ca_store.cpp:362-478 | A certificate whose installation succeeded is what a lookup finds after a power cut right behind it. |
| UsbFrames.ScanMore | main/usb_recovery.cpp:151-239 | Scanning a stream in two parts is scanning it at once, with what was left waiting in front of what comes. |
| UsbFrames.EncodedTakes | main/usb_recovery.cpp:530-552 | A built frame is delivered as it is exactly when the receiver takes its command with a payload so long. |
| UsbFrames.NoiseIsSkipped | main/usb_recovery.cpp:175-222 | Bytes before a frame that do not contain the first byte of the magic take nothing with them. |
| UsbChecksum.WrongByteIsNotTaken | main/usb_recovery.cpp:175-222 | A frame is not taken when one of its bytes is wrong, whichever it is outside its length. |
| UsbLink.BuildFrame | main/usb_recovery.cpp:530-552 | The bytes that are put together are the frame and its checksum. |
| UsbParsers.DeviceParser.Next | main/usb_recovery.cpp:175-222 | The in-place parser delivers the next frame of the scan, or leaves what the scan leaves. |
| UsbLink.NothingDropped | main/usb_recovery.cpp:153-165 | What is left waiting and one more read always fit the bounded buffer, on both sides. |
| UsbLink.DeviceLoop | main/usb_recovery.cpp:605-620 | For any reads with any waits the device handles exactly what is received; if no wait inside an unfinished frame is too long, the frames of one scan of the whole stream. |
| UsbLink.HostLoop | tools/usb_recovery.py:1626-1640 | The same for the host, which also drops an unfinished frame after a wait that is too long. |
| UsbLink.FramesArrive | tools/usb_recovery.py:286-296 | Frames reach the other side in order and unchanged, however its reads cut them and however long it waits between them, if and only if it takes every one of them. |
| UsbLink.WholeFramesAreLively | main/usb_recovery.cpp:167-173 | Waits of any length between frames lose nothing. |
| UsbLink.RequestsArrive | main/usb_recovery.cpp:117-136 | All requests that the host builds arrive at the device, and nothing else does. |
| UsbAnswers.HandleFrame | main/usb_recovery.cpp:562-603 | The answer that is put together in a fixed buffer is the one that the request asks for: its command with the answer bit, its number, and a status with what belongs to it. |
| UsbAnswers.AnswerFits | main/usb_recovery.cpp:423-528 | Whatever the state of the device, the answer to a request fits the limits of the host for its command. |
| UsbAnswers.EveryRequestIsAnswered | main/usb_recovery.cpp:530-603 | Requests that the host may build arrive, and all the answers to them arrive at the host, in order and unchanged, however both streams are cut. |
| UsbAnswers.Transact | tools/usb_recovery.py:1617-1660 | The read loop of the host returns the first frame received that answers its request, or that there is none. |
| UsbAnswers.OwnAnswer | tools/usb_recovery.py:1617-1660 | Behind any answers to other requests the host is told what the services said to its own. |
| UsbDecoders.StateIsRead | tools/usb_recovery.py:1321-1335 | The host reads the state of the device as it is, once the device has a boot number. |
| UsbDecoders.ProvisionIsRead | tools/usb_recovery.py:1465-1473 | It reads the status of a provisioning request as that of the machine that carries it out. |
| UsbDecoders.OtaIsRead | tools/usb_recovery.py:1338-1362 | It reads the state of the update back if and only if that is a plausible one. |
| UsbDecoders.QueryIsRead | tools/usb_recovery.py:314-319 | It reads what the modem has answered, and what is told beside it where there is something to tell. |
| UsbProvision.CredentialsRead | main/usb_recovery.cpp:284-306 | A payload is read as credentials exactly when it is those credentials, written behind what comes before. |
| UsbProvision.ExecutedOnce | main/usb_recovery.cpp:308-421 | Under every interleaving a request is stored exactly while the state is pending, and every accepted request is executed once, in order. |
| UsbProvision.SavesExclude | main/usb_recovery.cpp:343-364 | The link's own saves and those of the worker never overlap. |
| UsbProvision.RetryAnswered | main/usb_recovery.cpp:366-421 | A retry of the latest request is answered with how that one stands and changes nothing else. |
| UsbProvision.RequestAnswered | main/usb_recovery.cpp:366-421 | In every run: Ok only if a request with that nonce is the latest accepted one and has not failed; Busy if and only if another one is pending; an invalid argument exactly for what cannot be read, or repeated from the latest request; and a request is accepted, as it was asked for, exactly with the Ok that wakes the worker. |
| UsbProvision.LegacyAnswered | main/usb_recovery.cpp:343-364 | In every run: Ok only behind a save and a connection with exactly these credentials, and Busy if and only if a request is pending. |
| UsbProvision.SetUpMeansDone | main/usb_recovery.cpp:308-341 | In every run a request is reported as set up only behind a save of its credentials and a connection with them. |
| UsbProvision.EveryOneIsAnswered | main/usb_recovery.cpp:562-603 | Every request is answered: each step of the task leads towards its answer and none past it. |
| UsbProvision.StatusTells | main/usb_recovery.cpp:423-449 | A status is that of the latest request, and tells how its execution ended once it has. |
| UsbProvision.PendingMoves | main/usb_recovery.cpp:308-341 | While a request is pending one of the two tasks can move towards its end, and no step leads away from it: no wake-up is lost. |
| UsbProvision.SecondLookAgrees | main/usb_recovery.cpp:395-402 | The check that is made again under the lock never finds a pending request: in every run its branch is dead. |
| ModemSession.Session.Run | components/idf_modem/idf_modem_https.cpp:578-689 | Whatever the modem does and replies: unless the cleanup is reported as failed, encoding, autofree, ssl, the profile and the activation are as before, the cleanup ran once, and the socket is closed if it was at the start; it stays open only if the first stage could not close a socket left over from before. There is at most one exchange, and it takes place over a connected socket on an active context with the requested access point, with encoding 1,1, autofree 1 and ssl 0,0. Success means such an exchange with a 2xx status, and on a modem that does what it is told, with nothing in the way, there is success. |
| ModemSession.Session.Cleanup | components/idf_modem/idf_modem_https.cpp:1117-1182 | The cleanup undoes everything that is noted, or says that it failed, and does nothing a second time. |
| ModemSession.StaleSocketStays | components/idf_modem/idf_modem_https.cpp:766-826 | From every other state of the socket there is a modem on which a run reports no failed cleanup and the socket is still there. |
| ModemSession.WillingSucceeds | components/idf_modem/idf_modem_https.cpp:578-689 | There is such a modem for every state of the socket. |
| Notifications.CompareAsciiCi | components/idf_lpa/idf_lpa_install.cpp:29-47 | The comparison orders texts by their case-folded bytes, and 0 means the same host. |
| Notifications.SortInPlace | components/idf_lpa/idf_lpa_install.cpp:295-309 | The insertion sort leaves a sorted permutation. |
| NotificationSend.MakeRequest | components/idf_lpa/idf_lpa_install.cpp:166-185 | The body of a post is the JSON object with the one field, and there is none if it would be too large. |
| NotificationJson.RequestIsDocument | components/idf_lpa/idf_lpa_install.cpp:166-185 | What is put together is the text of the JSON object with the field and its value, and nothing else. |
| NotificationSend.Notify | components/idf_lpa/idf_lpa_install.cpp:212-220 | Encoding, request, post and removal can each fail: what it adds to the log is what was reached, and it succeeds only if all four did. |
| NotificationFlush.RecoverNotifications | components/idf_lpa/idf_lpa_install.cpp:252-354 | No server is contacted unless every entry can be read and no host has a number twice; then all are tried in order, and success is reported if and only if nothing of the current host is left. |
| NotificationFlush.RemovedIsPrefix | components/idf_lpa/idf_lpa_install.cpp:318-347 | What has been removed of a host is a start of its group. |
| NotificationFlush.SequencesAscend | components/idf_lpa/idf_lpa_install.cpp:29-47 | The numbers of one host ascend, so what is removed is removed in order. |
| NotificationFlush.FirstIsTried | components/idf_lpa/idf_lpa_install.cpp:318-347 | The first entry of a host is tried whatever becomes of the other hosts. |
| NotificationFlush.RemovedAfterAcknowledged | components/idf_lpa/idf_lpa_install.cpp:212-220 | Every removal comes directly after a post to the address of the same notification, with its body, that was acknowledged; and removes it by its own number. |
| NotificationFlush.DeliveredInLog | components/idf_lpa/idf_lpa_install.cpp:212-220 | What counts as delivered stands in the log, with its acknowledged post and its removal. |
| NotificationFlush.LogIsOrderly | components/idf_lpa/idf_lpa_install.cpp:318-347 | Nothing is removed but right behind an acknowledged post, in the whole log of a run. |

## Left out

- BppEnvelope.Envelope.Feed: takes strings character by character and everything else token by token. White space, the spelling of numbers and literals, escapes (a character counts as what it stands for; the source refuses escapes in the package text), and the limits on the characters of the response and of what comes before the package text (`components/idf_lpa/idf_lpa_bpp.cpp:1054-1072`, `:1438-1539`) are not states of the model.
- BppDue.HeaderDue: a package of more than one mebibyte, or otherwise beyond the firmware's limits (`WithinLimits`), need not be taken; that such a package is always refused is not stated.
- BppStream.DerStreamParser.NotWhole: is stated for packages whose length a DER header can express, below 4 gibibytes.
- Aborting a card session, clearing of secrets from memory, log text, and the wording of messages.
- ConfigBlob.DecodeBlob: gives the payloads of schemas 1 to 5 to an abstract decoder, although the fields of schema 5 are modelled as part of schemas 6 and 7; what a restore makes of such a backup is modelled.
- Writing to a fixed buffer and to a growing one are one class with an optional capacity (`ConfigWire.Writer`), so that they agree is how it is built, not a result.
- The key-by-key migration of the oldest format and the overlay of its connectivity settings are function parameters.
- Failed allocations and failed reads of flash; writes to flash may fail anywhere.
- The merge of runtime markers into a configuration that is being updated (`components/idf_config/idf_config.cpp:742-754`) and the lock around an update.
- Translation and evaluation of forwarding rules.
- The strength of the hash, and of the checksums beyond a single wrong byte.
- The exchange over an open modem socket (TLS, HTTP) is one step with any outcome; only opening, configuring and undoing are modelled command by command.
- USB: what a modem query and the update commands do, and the transport below reads and writes. Critical sections are single steps.
- Power is cut between writes to flash; a cut in the middle of a save that runs is a write that fails followed by a power cut.
- How a notification is read and how its bytes are encoded as text are function parameters.
- Everything else in the repository: the web server, push services, scheduling, SIM handling, the OTA update.
