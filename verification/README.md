# EMV card reader core, modelled in Dafny

This project models the decoding and encoding core of an EMV contactless card reader (the
`ApplicationHelper` and `CCInfo` classes). Each step the reader takes over a card's replies
is a pure function over byte sequences:

- **framing**: the reply is accepted only when it ends in the ISO/IEC 7816-4 status word 90 00,
  and the reader's leading status byte is dropped (`Framing`);
- **directory scan**: `getAll` walks the PPSE reply for application templates (tag 61) with an
  identifier (4F), a priority indicator (87) and a label (50) (`Directory`). A corrected scan,
  bounded by each template's length byte, sits next to the scan as written;
- **application selection**: the first entry with the requested priority, and its SELECT
  command (`Selection`);
- **the card profile** that the decoders fill in (`CardProfile`);
- **SELECT-reply decoding**: the language preference (5F2D), the PDOL (9F38) and the log-entry
  descriptor (9F4D) inside the BF0C template (`AppResponse`);
- **base-record decoding**: track-2 data (57), cardholder name (5F20) and track-1
  discretionary data (9F1F) (`BaseRecords`);
- **READ RECORD**: the P1/P2 packing, the log-record loop and the base-record loops
  (`ReadRecord`);
- **GET PROCESSING OPTIONS**: PDOL parsing and command assembly (`Pdol`);
- **track-2 expiry extraction** (`Track2`);
- **the transaction-log renderer** (`Paylog`), which prints tokens instead of text.

Every read the C++ code makes past the valid bytes of a buffer becomes an explicit
`Failure(...)` of a `Result`. The card and the reader are parameters:
- a framed reply for the decoders;
- a function from command bytes to reply for the read loops.

The `*_proofs.dfy` modules hold the round trips and the relational lemmas. The example lemmas
pin down concrete byte strings.

Where the code and its comments part ways, the model follows the code. The comments at
ccinfo.cc:290-292 place the fifth amount byte after the decimal point, but the loop prints
"." after the fifth byte, so `00 00 00 15 50 00` renders as `1550.00`. The expiry reads
byte 10 of the track-2 data, so parsing needs 11 bytes; the source checks no length at all.

## Model

| member | source | states |
|---|---|---|
| Framing.CheckTrailer | applicationhelper.cc:43-51 | the trailer check passes exactly when the reply has at least two bytes and its last two are 90 00 |
| Framing.ExecuteCommand | applicationhelper.cc:153-162 | a non-empty result exactly when the size is non-negative and the trailer passes; then it is the reply minus its first byte, of size szRx - 1, and, when szRx is at least 3, still ends in 90 00 |
| Framing.FramingRoundTrip | applicationhelper.cc:153-162 | status byte + payload + 90 00, whatever stale bytes follow in the buffer, frames to exactly payload + 90 00 |
| Framing.WrongStatusRefused | applicationhelper.cc:43-51 | a reply of any length ending in anything other than 90 00 frames to the empty (failed) result |
| Directory.TemplateStep | applicationhelper.cc:72-94 | one pass of the inner loop always moves the cursor forward and stays inside the reply |
| Directory.TemplateWalk | applicationhelper.cc:70-96 | the inner walk stops exactly at the end of the reply or at a 61 byte |
| Directory.DirectoryScan | applicationhelper.cc:66-100 | the as-written scan yields no more entries than there are 61 bytes in the reply |
| Directory.GetAll | applicationhelper.cc:53-103 | a failed PPSE exchange gives the empty list; otherwise the raw reply's entries number at most its 61 bytes |
| Directory.DirectoryScanFixed | applicationhelper.cc:66-100 | the corrected scan also yields at most one entry per 61 byte |
| Directory.GetAllFixed | applicationhelper.cc:53-103 | the corrected `getAll` gives the empty list on a failed exchange, and otherwise at most one entry per 61 byte of the raw reply |
| DirectoryProofs.TemplateFieldsDecode | applicationhelper.cc:72-94 | the bounded field walk (`Directory.TemplateFields`) recovers identifier, label and priority of an encoded template |
| DirectoryProofs.TemplateStepFixed | applicationhelper.cc:66-99 | one encoded template decodes to its entry, and the scan resumes right after the template |
| DirectoryProofs.SkipPlain | applicationhelper.cc:66-67 | bytes other than 61 are stepped over without producing an entry |
| DirectoryProofs.ScanEncoded | applicationhelper.cc:66-100 | a run of encoded templates followed by bytes without 61 decodes to exactly those entries, in order |
| DirectoryProofs.DirectoryRoundTrip | applicationhelper.cc:53-103 | round trip of the corrected scan: prefix without 61, encoded templates, suffix without 61 decode to exactly the encoded entries |
| DirectoryProofs.GetAllRoundTrip | applicationhelper.cc:53-103 | end to end: a raw PPSE reply of status byte, complete templates and 90 00 yields exactly the encoded entries, whatever stale bytes follow it in the receive buffer |
| DirectoryProofs.InvalidAidRejected | applicationhelper.cc:72-80 | a step of the as-written walk fails with `InvalidAid` exactly when it meets 4F with a length byte other than 7, carrying that length |
| DirectoryProofs.AidOverrunRejected | applicationhelper.cc:72-80 | an identifier tag on the last byte, or a 7-byte identifier that does not fit in the reply, is `Truncated` |
| DirectoryProofs.LabelOverrunRejected | applicationhelper.cc:86-93 | a label whose length byte is missing or whose value runs past the reply is `Truncated` |
| DirectoryProofs.FieldRejected | applicationhelper.cc:72-94 | the corrected field walk rejects a field whose length runs past the template with `Truncated`, and an identifier of any length other than 7 with `InvalidAid` of that length |
| DirectoryProofs.TemplateOverrunRejected | applicationhelper.cc:66-70 | the corrected scan rejects a 61 template whose length byte is missing or runs past the reply with `Truncated` |
| DirectoryProofs.TemplateWalkAsWritten | applicationhelper.cc:70-96 | the as-written inner walk over one encoded template whose bytes avoid its quirks (`QuirkFree`) collects identifier, label and priority and stops at the template's end |
| DirectoryProofs.ReplyAsWritten | applicationhelper.cc:66-100 | the as-written scan decodes status byte, encoded quirk-free templates and 90 00 to exactly the encoded entries, in order |
| DirectoryProofs.GetAllAgreesWhenQuirkFree | applicationhelper.cc:53-103 | on quirk-free templates the as-written `getAll` and the corrected one agree, both giving exactly the encoded entries whatever stale bytes follow the reply |
| DirectoryExamples.UpperCaseLabelDecodes | applicationhelper.cc:66-99 | the as-written scan decodes a template labelled "VISA" into one complete entry |
| DirectoryExamples.PhantomApplication | applicationhelper.cc:70-93 | as written, a label ending in byte 61 ("Visa") ends the walk early: the real entry loses its priority and a second, phantom entry carries it |
| DirectoryExamples.PhantomApplicationFixed | applicationhelper.cc:66-99 | the corrected scan decodes the same "Visa" reply into the single intended entry |
| Selection.ChooseByPriority | applicationhelper.cc:107-115 | success exactly when some entry has the priority; the result is the first such entry in list order; otherwise `NoApplication` |
| Selection.SelectCommand | applicationhelper.cc:118-135 | the command is header + 9 bytes long, starts with the header and ends in the zero Le |
| Selection.SelectCommandRoundTrip | applicationhelper.cc:126-132 | reading Lc and that many bytes after the header gives back the seven identifier bytes |
| Selection.SelectByPriority | applicationhelper.cc:105-139 | fails with `NoApplication` exactly when no entry has the priority, with `MissingAid` exactly when the first matching entry has no identifier, and succeeds otherwise; on success the command is exactly the SELECT command for the identifier of the first matching entry, and reading it back gives that identifier |
| AppResponse.LogEntryScan | ccinfo.cc:70-77 | the nested template walk changes nothing but the log SFI and count |
| AppResponse.AppScan | ccinfo.cc:49-80 | the SELECT-reply scan changes nothing but the language preference, PDOL and log descriptor |
| AppResponse.ExtractAppResponse | ccinfo.cc:42-81 | records the selected application and otherwise changes only language, PDOL and log descriptor |
| AppResponseProofs.ValueOverrunRejected | ccinfo.cc:50-64 | a 5F2D or 9F38 field whose length byte is missing or runs past the reply is `Truncated` |
| AppResponseProofs.LanguageStep | ccinfo.cc:50-56 | on 5F2D the language preference receives exactly the value bytes and the scan resumes right after them |
| AppResponseProofs.PdolStep | ccinfo.cc:57-64 | on 9F38 the PDOL is stored raw with the length byte's size, and the scan resumes right after it |
| AppResponseProofs.WalkSkips | ccinfo.cc:70-77 | the nested walk steps over template bytes holding no 9F 4D pair without changing the descriptor |
| AppResponseProofs.DescriptorFound | ccinfo.cc:70-77 | a 9F 4D descriptor between such bytes inside the template sets SFI and count to its two value bytes |
| AppResponseProofs.LogTemplateStep | ccinfo.cc:65-79 | on a BF0C template holding any bytes without a 9F 4D pair around one descriptor, SFI and count are the descriptor's two value bytes and the scan resumes right after the template |
| AppResponseProofs.FciRoundTrip | ccinfo.cc:42-81 | round trip: language, PDOL and a log descriptor surrounded by other template bytes, encoded in a reply, are recovered exactly, whatever their bytes |
| AppResponseProofs.DescriptorOutsideTemplateIgnored | ccinfo.cc:70-77 | the nested walk is bounded by the template length: with no 9F 4D starting inside the template the descriptor is unchanged |
| AppResponseProofs.EmptyTemplateHidesDescriptor | ccinfo.cc:65-79 | a descriptor placed just after an empty BF0C template is not seen |
| BaseRecords.RecordScan | ccinfo.cc:143-166 | only name and track fields change, and track data already held is never replaced |
| BaseRecords.ExtractBaseRecord | ccinfo.cc:140-166 | one reply changes only name and track fields, and re-applying it to held track data leaves that data unchanged |
| BaseRecordsProofs.Track2Step | ccinfo.cc:144-149 | on 57 with no track 2 held, exactly the value bytes are stored and the scan resumes after them |
| BaseRecordsProofs.NameStep | ccinfo.cc:150-157 | on 5F20 the name is overlaid only when the length exceeds 2, and the scan resumes after the value either way |
| BaseRecordsProofs.Track1Step | ccinfo.cc:158-165 | on 9F1F with no track 1 held, exactly the value bytes are stored and the scan resumes after them |
| BaseRecordsProofs.BaseRecordRoundTrip | ccinfo.cc:143-166 | round trip: track 2, name and track 1 encoded in one reply are recovered exactly; a name of 2 bytes or fewer is not stored |
| BaseRecordsProofs.ValueOverrunRejected | ccinfo.cc:143-166 | a 57 or 9F1F field (while that track is not held) or a name longer than 2 whose length byte is missing or runs past the reply is `Truncated`; a name of 2 bytes or fewer running past the end ends the scan without change |
| BaseRecordsProofs.SecondTrack2Ignored | ccinfo.cc:144 | first occurrence wins: a second 57 field in the same reply does not replace the first |
| BaseRecordsProofs.LaterNameOverwrites | ccinfo.cc:150-157 | unlike the track fields, a later qualifying name overwrites the earlier one |
| ReadRecord.RecordP2 | ccinfo.cc:97-99 | P2 = (sfi mod 32) * 8 + 4; for a valid SFI, P2 / 8 is the SFI and P2 mod 8 is 4 |
| ReadRecord.ReadRecordCommand | ccinfo.cc:125-131 | P1 is the record number (truncated to a byte), P2 the packed SFI; every other template byte is kept |
| ReadRecord.ReadLogRecords | ccinfo.cc:101-111 | a complete read stores, for every k below the log count, the non-empty reply to record k + 1 and leaves later entries untouched; an aborted one stops at some k: non-empty replies before k, the empty reply at k, later entries untouched, and length max(old length, k + 1) |
| ReadRecord.StepOver | ccinfo.cc:101-111 | one stored non-empty reply extends what the rest of the loop guarantees (complete or aborted) back to the current record |
| ReadRecord.ExtractLogEntries | ccinfo.cc:83-114 | the log format is the GET DATA reply; an empty one aborts with nothing else changed; a complete read holds the reply of record k + 1 at index k; an aborted read stops at the first empty reply; nothing but the log format and the entries changes |
| ReadRecord.ReadBaseRecordsOfSfi | ccinfo.cc:129-166 | over the records of one SFI only name and track fields change, and held track data is kept |
| ReadRecord.ReadBaseRecords | ccinfo.cc:116-170 | over all SFIs and records only name and track fields change, and held track data is kept |
| ReadRecord.CommandsDistinct | ccinfo.cc:124-131 | for SFIs below 32 and records below 256, different (SFI, record) pairs give different READ RECORD commands |
| ReadRecord.SilentSfi | ccinfo.cc:129-138 | records whose READ RECORD gets an empty reply are skipped: if every record of the SFI does, the profile is unchanged |
| ReadRecord.OneRecordOfSfi | ccinfo.cc:129-166 | when only one record of the SFI is answered, the record loop decodes exactly that reply into the profile |
| ReadRecord.SilentCard | ccinfo.cc:124-138 | a card that answers no READ RECORD of the SFI and record ranges leaves the profile unchanged |
| ReadRecord.OneRecordRead | ccinfo.cc:124-166 | when the card answers only record r of SFI s, both loops together send that command and decode exactly its reply |
| Pdol.ParseDol | ccinfo.cc:362-376 | every parsed tag is well formed: one byte outside {5F, 9F, BF}, or two bytes led by one of them |
| Pdol.ParseEncodedDol | ccinfo.cc:362-376 | parsing the bytes of any well-formed list gives the list back |
| Pdol.ParsedDolReencodes | ccinfo.cc:362-376 | a successful parse consumed the bytes exactly: re-encoding its result gives them back |
| Pdol.DolRoundTrip | ccinfo.cc:362-376 | parse(buf) == entries if and only if buf == encode(entries) |
| Pdol.ResolveValues | ccinfo.cc:386-390 | success exactly when every entry resolves; the values total Σlen bytes with each entry's canned bytes at its offset; a failure names an unresolvable entry |
| Pdol.BuildGpo | ccinfo.cc:378-392 | success exactly when every entry resolves; the command is header, Lc = Σlen + 2 (mod 256), 83, Σlen (mod 256), the values in PDOL order and Le 0, of size header + 4 + Σlen |
| Pdol.GpoLayout | ccinfo.cc:378-392 | where header, Lc, 83, the total, each value and Le sit in an assembled command |
| Pdol.GetProcessingOptions | ccinfo.cc:352-392 | the command is built only from a PDOL that parses and re-encodes exactly, and fails exactly when some entry does not resolve |
| Track2.Straddle | ccinfo.cc:221-224 | the byte built across the nibble boundary has hi's low nibble on top and lo's high nibble below |
| Track2.ParseTrack2 | ccinfo.cc:207-224 | success exactly with at least 11 bytes; the PAN is bytes 0..7, and year and month are the nibbles straddling bytes 8-9 and 9-10 |
| Track2.Track2RoundTrip | ccinfo.cc:207-224 | PAN, expiry year and month encoded after the D separator are recovered exactly, whatever follows |
| Track2.Track2Example | ccinfo.cc:216-226 | `D2 51 21` after the PAN gives year 0x25 and month 0x12 |
| Paylog.AmountMatchesReading | ccinfo.cc:293-304 | the amount loop (`Paylog.AmountRun`) prints the amount with leading zero bytes among the first four dropped and "." right after the fifth byte |
| Paylog.FieldAdvance | ccinfo.cc:246-345 | for the field printer `Paylog.RenderField` (with `FieldBody` and `CodeField`), per field kind, when rendering succeeds and how far the entry cursor moves: the declared length for sliced fields, 1 for the type, 2 for a known code (printing its symbol), the declared length for an unknown code (printing hex) |
| Paylog.FieldPrints | ccinfo.cc:246-345 | what a field prints between label and "; ": "Withdrawal" for a non-zero type byte and "Payment" otherwise; the date as "20" and its bytes joined by "/"; the time joined by ":"; the amount as the reader sees it; the merchant as characters; counter and cryptogram information in hex |
| Paylog.JoinedAt | ccinfo.cc:250-252 | with a one-token separator the leading tokens come first, then the bytes in hex at every other position, each after the first preceded by the separator |
| Paylog.TagAtIndex | ccinfo.cc:246-263 | a recognised tag is one or two bytes wide and lies inside the format |
| Paylog.RenderPaylog | ccinfo.cc:238-249 | one line per entry, in order, each line (`Paylog.RenderLine`) rendered from its own entry, stopping exactly at the first entry of size 0 |
| PaylogProofs.FieldTagDispatch | ccinfo.cc:246-345 | every field's tag bytes select that field in the format loop |
| PaylogProofs.DispatchStep | ccinfo.cc:245-347 | at a recognised tag the loop prints the field with the following length byte, then continues after that byte from where the field left the entry cursor |
| PaylogProofs.ColumnStep | ccinfo.cc:245-347 | a field's tag and length bytes in the format print that field and continue after them |
| PaylogProofs.TrailerPrintsNothing | ccinfo.cc:245-347 | the status word 90 00 after the last column matches no tag and prints nothing |
| PaylogProofs.ReplayFrom | ccinfo.cc:245-347 | for any field printer, the format loop (`Paylog.FormatLoop`) over an encoded schema prints the schema's columns in order, each field reading where the previous one stopped |
| PaylogProofs.SchemaReplay | ccinfo.cc:245-347 | a log-format reply of tag/length pairs followed by 90 00 renders an entry exactly as its columns in order |
| PaylogProofs.HeaderSkipped | ccinfo.cc:245-347 | the 9F 4F LL header that opens a log-format reply matches no field tag and prints nothing |
| PaylogProofs.LogFormatReplay | ccinfo.cc:245-347 | a log-format reply as the card sends it, 9F 4F LL header, tag/length pairs and 90 00, renders an entry exactly as its columns in order |
| PaylogProofs.AmountExample | ccinfo.cc:286-306 | the amount 00 00 00 15 50 00 prints 15 50 . 00 and consumes all six bytes |
| PaylogProofs.ZeroAmountExample | ccinfo.cc:286-306 | a zero amount keeps its fifth and sixth bytes: 00 . 00 |
| PaylogProofs.KnownCurrencyExample | ccinfo.cc:271-285 | with the currency table of `Tables` (ccinfo.cc:446-453), currency 09 78 prints "EUR" and consumes exactly 2 bytes although 3 are declared |
| PaylogProofs.UnknownCurrencyExample | ccinfo.cc:271-285 | an unknown currency prints its declared bytes in hex and consumes them |
| PaylogProofs.TypeConsumesOneByte | ccinfo.cc:255-261 | the transaction type consumes one byte although 2 are declared, and prints "Withdrawal" for a non-zero byte |

## Left out

- Device I/O: `pn53x_transceive`, `nfc_perror` and the global receive buffer. Framing takes the transceiver's return value and the buffer as parameters; the read loops take the card as a function from command to framed reply.
- All printing: `printAll`, `printList`, the `Tools` helpers and the DEBUG dump. The log renderer produces tokens; the `HEX` formatter (tools.hh is not part of this model) is the abstract token `Hex(b)`.
- Header constants (`Command::*` templates, the SFI and record ranges) are parameters. Buffer capacities (APDU data, `Application::name`, `_languagePreference` and the other fixed arrays) are not modelled: every buffer is an unbounded sequence, so a copy longer than the source's array (a label longer than `app.name`, a 5F2D longer than `_languagePreference`) is taken to fit instead of overflowing. The SELECT command's size is kept in a one-byte counter (applicationhelper.cc:119), which appears as the bound `|header| + 9 <= 255`.
- Reads past the valid bytes, which in the source are stale reads (past the reply's size but inside the array) or out-of-array reads, are `Failure(Truncated)` (or a more specific error) instead of reading whatever those bytes hold. The one exception is the unchecked label probe of `getAll` (applicationhelper.cc:88), which on every real reply reads the byte after the reply: a probe past the reply is taken as "not the label tag".
- An identifier length other than 7 is rejected with `InvalidAid` instead of overrunning the 7-byte array (applicationhelper.cc:76-78).
- Selection.ChooseByPriority: a default-constructed `Application` (applicationhelper.cc:68, 111) has an indeterminate priority, and a template without tag 87 keeps it; the model writes it as `None` (`Directory.Unset`), which never equals a requested priority, so such an entry is never chosen, whereas the source may match it by chance.
- Where `selectByPriority` falls back to a default-constructed `Application`, the model reports `NoApplication`; a chosen entry without an identifier reports `MissingAid`.
- A decoding failure inside the base-record loops ends the loop with that failure instead of carrying on with undefined contents.
- Directory.DirectoryScan: the contract bounds the number of entries by the 61 bytes of the reply; exact decoding by the as-written scan is proved only for templates whose bytes avoid its quirks (`DirectoryProofs.QuirkFree`), and the quirks themselves on concrete replies.
- Directory.GetAll: the same bound; agreement with the corrected `getAll` is proved for quirk-free templates only.
- BaseRecordsProofs.SecondTrack2Ignored: states only that a successful scan keeps the first track-2 value, not when the rest of the reply scans successfully.

## Findings

| source | as written | input that shows it | evidently intended | confidence | as-written member | corrected member |
|---|---|---|---|---|---|---|
| applicationhelper.cc:70-93 | the inner walk stops at any byte 61 the cursor lands on, including the last byte of a label, and the outer scan then opens a new entry there | PPSE reply `00 61 12 4F 07 A0 00 00 00 03 10 10 50 04 56 69 73 61 87 01 01 90 00` (label "Visa") | each template's fields walked as tag, length, value up to the template's length byte, giving one entry per template | not executed | DirectoryExamples.PhantomApplication | DirectoryProofs.DirectoryRoundTrip |
