# rawpack in Dafny

rawpack packs files into a single sequential container and unpacks them again. The `rpk`
command line tool builds on it and adds three things: optional Zstandard compression, an
optional XOR password cipher, and a small argument parser. This project models the
modellable core of that system and proves properties of the model.

The container codec (`signature.go`, `writer.go`, `reader.go`) writes and reads this layout:

- a 16-byte signature `RAW PACK FORMAT\0`;
- a file table: a little-endian u64 count, then for each record a u64 name length, the name
  bytes and a u64 size;
- the payloads, in table order.

The writer appends to an `io.Writer` and the reader consumes an `io.Reader`. A transfer that
moves fewer bytes than asked is an error.

The `rpk` pieces modelled are:

- the XOR keystream and its writer and reader wrappers (`cmd/rpk/crypto.go`);
- the `--zstd=` directive parser (`handleZstd`);
- the parameter tuner (`validateParameters`);
- the four-byte look-ahead reader and the magic-number decision of `wrapReader`, against the
  Zstandard frame magic number `28 b5 2f fd` (section 3.1.1 of RFC 8878), and `wrapWriter`;
- the glob-to-regular-expression translation;
- the two `copyBuffer` loops (`cmd/rpk/common.go` and `cmd/rpk/main.go` come from different
  revisions and are modelled separately, each as written);
- the argument state machine of `main`, in which `-f`, `-d` and `-e` queue slots that later
  positional arguments fill in order;
- the version string.

Modules, one per source file or concern:

| module | models |
|---|---|
| `Streams` | `io.Writer` and `io.Reader` as classes: a `Sink` with a room and a way to report overflow, a `Source` over a byte sequence; `io.CopyN` |
| `Signatures` | `signature.go` |
| `Encoding` | the byte layout: little-endian u64, records, table, and their decoders |
| `ArchiveWriter` | `writer.go`, each method specified by the pure `Emit` of the chunks it offers |
| `ArchiveReader` | `reader.go`, each method specified by a decoder of `Encoding` and the error it reports |
| `Container` | the whole stream in the order `pack.go` and `unpack.go` use the codec |
| `Cipher` | `cmd/rpk/crypto.go` |
| `Version`, `Decimal` | `cmd/rpk/version.go` and the `%d` it formats with |
| `Directive`, `DirectiveFacts`, `DirectiveErrors` | `handleZstd`: the cursor parser, what well-formed directives mean, and what each malformed one reports |
| `Tuning` | `validateParameters`, with the percentage conversion of `cmd/rpk/zstd.go:187` corrected (see "## Findings"); `PercentMemoryAsWritten` is that line as written |
| `ZstdStream` | `zstdReadWrapper`, `wrapReader`, `wrapWriter` |
| `Glob` | `regexFromPattern` (the same text in `cmd/rpk/common.go` and `cmd/rpk/main.go`) |
| `CopyLoop` | the read/write loop both `copyBuffer`s share, as a pure function `Copy` |
| `Common` | `cmd/rpk/common.go`: `isStdIOFile` and the size-limited `copyBuffer` |
| `CommandLine` | `cmd/rpk/main.go`: the unlimited `copyBuffer` and the argument loop as evidently intended |
| `ArgumentSlices` | the argument loop of `cmd/rpk/main.go` as written, down to Go's slice growth |

Behaviour of the code a reader may not expect, which the model follows:

- The signature's last byte is not decoded as a flag set. `IsValid` compares all 16 bytes
  with the constant, NUL included.
- Explicit thread counts are not raised to 1. `t=0` means "all CPUs", and that number is
  truncated to a byte.
- The decoding memory limit is clamped to between `1<<10` and `1<<63`.
- A file table whose count cannot be read is reported as no table and no error.
- A directive is not rejected for what follows an item without a comma. Parsing stops there
  and the rest is ignored, so `at=3` sets three threads.
- The order in which the cipher and compression are stacked is not modelled. No file of the
  repository wires the cipher into packing or unpacking.

## Model

| member | source | states |
|---|---|---|
| Signatures.CopyInto | signature.go:20 | `copy` overwrites the leading bytes with the source's and keeps the rest |
| Signatures.IsValid | signature.go:15-17 | a signature is valid when all 16 bytes equal the prefix, the final NUL included; `ValidIsUnique` and `CorruptedByteIsInvalid` state what that admits |
| Signatures.NewSignature | signature.go:19-22 | the new signature is valid |
| Signatures.PrefixIsSixteenBytes | signature.go:10 | the prefix is exactly 16 bytes, so it fills the whole signature, and it ends in NUL |
| Signatures.ValidIsUnique | signature.go:15-17 | exactly one signature value is valid |
| Signatures.CorruptedByteIsInvalid | signature.go:15-17 | changing any single byte of a valid signature, the last NUL included, makes it invalid |
| Encoding.LeBytes | writer.go:28 | the encoding of a value has exactly the given width |
| Encoding.LeValueOfBytes | writer.go:26-30 | decoding the little-endian bytes of a value that fits gives the value back |
| Encoding.LeBytesOfValue | reader.go:27-34 | encoding a decoded value gives the same bytes back, so the byte and value views are inverse |
| Encoding.Uint64Bytes | writer.go:26-30 | `writeUint64` produces exactly 8 bytes |
| Encoding.DecodeUint64 | reader.go:27-34 | a u64 decodes exactly when 8 bytes are available |
| Encoding.Uint64RoundTrip | reader.go:27-34 | reading a u64 after writing it gives the value back, whatever follows |
| Encoding.FileInfoBytes | writer.go:32-41 | a record is `16 + len(name)` bytes |
| Encoding.DecodeString | reader.go:36-49 | a decoded name consumes its 8-byte length and exactly that many bytes |
| Encoding.DecodeFileInfo | reader.go:51-63 | a decoded record consumes at least 16 bytes and no more than are available |
| Encoding.DecodeRecords | reader.go:74-80 | decoding `count` records gives exactly `count` files |
| Encoding.DecodeTable | reader.go:71-83 | a decoded table never consumes more than is available |
| Encoding.FileInfoRoundTrip | reader.go:51-63 | a record read back after writing is the same file and consumes exactly its bytes |
| Encoding.RecordBytes | writer.go:50-55 | the bytes of the records in table order, each its length, name and size; `RecordsRoundTrip` and `RecordsCanonical` prove it the inverse of `DecodeRecords` |
| Encoding.RecordsRoundTrip | reader.go:74-80 | records read back after writing are the same files, in order |
| Encoding.TableBytes | writer.go:47-58 | the bytes `WriteFileTable` writes: the count, then the records; `TableRoundTrip` and `TableCanonical` prove it the inverse of `DecodeTable` |
| Encoding.TableRoundTrip | reader.go:71-83 | reading the bytes of `WriteFileTable(ft)` gives `ft` and consumes exactly those bytes |
| Encoding.FileInfoCanonical | reader.go:51-63 | whatever record decodes re-encodes to exactly the bytes it was read from |
| Encoding.RecordsCanonical | reader.go:74-80 | decoded records re-encode to exactly the bytes consumed |
| Encoding.TableCanonical | reader.go:71-83 | a decoded table re-encodes to exactly the bytes consumed |
| Encoding.DecodeRecordsFailure | reader.go:75-78 | once `i` records cannot be read, no longer run of records can be read |
| ArchiveWriter.WriteError | writer.go:18-24 | a sink error is passed on; without one, taking fewer bytes than offered is `ErrShortWrite` |
| ArchiveWriter.Offer | writer.go:18-24 | a write that fits appends all its bytes with no error; one that does not fit takes only what there is room for |
| ArchiveWriter.Emit | writer.go:47-58 | a run of `write` calls in order, stopping after the first that fails; the `Writer` methods are proved to act as it says, and `EmitFits`, `EmitOverflow` and `EmitOvercount` state what it gives |
| ArchiveWriter.EmitAppend | writer.go:47-58 | a run of writes stops at the first error, and nothing after it is written |
| ArchiveWriter.EmitFits | writer.go:47-58 | writes that fit append exactly their bytes, one write call each, with no error |
| ArchiveWriter.OfferedStops | writer.go:50-55 | the write that fails is the first one that overflows |
| ArchiveWriter.EmitOverflow | writer.go:50-55 | on an overflowing sink that reports it, exactly the bytes that fitted are written and an error is returned |
| ArchiveWriter.EmitOvercount | writer.go:18-24 | a sink that claims more than it took is never reported, so bytes are lost silently |
| ArchiveWriter.EmitTable | writer.go:47-58 | a table that fits appends exactly its encoding with no error |
| ArchiveWriter.EmitFileInfo | writer.go:32-41 | a record that fits appends its encoding in three writes |
| ArchiveWriter.Writer.constructor | writer.go:12-16 | the writer wraps the given sink |
| ArchiveWriter.Writer.WriteBytes | writer.go:18-24 | one write of the bytes, with the error `write` reports |
| ArchiveWriter.Writer.WriteUint64 | writer.go:26-30 | one write of the 8 little-endian bytes |
| ArchiveWriter.Writer.WriteFileInfo | writer.go:32-41 | the length, the name and the size are written in order, stopping at the first error |
| ArchiveWriter.Writer.WriteSignature | writer.go:43-45 | one write of the 16 signature bytes |
| ArchiveWriter.Writer.WriteFileTable | writer.go:47-58 | the count, then each record, stopping at the first record that fails |
| Streams.CopyN | writer.go:70 | `io.CopyN` copies the lesser of `n` and what the source holds; a short copy reports the source's end error when the sink had room and the write check's error when it did not; no error exactly when all `n` bytes were copied |
| ArchiveWriter.Writer.WriteFrom | writer.go:69-75 | copies exactly `size` bytes, or reports the source's end error when the source runs out first and the error of `io.Copy`'s write check when the sink fills first; the `ErrShortWrite` branch of lines 71-72 is never taken, so `ErrShortWrite` comes only from a sink that reports a short count; a size of 2^63 or more copies nothing |
| ArchiveWriter.Writer.Write | writer.go:77-79 | the bytes go to the inner sink unchanged |
| ArchiveReader.FixedError | reader.go:19-25 | a read that finds some but not all bytes is `ErrUnexpectedEOF`; one that finds none is the source's own end error |
| ArchiveReader.RecordsErrorSkip | reader.go:75-78 | the error of a failed table read is that of the first failing record |
| ArchiveReader.RecordsErrorSame | reader.go:75-78 | the records after the first failing one do not change the error |
| ArchiveReader.RecordsErrorFirst | reader.go:75-78 | the error reported is that of the first record that fails |
| ArchiveReader.RecordsErrorAt | reader.go:75-78 | a table read fails with the error of the record that could not be read |
| ArchiveReader.RecordsReadNext | reader.go:75-79 | reading one more record continues exactly after the previous ones |
| ArchiveReader.ChunkSplit | reader.go:40-46 | a length splits into chunks of 256 bytes and one remainder |
| ArchiveReader.Reader.constructor | reader.go:13-17 | the reader wraps the given source |
| ArchiveReader.Reader.ReadBytes | reader.go:19-25 | a read that finds fewer bytes than asked with no error is `ErrUnexpectedEOF` |
| ArchiveReader.Reader.ReadUint64 | reader.go:27-34 | returns the decoded u64 and consumes 8 bytes, or reports the error of the short read |
| ArchiveReader.Reader.ReadString | reader.go:36-49 | returns a name of the declared length and consumes exactly the prefix and those bytes, or reports an error |
| ArchiveReader.Reader.ReadChunks | reader.go:40-47 | reads the name in chunks of at most 256 bytes until the declared length is reached |
| ArchiveReader.Reader.ReadFileInfo | reader.go:51-63 | fills the record only when both fields decode; on error the record is left unchanged |
| ArchiveReader.Reader.ReadSignature | reader.go:65-69 | returns the next 16 bytes as the signature, or the error of the short read |
| ArchiveReader.Reader.ReadFileTable | reader.go:71-83 | returns the decoded table; a failing record gives no table and its error; an unreadable count gives no table and no error |
| ArchiveReader.Reader.ReadRecords | reader.go:74-80 | fills the table's records in order and returns at the first that fails |
| ArchiveReader.Reader.ReadFileTo | reader.go:94-100 | copies exactly `size` bytes to the sink, or reports the source's end error when the source runs out first and the error of `io.Copy`'s write check when the sink fills first; the `ErrShortWrite` branch of lines 96-97 is never taken; a size of 2^63 or more copies nothing |
| Container.ContainerBytes | cmd/rpk/pack.go:65-89 | the whole stream: the signature, the table's bytes and the payloads in table order; `Pack` and `Unpack` prove it written and read back |
| Container.Pack | cmd/rpk/pack.go:65-89 | writing the signature, the table and each payload gives exactly the container bytes, with no error |
| Container.PackPayload | cmd/rpk/pack.go:11-19 | a payload that fits is appended unchanged |
| Container.Unpack | cmd/rpk/unpack.go:51-96 | reading the container back gives a valid signature, the same table and every payload |
| Container.ReadPayloads | cmd/rpk/unpack.go:81-96 | each payload is read in table order, exactly the size the table gives |
| Cipher.XorBits | cmd/rpk/crypto.go:20 | the exclusive or of the `n` low bits of two numbers is below `2^n` |
| Cipher.Xor | cmd/rpk/crypto.go:20 | Go's `^` on two bytes, by way of `XorBits`; `XorTwice` proves that XOR with the same byte twice gives the byte back |
| Cipher.XorTwice | cmd/rpk/crypto.go:20 | XOR with the same key byte twice gives the byte back |
| Cipher.Advance | cmd/rpk/crypto.go:21 | the key cursor always stays below 16 |
| Cipher.AdvanceAdd | cmd/rpk/crypto.go:21 | advancing by `a` and then by `b` is advancing by `a + b` |
| Cipher.Keystream | cmd/rpk/crypto.go:18-23 | the transform keeps the length |
| Cipher.KeystreamAt | cmd/rpk/crypto.go:18-23 | byte `i` is XORed with the key byte at the cursor `(index + i) % 16` |
| Cipher.KeystreamPointwise | cmd/rpk/crypto.go:18-23 | any sequence that is the keystream byte by byte is the keystream |
| Cipher.KeystreamInvolution | cmd/rpk/crypto.go:18-23 | applying the transform twice from the same cursor gives the data back, for any length |
| Cipher.KeystreamAppend | cmd/rpk/crypto.go:18-23 | applying to `a` and then to `b` gives the same bytes and cursor as applying to `a + b` |
| Cipher.ApplyChunksIsKeystream | cmd/rpk/crypto.go:38-62 | transforming a stream chunk by chunk, however it is split, is transforming it whole |
| Cipher.StreamRoundTrip | cmd/rpk/crypto.go:30-62 | what a fresh reader reads from what a fresh writer with the same key wrote is the original data, whatever the chunk sizes |
| Cipher.CryptoKey.constructor | cmd/rpk/crypto.go:8-11 | a zero key starts at cursor 0 |
| Cipher.CryptoKey.Reset | cmd/rpk/crypto.go:13-16 | the key becomes the digest of the password and the cursor 0 |
| Cipher.CryptoKey.Apply | cmd/rpk/crypto.go:18-23 | the first `n` bytes are transformed in place, the rest are unchanged, and the cursor advances by `n` modulo 16 |
| Cipher.CryptoWriter.constructor | cmd/rpk/crypto.go:30-36 | the writer wraps the sink with a key reset to the password |
| Cipher.CryptoWriter.Write | cmd/rpk/crypto.go:38-41 | the caller's buffer is transformed in place and handed to the inner writer, and the cursor advances by its length |
| Cipher.CryptoReader.constructor | cmd/rpk/crypto.go:48-54 | the reader wraps the source with a key reset to the password |
| Cipher.CryptoReader.Read | cmd/rpk/crypto.go:56-62 | only the `n` bytes actually read are transformed, and the cursor advances by exactly `n` |
| Cipher.ApplyTwice | cmd/rpk/crypto.go:13-23 | resetting with the same password and applying twice returns the original data |
| Decimal.DigitChar | cmd/rpk/version.go:14 | a digit value gives a digit rune |
| Decimal.DigitOf | cmd/rpk/version.go:14 | a digit rune gives a value below 10 |
| Decimal.Digits | cmd/rpk/version.go:14 | `%d` of a natural number is at least one digit and digits only |
| Decimal.Format | cmd/rpk/version.go:14 | `%d` of an integer is its digits, with `-` in front when it is negative |
| Decimal.ValueOfDigits | cmd/rpk/version.go:14 | the digits read back as the number they came from |
| Decimal.DigitsHaveNoLeadingZero | cmd/rpk/version.go:14 | the first digit is `0` only for zero |
| Decimal.DigitRun | cmd/rpk/zstd.go:67-69 | the leading run of digits ends at the first rune that is not a digit |
| Version.String | cmd/rpk/version.go:10-15 | an unset version is `private-dev`; otherwise the text holds the prefix, five runes of numbers and dots at least, and the suffix |
| Version.DigitsHaveNoDot | cmd/rpk/version.go:14 | a formatted number has no `.` |
| Version.FormatHasNoDot | cmd/rpk/version.go:14 | a formatted integer has no `.` |
| Version.SetVersionLayout | cmd/rpk/version.go:14 | a set version is the prefix, the three numbers separated by `.`, and the suffix |
| Version.PrivateDevIff | cmd/rpk/version.go:10-15 | the text is `private-dev` exactly when all numbers are 0 and the prefix and suffix are empty |
| Version.PrefixAndSuffix | cmd/rpk/version.go:14 | a set version's text begins with the prefix and ends with the suffix |
| Version.CountDotsAppend | cmd/rpk/version.go:14 | the dots of a concatenation are those of its parts |
| Version.NoDotCountsZero | cmd/rpk/version.go:14 | text without a dot counts none |
| Version.TwoDots | cmd/rpk/version.go:14 | with a prefix and a suffix without dots, a set version has exactly two dots |
| Version.NumbersHoldTwoDots | cmd/rpk/version.go:14 | the numbers part always holds exactly the two separators |
| Directive.Shl | cmd/rpk/zstd.go:121-125 | a shift that does not overflow multiplies by a power of two |
| Directive.Matched | cmd/rpk/zstd.go:37-46 | a chain of `consume` calls matches no more than the runes and the word allow |
| Directive.MatchedPrefix | cmd/rpk/zstd.go:37-46 | the matched runes are the word's prefix and the next rune differs |
| Directive.MatchedUnique | cmd/rpk/zstd.go:37-46 | the matched length is the longest common prefix |
| Directive.Attempt | cmd/rpk/zstd.go:77 | a matched word moves the cursor by its length; the cursor never moves back and never passes the end |
| Directive.ParseUint | cmd/rpk/zstd.go:55-65 | `strconv.ParseUint` succeeds exactly when the digits' value fits 64 bits, and gives that value |
| Directive.Number | cmd/rpk/zstd.go:47-72 | `consumeInt` takes the whole run of digits and succeeds exactly when the run is not empty and its value fits 64 bits |
| Directive.DigitRunUnique | cmd/rpk/zstd.go:67-69 | the run of digits is determined by the runes alone |
| Directive.Separator | cmd/rpk/zstd.go:132-134 | a comma continues after it; anything else ends the parse with no error |
| Directive.LevelValue | cmd/rpk/zstd.go:80-84 | `l` without `=` is an error that leaves the settings as they were |
| Directive.LevelWord | cmd/rpk/zstd.go:85-94 | a level word moves the cursor forward; any other word is an error |
| Directive.ThreadsValue | cmd/rpk/zstd.go:95-105 | `t` without `=` or without a number is an error |
| Directive.MemoryValue | cmd/rpk/zstd.go:106-117 | `m` without `=` or without a number is an error |
| Directive.MemoryUnit | cmd/rpk/zstd.go:118-127 | a unit is optional and never an error |
| Directive.Item | cmd/rpk/zstd.go:77-131 | an item that continues moves the cursor forward |
| Directive.KeyValue | cmd/rpk/zstd.go:80-131 | a key whose value fails is an error that leaves the settings as they were |
| Directive.ZstdInfo.constructor | cmd/rpk/zstd.go:15-21 | a `zstdInfo` holds the given settings |
| Directive.DirectiveParser.constructor | cmd/rpk/zstd.go:35-36 | the cursor starts at the first rune |
| Directive.DirectiveParser.Consume | cmd/rpk/zstd.go:37-46 | at the end only the zero rune matches; otherwise a matching rune is consumed and nothing else is |
| Directive.DirectiveParser.ConsumeWord | cmd/rpk/zstd.go:77 | a chain of `consume` calls matches exactly as `Attempt` says |
| Directive.DirectiveParser.ConsumeDigit | cmd/rpk/zstd.go:48-54 | consumes one rune exactly when it is a digit |
| Directive.DirectiveParser.ConsumeInt | cmd/rpk/zstd.go:47-72 | reads the number as `Number` says |
| Directive.DirectiveParser.ParseLevel | cmd/rpk/zstd.go:80-94 | the `l=` item as `LevelValue` says |
| Directive.DirectiveParser.ParseLevelWord | cmd/rpk/zstd.go:85-94 | the level word as `LevelWord` says |
| Directive.DirectiveParser.ParseThreads | cmd/rpk/zstd.go:95-105 | the `t=` item as `ThreadsValue` says |
| Directive.DirectiveParser.ParseMemory | cmd/rpk/zstd.go:106-127 | the `m=` item as `MemoryValue` says |
| Directive.DirectiveParser.ParseMemoryUnit | cmd/rpk/zstd.go:118-127 | the unit suffix as `MemoryUnit` says |
| Directive.DirectiveParser.ParseItem | cmd/rpk/zstd.go:77-134 | one loop round as `Item` says |
| Directive.DirectiveParser.ParseKeyValue | cmd/rpk/zstd.go:80-131 | the key and value as `KeyValue` says |
| Directive.Items | cmd/rpk/zstd.go:76-136 | the loop of items from a cursor, until one stops the parse or the runes run out; `ItemsOfList` states what a comma list gives |
| Directive.Parse | cmd/rpk/zstd.go:23-137 | handleZstd's result: the empty string is automatic mode, otherwise the items applied to the defaults; `ParseSettings`, `ParseAuto` and the `DirectiveErrors` lemmas state what it gives |
| Directive.HandleZstd | cmd/rpk/zstd.go:23-137 | the new `zstdInfo` and the error are those `Parse` gives |
| DirectiveFacts.MatchedWhole | cmd/rpk/zstd.go:77 | a word present at the cursor is matched whole |
| DirectiveFacts.MatchedNone | cmd/rpk/zstd.go:77 | a word whose first rune differs matches nothing |
| DirectiveFacts.NumberOfDigits | cmd/rpk/zstd.go:47-72 | the decimal digits of a 64-bit number read back as that number |
| DirectiveFacts.AutoItem | cmd/rpk/zstd.go:77-79 | an `auto` item sets automatic mode and ends the parse |
| DirectiveFacts.LevelWordOf | cmd/rpk/zstd.go:85-91 | `low`, `mid` and `high` set the fastest, default and better-compression levels |
| DirectiveFacts.MemoryUnitOf | cmd/rpk/zstd.go:118-127 | `%` sets the percent flag, `G`, `M` and `K` shift left by 30, 20 and 10, and a trailing `B` is optional |
| DirectiveFacts.ThreadsValueOf | cmd/rpk/zstd.go:95-105 | `t=N` sets the threads to `min(255, N)` |
| DirectiveFacts.MemoryValueOf | cmd/rpk/zstd.go:106-117 | `m=N` sets the memory to `N` before the unit |
| DirectiveFacts.UnitStartsNonDigit | cmd/rpk/zstd.go:118-127 | a unit never continues the number |
| DirectiveFacts.KeyValueOfSetting | cmd/rpk/zstd.go:80-131 | the text of any setting parses to that setting's effect |
| DirectiveFacts.RenderStart | cmd/rpk/zstd.go:80-106 | every setting starts with its key `l`, `t` or `m` |
| DirectiveFacts.NotAuto | cmd/rpk/zstd.go:77 | a failed `auto` match leaves the cursor where it was |
| DirectiveFacts.ItemOfSetting | cmd/rpk/zstd.go:77-134 | a setting followed by a comma continues the parse; one followed by anything else ends it |
| DirectiveFacts.ItemsOfList | cmd/rpk/zstd.go:76-135 | a comma-separated list of settings applies each in order |
| DirectiveFacts.ParseSettings | cmd/rpk/zstd.go:76-136 | any list of well-formed settings parses, with no error, to the defaults with each setting applied in order |
| DirectiveFacts.ParseAuto | cmd/rpk/zstd.go:77-79 | a directive starting with `auto` gives automatic mode whatever follows |
| DirectiveFacts.ParseSettingsThenAuto | cmd/rpk/zstd.go:77-79 | `auto` after settings keeps them and turns on automatic mode |
| DirectiveErrors.QuotedKeys | cmd/rpk/zstd.go:82-113 | the keys are quoted as in the error messages |
| DirectiveErrors.UnknownKey | cmd/rpk/zstd.go:128-130 | an unknown key is the error "expected 'l', 't', 'm' or 'auto' after '--zstd='" |
| DirectiveErrors.MissingEquals | cmd/rpk/zstd.go:81-109 | a key without `=` is the error "expected '=' after" that key |
| DirectiveErrors.MissingNumber | cmd/rpk/zstd.go:100-115 | `t=` or `m=` without digits is the error "expected number" |
| DirectiveErrors.NumberOverflow | cmd/rpk/zstd.go:59-62 | a number that does not fit 64 bits is the error "expected number" |
| DirectiveErrors.BadLevel | cmd/rpk/zstd.go:91-93 | any level other than the three words is an error |
| DirectiveErrors.PartialAuto | cmd/rpk/zstd.go:77 | a failed `auto` chain keeps its consumed runes, so `at=3` sets three threads |
| DirectiveErrors.PartialLevelWords | cmd/rpk/zstd.go:85-90 | failed level words keep their consumed runes, so `l=lmhigh` sets the better-compression level |
| DirectiveErrors.GigaShiftWraps | cmd/rpk/zstd.go:121 | the shift loses the bits past bit 63 |
| DirectiveErrors.GigaWraps | cmd/rpk/zstd.go:120-121 | `m=NG` stores `N << 30` modulo 2^64, so `m=17179869184G` is 0 |
| Tuning.ToU64 | cmd/rpk/zstd.go:178 | a conversion to u64 truncates toward zero |
| Tuning.SpeedThreads | cmd/rpk/zstd.go:148-158 | the speed cap lies between 2 and 8 |
| Tuning.MemoryThreads | cmd/rpk/zstd.go:146 | the memory cap is at least 1 |
| Tuning.AutoThreads | cmd/rpk/zstd.go:145-160 | the thread count is the least of the CPU, memory and speed caps |
| Tuning.AutoMemory | cmd/rpk/zstd.go:178 | the memory is 70% of the available memory, rounded down |
| Tuning.ExplicitThreads | cmd/rpk/zstd.go:180-184 | 0 threads means all CPUs modulo 256; otherwise the count is capped at the CPUs |
| Tuning.PercentMemoryAsWritten | cmd/rpk/zstd.go:187 | the conversion as written, with `max(percent, 100)`; `PercentAsWrittenIgnoresPercent` and `PercentAsWrittenExamples` show that it gives all the memory for any percentage up to 100 |
| Tuning.PercentMemory | cmd/rpk/zstd.go:187 | a percentage gives that share of the available memory, at most all of it |
| Tuning.PercentScaled | cmd/rpk/zstd.go:187 | the real-valued share, rounded down, is that share of the memory |
| Tuning.Auto | cmd/rpk/zstd.go:144-178 | the automatic branch: threads from `AutoThreads`, on write the level from `SizeLevel`, and the memory from `AutoMemory`; `TunedFacts` states it |
| Tuning.Explicit | cmd/rpk/zstd.go:179-189 | the explicit branch with the corrected conversion `PercentMemory` in place of line 187's `max`: threads from `ExplicitThreads`, a percentage turned into that share of the memory; `TunedFacts` states it |
| Tuning.Tuned | cmd/rpk/zstd.go:144-193 | after tuning a memory value is always present; the explicit branch uses the corrected percentage conversion |
| Tuning.ValidateParameters | cmd/rpk/zstd.go:139-210 | a failed memory probe is an error that changes nothing; otherwise the settings become those `Validated` gives, which uses the corrected percentage conversion of line 187 (see "## Findings") |
| Tuning.TuneAuto | cmd/rpk/zstd.go:144-178 | automatic mode sets the settings `Auto` gives |
| Tuning.TuneExplicit | cmd/rpk/zstd.go:179-189 | explicit mode sets the settings `Explicit` gives, with the corrected percentage conversion of line 187 |
| Tuning.FitWindow | cmd/rpk/zstd.go:194-204 | the memory becomes the window size |
| Tuning.SizeLevel | cmd/rpk/zstd.go:167-176 | the fastest level below 1 MiB, the default below 10 MiB and better compression above; `SizeLevelMonotone` proves it never speeds up as the size grows |
| Tuning.SizeLevelMonotone | cmd/rpk/zstd.go:167-176 | a larger payload never gets a faster level |
| Tuning.Smear | cmd/rpk/zstd.go:196-201 | the six steps that OR a value with itself shifted right; `SmearBounds` and `SmearClosed` state what they give |
| Tuning.SmearBounds | cmd/rpk/zstd.go:196-201 | the smeared value is at least the value, and its half is below it |
| Tuning.SmearClosed | cmd/rpk/zstd.go:196-201 | every bit below the top one is set in the smeared value |
| Tuning.RoundDown | cmd/rpk/zstd.go:195-203 | `n - (n >> 1)` of the smeared value; `RoundDownIsLargestPowerOfTwo` and `RoundDownIsLargest` prove it the largest power of two not above the value |
| Tuning.RoundDownIsLargestPowerOfTwo | cmd/rpk/zstd.go:195-203 | rounding a nonzero value down gives a power of two no greater than it and greater than its half |
| Tuning.RoundDownIsLargest | cmd/rpk/zstd.go:195-203 | no power of two at most the value exceeds the rounded value |
| Tuning.RoundedFacts | cmd/rpk/zstd.go:195-203 | zero stays zero; any other value rounds down to the largest power of two not above it |
| Tuning.ClampOneOf | cmd/rpk/zstd.go:204 | a clamp lies within its bounds and keeps a value already inside them |
| Tuning.WindowSize | cmd/rpk/zstd.go:194-204 | a writer's memory rounded down and clamped to the window bounds; `WindowSizeFacts` states its range |
| Tuning.WindowSizeFacts | cmd/rpk/zstd.go:194-204 | the window size lies between the engine's minimum and maximum, and is a power of two when they are |
| Tuning.ReadMemory | cmd/rpk/zstd.go:207 | a reader's memory clamped between `1<<10` and `1<<63`; `ReadMemoryFacts` states it |
| Tuning.ReadMemoryFacts | cmd/rpk/zstd.go:207 | the decoding memory lies between `1<<10` and `1<<63` |
| Tuning.TunedFacts | cmd/rpk/zstd.go:144-193 | automatic mode sets the threads, level and memory from the probe; explicit mode caps the threads and converts a percentage into that share of the memory (the corrected conversion of line 187); a missing memory defaults to 4 GiB |
| Tuning.Validated | cmd/rpk/zstd.go:144-208 | what validateParameters makes of the settings when the probe succeeds, with the corrected percentage conversion; `ValidatedWriter` and `ValidatedReader` state it for each direction |
| Tuning.ValidatedWriter | cmd/rpk/zstd.go:194-204 | on write the memory is rounded down to a power of two and clamped to the window bounds |
| Tuning.ValidatedReader | cmd/rpk/zstd.go:205-208 | on read the threads are capped at 4 and the memory clamped |
| Tuning.PercentAsWrittenIgnoresPercent | cmd/rpk/zstd.go:187 | as written, any percentage up to 100 gives all the available memory |
| Tuning.PercentAsWrittenExamples | cmd/rpk/zstd.go:187 | as written, `m=50%` of 1000 bytes is 1000 and `m=200%` is 2000; as intended they are 500 and 1000 |
| Tuning.ItemKeepsPercentValue | cmd/rpk/zstd.go:106-127 | a percent flag always comes with a memory value |
| Tuning.ParseKeepsPercentValue | cmd/rpk/zstd.go:23-137 | no directive sets the percent flag without a memory value, so the dereference at line 187 is safe |
| ZstdStream.CopyTo | cmd/rpk/zstd.go:240 | `copy` fills the front of the buffer and leaves the rest |
| ZstdStream.ReadWrapper.constructor | cmd/rpk/zstd.go:271-274 | the wrapper holds the source and the bytes read ahead |
| ZstdStream.ReadWrapper.Read | cmd/rpk/zstd.go:235-257 | whatever the request, the bytes returned followed by what is still pending are exactly what was pending; a request no larger than the buffered bytes leaves the source untouched |
| ZstdStream.ReadWrapper.ReadDirect | cmd/rpk/zstd.go:256 | with nothing buffered the source is read directly |
| ZstdStream.ReadWrapper.Replay | cmd/rpk/zstd.go:239-247 | a request no larger than the buffer is served from it alone |
| ZstdStream.ReadWrapper.ReplayThenRead | cmd/rpk/zstd.go:248-254 | a larger request gets the whole buffer and then what the source gives |
| ZstdStream.ReadOnce | cmd/rpk/zstd.go:235-257 | one caller read takes the next bytes in order |
| ZstdStream.ReadThrough | cmd/rpk/zstd.go:235-257 | across any sequence of read sizes the caller gets the buffered bytes and then the source, with nothing lost or repeated |
| ZstdStream.WrapReader | cmd/rpk/zstd.go:259-293 | with no settings: fewer than 4 bytes is an error, and the decoder path is taken exactly when the 4 bytes are the Zstandard magic number; settings are validated for reading, with the corrected percentage conversion |
| ZstdStream.WrapWriter | cmd/rpk/zstd.go:212-228 | no settings leave the writer as it is; a failed probe is an error; otherwise the encoder gets the validated window, level and threads, with the corrected percentage conversion |
| Glob.Translate | cmd/rpk/common.go:61-74 | each rune becomes one or two runes |
| Glob.Body | cmd/rpk/common.go:61-74 | the translation is between one and two runes per pattern rune |
| Glob.RegexFromPattern | cmd/rpk/common.go:57-77 | the source starts with `^`, ends with `$`, holds the translated pattern between them, and is between `len + 2` and `2*len + 2` runes long |
| Glob.TranslateThenRead | cmd/rpk/common.go:61-74 | a translated rune reads back as itself |
| Glob.BodyRoundTrip | cmd/rpk/common.go:61-74 | the pattern can be read back from its translation |
| Glob.RegexInjective | cmd/rpk/common.go:57-77 | different patterns give different regular expressions |
| Glob.BodyAppend | cmd/rpk/common.go:61-74 | the translation works rune by rune |
| Glob.EachRune | cmd/rpk/main.go:177-190 | `*` becomes `.*`, `?` becomes `.`, each of `.()+\|^$[]{}\` gets a backslash, and other runes are kept |
| Glob.PlainPatternIsLiteral | cmd/rpk/common.go:71-72 | a pattern without wildcards or special runes translates to itself |
| CopyLoop.Judge | cmd/rpk/common.go:125-141 | a write count that is negative or exceeds the chunk counts as 0; the round succeeds exactly when the whole chunk was taken with no error |
| CopyLoop.Round | cmd/rpk/common.go:125-141 | a round never counts more than the chunk, and a round with no error counts the whole chunk |
| CopyLoop.CopyGoesOn | cmd/rpk/common.go:122-149 | after a successful round the loop goes on with the rest of the data |
| CopyLoop.CopyStops | cmd/rpk/common.go:134-141 | a failed round ends the loop with its error |
| CopyLoop.CopyChunkFits | cmd/rpk/common.go:122-149 | a chunk that fits is appended and the loop goes on |
| CopyLoop.RoundFits | cmd/rpk/common.go:125-141 | a chunk that fits is taken whole with no error |
| CopyLoop.Copy | cmd/rpk/common.go:122-149 | the loop as a function: read a chunk of at most `size` bytes, write it, stop at the first error or the end of the data; `CopyFits`, `CopyOverflows` and `CopyBounds` state what it gives |
| CopyLoop.CopyFits | cmd/rpk/common.go:122-149 | data that fits is copied whole; the end of the source ends the loop with its error, and end-of-file is no error |
| CopyLoop.CopyOverflows | cmd/rpk/common.go:122-149 | on a sink without room, exactly what fits is copied and the sink's overflow error is reported |
| CopyLoop.CopyChunkOverflows | cmd/rpk/common.go:125-141 | a first chunk that does not fit stops the loop in one round |
| CopyLoop.CopyBounds | cmd/rpk/common.go:122-149 | the bytes written never exceed those read, and the sink receives a prefix of the data |
| CopyLoop.WriteChecked | cmd/rpk/common.go:125-141 | one write of a chunk with the checks for an invalid count and a short write |
| CopyLoop.WriteRound | cmd/rpk/common.go:123-141 | one round of the loop, as `Copy` takes it |
| Common.IsStdIOFile | cmd/rpk/common.go:18-20 | a name means standard input or output exactly when it is empty or `-` |
| Common.LimitAdvance | cmd/rpk/common.go:121 | the limited reader hands out the same bytes however they are read |
| Common.LimitedRead | cmd/rpk/common.go:121-123 | one read through `io.LimitReader` never goes past the limit |
| Common.CopyBuffer | cmd/rpk/common.go:119-151 | the outcome is that of `Copy` on the first `size` bytes of the source |
| Common.ReadsAtMostSize | cmd/rpk/common.go:121 | the loop never reads more than `size` bytes |
| Common.HugeSizeCopiesNothing | cmd/rpk/common.go:121 | a size of 2^63 or more is a negative limit, so nothing is copied |
| Common.CopiesExactlySize | cmd/rpk/common.go:119-151 | with enough data and room exactly `size` bytes are copied, with no error |
| Common.EarlyEndIsNotAnError | cmd/rpk/common.go:143-148 | a source that ends early is not an error, and everything it had is copied |
| CommandLine.CopyBuffer | cmd/rpk/main.go:232-264 | the outcome is that of `Copy` on the whole source; `size` plays no part |
| CommandLine.CopiesWholeSource | cmd/rpk/main.go:234-261 | with room enough the whole source is copied whatever `size` is |
| CommandLine.ExcludesBelowWeaker | cmd/rpk/main.go:376-379 | an exclude slot index below `n` is below any larger bound |
| CommandLine.ExcludesIncrease | cmd/rpk/main.go:376-379 | exclude slots are queued in increasing index order |
| CommandLine.NextSlotFits | cmd/rpk/main.go:437-439 | the next exclude slot always names an existing entry |
| CommandLine.ExcludesBelowAppend | cmd/rpk/main.go:376-379 | queueing a slot for the new entry keeps every slot within the entries |
| CommandLine.Named | cmd/rpk/main.go:393-420 | a named option is a `-` argument |
| CommandLine.NamedShape | cmd/rpk/main.go:393-420 | a named option is a two-rune `-x` or a long `--name` |
| CommandLine.NamedC | cmd/rpk/main.go:397-398 | `-c` is the create flag |
| CommandLine.NamedE | cmd/rpk/main.go:409-410 | `-e` is the exclude flag |
| CommandLine.Runes | cmd/rpk/main.go:425-436 | a flag group stops the process exactly when it contains `V` or `h` |
| CommandLine.Argument | cmd/rpk/main.go:393-443 | only an empty argument or a flag can stop the process |
| CommandLine.FlagKeeps | cmd/rpk/main.go:356-391 | every flag keeps each queued exclude slot pointing at an existing entry |
| CommandLine.RunesKeeps | cmd/rpk/main.go:425-436 | a flag group keeps the slots well formed |
| CommandLine.ArgumentKeeps | cmd/rpk/main.go:393-443 | every argument keeps the slots well formed |
| CommandLine.ScanKeeps | cmd/rpk/main.go:392-444 | the argument loop keeps the slots well formed |
| CommandLine.Decide | cmd/rpk/main.go:445-466 | unfilled slots are an error first; then list wins over extract and extract over create; no mode is an error; packing with no patterns packs `*` |
| CommandLine.Flag | cmd/rpk/main.go:356-391 | handleArg for a rune that does not end the process; `FlagStep` states its effect rune by rune |
| CommandLine.FlagStep | cmd/rpk/main.go:356-391 | `l`, `c`, `x` and `v` set their mode; `f`, `d` and `e` queue one slot each and `e` one blank entry; other runes change nothing |
| CommandLine.RunesStep | cmd/rpk/main.go:427-433 | a group is handled one rune at a time |
| CommandLine.CountSplit | cmd/rpk/main.go:427 | counting a rune in a group splits at its first rune |
| CommandLine.BlanksAdd | cmd/rpk/main.go:377-378 | blank entries add up |
| CommandLine.FlagGroupModes | cmd/rpk/main.go:425-436 | a group without `V` or `h` sets exactly the modes whose runes it contains |
| CommandLine.SlotsQueuedStep | cmd/rpk/main.go:427-433 | one rune of a group queues its slot after those already queued |
| CommandLine.RunesQueue | cmd/rpk/main.go:425-436 | a group queues its slots in rune order |
| CommandLine.FlagGroupSlots | cmd/rpk/main.go:425-436 | a group queues the slots of its `f`, `d` and `e` runes in order and adds one blank entry per `e` |
| CommandLine.RunesOfOne | cmd/rpk/main.go:356-391 | a group of one rune is that rune's flag, or the version or help exit |
| CommandLine.ArgumentPlain | cmd/rpk/main.go:437-442 | a plain argument is a value |
| CommandLine.ScanPlain | cmd/rpk/main.go:437-442 | a run of plain arguments fills the queued slots in order |
| CommandLine.PositionalKeeps | cmd/rpk/main.go:437-442 | a value keeps the slots well formed |
| CommandLine.Fill | cmd/rpk/main.go:438 | `*waiters[waitersReed] = arg` as intended: the value goes into the name, the directory or its own exclude entry; `PositionalTarget` states it |
| CommandLine.Positional | cmd/rpk/main.go:437-442 | a value fills the oldest unfilled slot, or else becomes a file pattern; `PositionalFills` and `FillShape` state it |
| CommandLine.PositionalFills | cmd/rpk/main.go:437-439 | a value fills the next slot and nothing else moves |
| CommandLine.PositionalTarget | cmd/rpk/main.go:437-439 | the value lands in the name, the directory or the exclude entry the slot names |
| CommandLine.FillsFiles | cmd/rpk/main.go:440-442 | once every slot is filled, the values become file patterns in order |
| CommandLine.ShapedStep | cmd/rpk/main.go:437-442 | one value fills one slot or adds one pattern |
| CommandLine.FillsShaped | cmd/rpk/main.go:437-442 | values fill the open slots first and the rest become file patterns |
| CommandLine.FillShape | cmd/rpk/main.go:437-442 | after `n` values, `min(n, open slots)` slots are filled and the remaining values become file patterns in order |
| CommandLine.FilledOnce | cmd/rpk/main.go:376-379 | no exclude entry is queued twice |
| CommandLine.ExcludesSetStep | cmd/rpk/main.go:437-439 | one exclude value fills its own entry |
| CommandLine.ExcludesFilledStep | cmd/rpk/main.go:437-439 | one value keeps the exclude entries as the slots say |
| CommandLine.FillsExcludes | cmd/rpk/main.go:437-439 | each exclude entry holds the value of its slot |
| CommandLine.FillExcludes | cmd/rpk/main.go:376-379 | each exclude entry holds the value given for its slot, and entries without a value stay blank |
| CommandLine.NameSetStep | cmd/rpk/main.go:437-439 | one value for the name slot sets the name |
| CommandLine.NameFilledStep | cmd/rpk/main.go:437-439 | one value keeps the name as the slots say |
| CommandLine.FillsName | cmd/rpk/main.go:437-439 | the name is the value of its last filled slot |
| CommandLine.FillName | cmd/rpk/main.go:370-371 | without a name slot the name is unchanged; otherwise it is the value of the last name slot filled |
| CommandLine.Scan | cmd/rpk/main.go:392-444 | the argument loop, up to the end or an early exit; `ScanKeeps`, `FillShape`, `FillExcludes` and `FillName` state what it gives |
| CommandLine.ScanSteps | cmd/rpk/main.go:392-444 | the loop runs the arguments one after another |
| CommandLine.IntendedStatesQueue | cmd/rpk/main.go:376-379 | in `rpk -c -e -e -e a b c`, each `-e` queues a slot for its own entry |
| CommandLine.IntendedStatesFill | cmd/rpk/main.go:437-439 | `a`, `b` and `c` fill the three entries in order |
| CommandLine.IntendedExcludes | cmd/rpk/main.go:376-379 | as intended, `rpk -c -e -e -e a b c` packs `*` excluding `a`, `b` and `c` |
| CommandLine.PackStatesGroup | cmd/rpk/main.go:425-436 | `-cvf` sets create and verbose and queues the name slot |
| CommandLine.GroupCvf | cmd/rpk/main.go:425-436 | the group `cvf` from any state sets create and verbose and queues the name slot |
| CommandLine.PackStatesExclude | cmd/rpk/main.go:409-410 | `-e` queues an exclude slot |
| CommandLine.PackStatesName | cmd/rpk/main.go:437-439 | `out.rpk` fills the name slot |
| CommandLine.PackStatesPattern | cmd/rpk/main.go:437-439 | `*.tmp` fills the exclude slot |
| CommandLine.PackStatesFile | cmd/rpk/main.go:440-442 | `src` becomes a file pattern |
| CommandLine.PackExample | cmd/rpk/main.go:392-467 | `rpk -cvf out.rpk -e *.tmp src` packs `src` into `out.rpk`, excluding `*.tmp`, verbosely |
| CommandLine.Arguments.constructor | cmd/rpk/main.go:350-355 | the variables start with no modes, an empty name, the working directory, and nothing queued |
| CommandLine.Arguments.HandleArg | cmd/rpk/main.go:356-391 | `handleArg` reports a rune as handled exactly when it is one of `lcxfdevVh`, and its effect is that of `Flag` |
| CommandLine.Arguments.HandleArgument | cmd/rpk/main.go:393-443 | one argument changes the variables as `Argument` says |
| CommandLine.Arguments.Parse | cmd/rpk/main.go:392-444 | the loop changes the variables as `Scan` says |
| CommandLine.Invoke | cmd/rpk/main.go:338-467 | `main`'s outcome from its arguments: no arguments is no mode, a stop in the loop ends the process, otherwise `Decide` chooses; `PackExample` follows one command through |
| CommandLine.Run | cmd/rpk/main.go:338-467 | `main` ends as `Invoke` says: a stop in the loop, or the command `Decide` chooses |
| ArgumentSlices.AppendBlank | cmd/rpk/main.go:377-379 | `append` adds one blank entry to the slice, in place or into a new array |
| ArgumentSlices.RunesAsWrittenOne | cmd/rpk/main.go:427-433 | a group of one rune applies that rune's flag |
| ArgumentSlices.FlagAsWritten | cmd/rpk/main.go:356-391 | handleArg as written, where `-e` queues a pointer into the array `append` returned |
| ArgumentSlices.ScanAsWritten | cmd/rpk/main.go:392-444 | the argument loop as written; `LostExcludes` shows where it loses values |
| ArgumentSlices.ScanAsWrittenStep | cmd/rpk/main.go:392-444 | the loop as written runs the arguments one after another |
| ArgumentSlices.LostFlagC | cmd/rpk/main.go:397-398 | `-c` sets create |
| ArgumentSlices.LostFirstE | cmd/rpk/main.go:376-379 | the first `-e` appends in place |
| ArgumentSlices.LostSecondE | cmd/rpk/main.go:376-379 | the second `-e` fills the array of capacity 2 |
| ArgumentSlices.LostThirdE | cmd/rpk/main.go:376-379 | the third `-e` moves the entries to a new array of capacity 4 |
| ArgumentSlices.Store | cmd/rpk/main.go:438 | the store through a pointer as written: into the name, the directory, or the element of whichever array the pointer was taken from, replaced or in use |
| ArgumentSlices.LostStatesFill | cmd/rpk/main.go:437-439 | `a` and `b` are stored into the replaced array and `c` into the one in use |
| ArgumentSlices.LostExcludes | cmd/rpk/main.go:376-379 | as written, `rpk -c -e -e -e a b c` packs with the excludes `""`, `""` and `c` |
| ArgumentSlices.ScanAsWrittenSteps | cmd/rpk/main.go:392-444 | the loop as written runs the arguments one after another |

## Left out

- Streams.Source: mid-stream short reads, as from a pipe, are not modelled. A source serves `min(request, remaining)` bytes, as `bytes.Reader` does.
- ArchiveReader.Reader.ReadFileTable: a count whose table exceeds Go's allocation limit (24 bytes a record, so on 64-bit Linux any count of 2^44 or more) makes `make(FileTable, l)` at `reader.go:74` panic, and a smaller but huge count exhausts memory. The model allocates any count and reports the missing records as a record error instead.
- Streams.CopyN: `io.CopyN` is one read and one write, not its 32 KiB chunks. Only the bytes and the error are observable to the callers modelled here.
- The 64-bit wrap-around of the `written` counters and of `fileSize` in `cmd/rpk/pack.go` is not modelled; counts are unbounded naturals.
- `NewWriter` and `NewReader` of the Zstandard library, and the compression engine itself, are foreign. `ZstdStream.WrapWriter` and `ZstdStream.WrapReader` return the settings they would pass to the engine.
- `MinWindowSize` and `MaxWindowSize` are parameters (`Window`), because they are the engine's constants.
- `mem.VirtualMemory` is a parameter, `None` when the probe fails; so are `runtime.NumCPU` and the measured write speed.
- Tuning.AutoMemory, Tuning.PercentMemory: `float64` arithmetic is modelled with exact reals and a floor. Rounding in the last bit of a double is not modelled.
- Tuning.ToU64: Go leaves a float-to-u64 conversion out of range implementation-defined; the model saturates. No value in range is affected.
- MD5 is a parameter `md5: seq<byte> -> Digest`; any function giving 16 bytes works.
- `cmd/rpk/buf.go` (`makeIoBuffer`) is a timing benchmark over temporary files and is not part of this model.
- `findFiles`, `filepath.WalkDir`, `chdir`, `os.Getwd`, `openFileForRead` and `openFileForWrite` touch the file system and are not modelled. `File.Read` and `File.Write` of `interface.go` are not modelled either; only the `File` record is.
- `regexp.Compile` and `filepath.ToSlash` are foreign. The model stops at the regular expression's source text.
- The progress and warning output to standard error (`cmd/rpk/log.go` and the `fmt.Fprintf` calls) is not modelled.
- The text of `version()` and `help()` and the `os.Exit` calls are not modelled. The model returns which of them ends the process.
- `main` with no arguments at all calls `noMode` before anything else. The model gives `NoMode` for it without the exit.
- `packArchive`, `readArchive` and the listing branch of `cmd/rpk/unpack.go` call `wrapWriter` and `wrapReader` with signatures that differ from those in `cmd/rpk/zstd.go`. Container models only the codec calls in order, without the compression layer.
- Strings are sequences of runes. An invalid UTF-8 byte, which `range` turns into U+FFFD, is not modelled.
- ArgumentSlices.AppendBlank: the new capacity is always double the old. Go's own growth rule differs only for capacities above 256, beyond the example modelled.

## Findings

| source | as written | input that shows it | evidently intended | confidence | as-written member | corrected member |
|---|---|---|---|---|---|---|
| cmd/rpk/zstd.go:187 | `max(float64(*i.memory), 100)`: a percentage of at most 100 is raised to 100, and one above 100 is kept | `m=50%` with 1000 bytes available gives 1000 bytes; `m=200%` gives 2000 | `min(..., 100)`: that share of the available memory, at most all of it (500 and 1000) | high, not executed | Tuning.PercentAsWrittenExamples | Tuning.PercentMemory |
| cmd/rpk/main.go:376-379 | `-e` queues `&excludes[l]`. A later `append` that outgrows the capacity moves `excludes` to a new array, so earlier pointers still point into the old one | `rpk -c -e -e -e a b c`: `a` and `b` are stored in the old array and the archive excludes `""`, `""` and `c` | every `-e` value reaches its own entry of `excludes` | high, not executed | ArgumentSlices.LostExcludes | CommandLine.FillExcludes |
