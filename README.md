# ck3save core in Dafny

A verified model of the core of `ck3save`, the Rust library that reads Crusader Kings III saves. The modelled parts are:

- **The calendar date** (`ck3date.dfy`, module `Ck3Date`). Every year has 365 days and February has 28.
  - Validation by `new` and ordering by year, month, day.
  - Day numbers, `days_until` and `add_days`.
  - Decoding the binary hour count (`from_i32`).
  - The `Y.M.D` and `YYYY-MM-DD` formats.
  - The one-pass `Y.M.D` parser.
- **The melter** (`melt.dfy`, module `Melt`). It walks the tokenizer's tape of binary tokens and writes plaintext.
  - The walk keeps the one-shot flags `known_number`, `known_unquote` and `reencode_float_token`.
  - It keeps the marker indices of `alive_data`, the unquote lists, `ai_strategies` and `meta_data`.
  - It keeps the stack of open groups and the set of unresolved token ids.
  - It drops ironman keys and unresolved keys with their values.
  - It patches the metadata length into the save-id line when `meta_data` closes.
  - `melt_with_tokens` rewrites the save-id line and picks the body: plain, or the `gamestate` entry of a zip.
- **Container sniffing** (`extraction.dfy`, module `Extraction`): dropping the save-id line, the binary sniff, finding the zip signature, splitting a save at it, header extraction within the first 64 KiB, the encoding each part is given, and the 200 MiB entry guard.
- **The binary flavors** (`flavor.dfy`, module `Flavor`): the 1.5 and pre-1.5 tables of keys whose quoted values are written unquoted, float re-encoding, and boxed flavors.
- **Opening a save** (`file.dfy`, module `File`): the scan of the zip central directory for the `gamestate` and `meta` entries, the dispatch of `from_slice`, the reported encoding, and melting, which copies plaintext bodies through.

Supporting modules:

- `wrappers.dfy`: Option and Result.
- `numbers.dfy`: fixed-width integers, Rust's truncating `/` and `%`, decimal and hex rendering with zero padding, and reading digits back.
- `bytes.dfy`: first-occurrence search and a growable byte buffer.
- `tape.dfy`: the binary token tape.
- `errors.dfy`: the error kinds.

Collaborators whose code is outside the model are parameters:

- the token resolver, the text writer and the binary date heuristic (`Melt.Env`);
- the tokenizer and the plain-or-zip detector (`Melt.Decoder`);
- the header parser and the zip locator (`File.Opener`);
- header writing and binary melting for files (`File.MeltEnv`);
- the deserializers, in `Extraction.ExtractHeaderAs` and `Extraction.MeltInMemory`.

The text writer is an append-only log of items. An oracle gives the bytes each write appends and whether the writer expects a key.

The imperative parts are methods proved against the specification functions:

- `Melt.ConvertFlavor` is a loop over the tape. It updates local flags and markers, writes through a `TextWriter` into a `ByteBuffer`, and collects ids in a `TokenSet`. Its postcondition is `Melt.Run`, the pure step function iterated.
- `Ck3Date.ParseFromStr`, `Ck3Date.Days`, `Ck3Date.FromI32` and `File.TryFromArchive` are also loops or step-by-step updates.

Two places where the source disagrees with itself, or where the model picks one reading:

- The `Encoding` enum in `src/extraction.rs:72-92` has three variants, while `src/file.rs:116` uses a fourth, `Text`. The model has one four-variant `Extraction.Encoding`.
- The error kinds follow the code's `Ck3ErrorKind` (zip, size, extraction, unknown token, deserialize, parse, writer).

## Model

| member | source | states |
|---|---|---|
| Numbers.Rem | src/ck3date.rs:183-184 | Rust's `%` on signed integers: `a == b * Quot(a, b) + r`, and the remainder takes the sign of the dividend |
| Bytes.Find | src/extraction.rs:345-347 | the result is an occurrence with no occurrence before it, and None exactly when the pattern occurs nowhere |
| Bytes.Position | src/extraction.rs:329-333 | the first index holding the byte, with the byte absent before it; None exactly when the byte is absent |
| Flavor.BoxDelegation | src/flavor.rs:25-33 | a box, however deeply nested, answers `float_reencoding` and `unquote_token` for every key as the flavor it holds |
| Flavor.FloatReencoding | src/flavor.rs:60-128 | reference definition of `float_reencoding` per flavor, a box answering as its content; its values are stated by Flavor.UnquoteTables and Flavor.BoxDelegation |
| Flavor.UnquoteToken | src/flavor.rs:60-147 | reference definition of `unquote_token`: membership in the 1.5 or the pre-1.5 key table, a box answering as its content; stated by Flavor.UnquoteTables and Flavor.BoxDelegation |
| Flavor.UnquoteTables | src/flavor.rs:60-147 | the 1.5 unquote set is the pre-1.5 set plus `localization_key`; the 1.5 flavor never re-encodes floats and the earlier one always does |
| Flavor.FlavorFromTape | src/flavor.rs:35-41 | the chosen flavor is always a box around a plain flavor |
| Flavor.FlavorFromTapeChoice | src/flavor.rs:35-41 | the 1.5 flavor is chosen exactly for tapes of at least four tokens whose third is token 1423 and whose fourth is `I32(7)` or `I32(6)`; every other tape, shorter ones included, gets the pre-1.5 flavor |
| Ck3Date.New | src/ck3date.rs:53-63 | Some exactly when the year is non-zero, the month is 1 to 12 and the day is within the month's length, and then it holds those fields |
| Ck3Date.NoLeapDay | src/ck3date.rs:51 | February 29 is refused in every year |
| Ck3Date.Compare | src/ck3date.rs:29-35 | Equal exactly on equal dates, Less exactly when the year, then the month, then the day is smaller |
| Ck3Date.CompareTotalOrder | src/ck3date.rs:29-35 | swapping the arguments reverses the answer, and "not greater" is transitive |
| Ck3Date.MonthStartsSumLengths | src/ck3date.rs:10 | the month offsets used for day numbers are the running sums of the month-length table, ending at 365 |
| Ck3Date.DayNumber | src/ck3date.rs:154-175 | reference definition of the day count of `days()`: 365·year plus the days before the month plus the day, less one; Ck3Date.Days is proved equal to it and Ck3Date.DayNumberOrder relates it to the order |
| Ck3Date.Days | src/ck3date.rs:154-175 | the accumulated day count is 365·year plus the days before the month plus the day, less one |
| Ck3Date.DayNumberOrder | src/ck3date.rs:154-175 | on calendar dates, day numbers are ordered as Compare orders the dates, and equal exactly for equal dates |
| Ck3Date.DaysUntil | src/ck3date.rs:177-179 | `days_until` as the difference of the two day numbers; its properties are stated by Ck3Date.DaysUntilProperties and Ck3Date.AddDaysRoundTrip |
| Ck3Date.DaysUntilProperties | src/ck3date.rs:177-179 | `days_until` is zero on a date itself, antisymmetric, positive exactly towards later dates, and zero exactly between equal dates |
| Ck3Date.MonthDayFromJulian | src/ck3date.rs:237-255 | every day of the year 0..364 maps to a month and day that `new` accepts, and the month's offset plus the day, less one, gives the index back |
| Ck3Date.AddDays | src/ck3date.rs:181-192 | the result is a calendar month and day; while the total stays within 16-bit years, its day number is the old one plus the days added |
| Ck3Date.AddDaysRoundTrip | src/ck3date.rs:181-192 | `days_until(d, add_days(d, n)) == n` |
| Ck3Date.AddDaysZero | src/ck3date.rs:439-445 | adding zero days to a calendar date gives the date back |
| Ck3Date.AddDaysWithinYear | src/ck3date.rs:447-456 | from January 1, adding a day's index within the year lands on that month and day of the same year |
| Ck3Date.FromI32 | src/ck3date.rs:194-211 | None exactly below year 1 (hours under 5001·365·24); otherwise a calendar date whose year is the hours over 24·365 less 5000, truncated to 16 bits, and whose day number, while the year fits, is the whole days less 5000 years; the hour within the day is dropped |
| Ck3Date.Iso8601 | src/ck3date.rs:220-222 | `iso_8601`: year padded to four digits, month and day to two, joined by '-'; stated by Ck3Date.Iso8601RoundTrip |
| Ck3Date.Ck3Fmt | src/ck3date.rs:232-234 | `ck3_fmt`: year, month and day unpadded, joined by '.'; stated by Ck3Date.ParseCk3Fmt and Ck3Date.CanonicalRoundTrip |
| Ck3Date.Iso8601RoundTrip | src/ck3date.rs:220-222 | the `YYYY-MM-DD` text reads back as year, month and day, and has ten characters for years below 10000 |
| Ck3Date.ParseRejects | src/ck3date.rs:118-138 | the parse gives None for empty input, a first character above '9', a character that is neither digit nor '.', and any number of fields other than three |
| Ck3Date.DateOfString | src/ck3date.rs:107-152 | the field-wise reference for `parse_from_str`: three '.'-separated digit fields read as u64, truncated and passed to `new`; stated by Ck3Date.ParseRejects, Ck3Date.DateOfThree and Ck3Date.ParseCk3Fmt, and Ck3Date.ParseFromStr is proved equal to it |
| Ck3Date.ParseFromStr | src/ck3date.rs:107-152 | the one-pass scan returns exactly the date its specification reads off the three '.'-separated fields |
| Ck3Date.ScanNext | src/ck3date.rs:122-139 | each character either keeps the scan's invariant (fields closed so far, current field start) or already decides a None result: a third '.' or a non-digit |
| Ck3Date.ParseEnd | src/ck3date.rs:141-151 | after the scan the result is `new` on the three fields read as u64 and truncated to u16, u8 and u8, or None when a field is not a number |
| Ck3Date.DateOfThree | src/ck3date.rs:141-151 | three digit runs joined by dots are read field by field, by the parse as written and by the checked one |
| Ck3Date.ParseCk3Fmt | src/ck3date.rs:232-234 | parsing the `Y.M.D` rendering of a valid date gives the date back |
| Ck3Date.CanonicalRoundTrip | src/ck3date.rs:317-332 | a canonical `Y.M.D` text (no leading zeros) that the checked parse accepts formats back to itself |
| Ck3Date.CheckedAgreesWhenInRange | src/ck3date.rs:143-146 | wherever the checked parse succeeds, the parse as written gives the same date |
| Ck3Date.WideMonthAccepted | src/ck3date.rs:146 | a month written 256·k too large parses as the month itself, does not format back to the input, and the checked parse refuses it |
| Extraction.SkipSavePrefix | src/extraction.rs:328-335 | the result is a suffix: everything after the first newline, or the whole input when there is none |
| Extraction.SkipSavePrefixExample | src/extraction.rs:383-388 | "abc\n123" gives "123" |
| Extraction.SniffIsBinary | src/extraction.rs:340-342 | true exactly when there are at least four bytes and the third and fourth are 01 00 |
| Extraction.ZipIndex | src/extraction.rs:345-347 | the least index where 50 4B 03 04 occurs, None exactly when it occurs nowhere |
| Extraction.SplitOnZip | src/extraction.rs:351-357 | the parts concatenate to the input; the second is empty exactly without a signature and otherwise starts with it; the first holds no signature |
| Extraction.HeaderWindow | src/extraction.rs:161-162 | a prefix of the data after the save-id line, at most 0x10000 bytes, and all of it when shorter |
| Extraction.ExtractHeaderAs | src/extraction.rs:157-178 | the binary or text deserializer is chosen by the sniff of the header part; Binary exactly for a binary header with nothing after it in the window, BinaryZip for a binary header followed by a zip, TextZip otherwise; errors pass through |
| Extraction.ExtractHeaderReadsWindow | src/extraction.rs:56 | cutting the save anywhere past 0x10000 bytes after the save-id line does not change header extraction |
| Extraction.ZipSizeGuard | src/extraction.rs:263-266 | an entry declaring more than 200 MiB fails with ZipSize before anything is read into the buffer |
| Extraction.ExtractEntry | src/extraction.rs:257-285 | the outcome of decoding a named entry: ZipMissingEntry, ZipSize, ZipExtraction or the deserialized entry with its encoding; stated by Extraction.ZipSizeGuard and Extraction.ExtractEntryEncoding, and Extraction.MeltInMemory is proved equal to it |
| Extraction.ExtractEntryEncoding | src/extraction.rs:273-285 | a decoded entry was present, within the size limit and fully read, and it is BinaryZip exactly when its bytes sniff as binary, TextZip otherwise |
| Extraction.MeltInMemory | src/extraction.rs:248-286 | the lent buffer is cleared and ends up holding what was read; the result is the entry outcome above |
| Melt.Melter.WithExtraction | src/melt.rs:60-63 | sets the extraction mode and leaves the other options unchanged |
| Melt.Melter.WithOnFailedResolve | src/melt.rs:66-69 | sets the unknown-token strategy and leaves the other options unchanged |
| Melt.Melter.WithRewrite | src/melt.rs:75-78 | sets the rewrite switch and leaves the other options unchanged |
| Melt.DefaultMelter | src/melt.rs:43-51 | in-memory extraction, unknown tokens ignored, rewriting on |
| Melt.Emit | src/melt.rs:156-158 | a write appends its item to the log and its bytes to the output, or fails with Writer and changes nothing; no other field of the state moves |
| Melt.PatchLength | src/melt.rs:141-154 | the length is kept, nothing changes unless the output has at least 24 bytes and starts with "SAV", and bytes outside [7, 23) are never touched |
| Melt.PatchLengthValue | src/melt.rs:145-153 | below 4 GiB, bytes [15, 23) become eight lowercase hex digits whose value is the output length less 24, and every other byte is kept |
| Melt.SkipTarget | src/melt.rs:202-209 | the walk always resumes strictly after the dropped key and never past the end of the tape |
| Melt.VisitKey | src/melt.rs:214-251 | a key never adds unknown ids; under a flavor without float re-encoding it never raises the float flag |
| Melt.VisitI32 | src/melt.rs:159-172 | only the number flag, the log and the output change; existing output bytes outside [7, 23) are kept |
| Melt.VisitEnd | src/melt.rs:123-155 | closing a group keeps the unknown set and the float flag; existing bytes outside [7, 23) are kept |
| Melt.VisitF64 | src/melt.rs:184-195 | only the float flag, the log and the output change; a re-encoded float is written only while the flag is set |
| Melt.Visit | src/melt.rs:111-285 | one token adds to the unknown set exactly its id when the resolver does not know it; it fails only with Writer, or with UnknownToken of that id under Error |
| Melt.Step | src/melt.rs:110-288 | one iteration keeps the state valid and either fails or moves the index forward |
| Melt.Run | src/melt.rs:110-290 | the loop ends either with an error or with the whole tape consumed, keeping existing output bytes outside [7, 23) |
| Melt.StepSkipRule | src/melt.rs:196-213 | a dropped key writes nothing and resumes after the End of the following object or array, after the following scalar, or after the key when it is last |
| Melt.StepEndRule | src/melt.rs:123-155 | `End(x)` writes a group end unless `x` opened a hidden object, resets each marker equal to `x`, and patches the length exactly when `x` is the meta_data marker |
| Melt.StepI32Rule | src/melt.rs:159-172 | after seed or random_count, or as a direct child of ai_strategies, an I32 is written as a number and clears the number flag; otherwise it is written as a date when the heuristic reads one |
| Melt.StepQuotedRule | src/melt.rs:173-179 | a quoted value is written unquoted exactly when the unquote flag is set |
| Melt.StepKeyRule | src/melt.rs:214-251 | a resolved key sets the meta_data, alive_data, ai_strategies and unquote-list markers to the next index; the unquote flag holds exactly within an unquote list or for a key in the flavor's table; the number flag holds exactly for seed and random_count; the float flag only under the pre-1.5 flavor |
| Melt.StepUnresolvedRule | src/melt.rs:252-275 | an unresolved id is always recorded; under Error the walk stops with UnknownToken and writes nothing; under Ignore in key position the key is dropped; otherwise `__unknown_0x<hex>` is written |
| Melt.RunUnknown | src/melt.rs:253 | the walk only adds ids to the unknown set, and only ids of the tape that the resolver does not know |
| Melt.RunError | src/melt.rs:255-256 | a walk stops only with Writer, or with UnknownToken of an unresolved id of the tape under Error |
| Melt.RunNoReencode | src/melt.rs:249 | under the 1.5 flavor the float flag is never raised and no float is written re-encoded |
| Melt.AiStrategiesValue | src/melt.rs:159-164 | after the ai_strategies key and the object that follows it, the innermost open group is the marked one, so its integers are written as numbers |
| Melt.TokenSet.Insert | src/melt.rs:253 | the id is added to the set |
| Melt.TextWriter.Write | src/melt.rs:156-158 | one write, as Emit describes it |
| Melt.WriteEnd | src/melt.rs:123-155 | the writes and marker resets for End, as VisitEnd describes them |
| Melt.PatchMetadataLength | src/melt.rs:143-153 | the buffer is patched in place to PatchLength of its old contents |
| Melt.WriteI32 | src/melt.rs:159-172 | the write for an I32 and the new number flag, as VisitI32 describes them |
| Melt.WriteKey | src/melt.rs:214-251 | the marker and flag updates and the write for a resolved key, as VisitKey describes them |
| Melt.WriteRgb | src/melt.rs:277-284 | the header "rgb" and an array of the three components, as VisitRgb describes them |
| Melt.ConvertId | src/melt.rs:196-276 | the arm for a token id leaves the writer, the buffer, the unknown set and the locals as one Step does |
| Melt.ConvertGroup | src/melt.rs:112-155 | the arms for Object, HiddenObject, Array and End, as one Step does |
| Melt.ConvertNumber | src/melt.rs:156-172 | the arms for Bool, U32, U64 and I32, as one Step does |
| Melt.ConvertText | src/melt.rs:173-195 | the arms for Quoted, Unquoted, F32 and F64, as one Step does |
| Melt.ConvertToken | src/melt.rs:111-287 | one iteration of the loop, as one Step does |
| Melt.ConvertFlavor | src/melt.rs:80-291 | the loop leaves in the output and the unknown set what Run gives from the start state, and fails exactly with Run's error |
| Melt.SaveIdCut | src/melt.rs:322-324 | the save-id line is cut after the first newline, or after the first byte when there is none |
| Melt.SaveIdLineAsWritten | src/melt.rs:319-331 | the save-id cut and type-digit patch as written, None where the patch indexes past the line; stated by Melt.SaveIdLinePanics, Melt.SaveIdLinePanicExample and Melt.SaveIdLineAgrees |
| Melt.SaveIdLine | src/melt.rs:319-336 | the line and the body split the input; every byte of the line but the type digit is kept, and the type digit becomes '0'; without "SAV" the line is empty |
| Melt.SaveIdLinePanics | src/melt.rs:322-331 | the source panics exactly on "SAV" inputs whose save-id line has fewer than seven bytes |
| Melt.SaveIdLinePanicExample | src/melt.rs:331 | the input "SAV" alone panics |
| Melt.SaveIdLineAgrees | src/melt.rs:319-336 | wherever the source does not panic, the corrected save-id line is what it computes |
| Melt.Convert | src/melt.rs:293-306 | `convert`: tokenize, choose the flavor from the tape, run the walk; a tokenizer rejection is Parse; its walk is stated by Melt.Run and the Run* lemmas |
| Melt.Melt | src/melt.rs:308-376 | the specification of `melt_with_tokens`: corrected save-id line, then the plain body or gamestate entry converted; stated by Melt.MeltKeepsSaveIdLine, Melt.MeltReportsUnresolved and Melt.MeltErrors, and Melt.MeltWithTokens is proved equal to it |
| Melt.MeltWithTokens | src/melt.rs:308-376 | the output and the unknown set are those of the melt specification: save-id line, then the converted plain body or gamestate entry |
| Melt.MeltKeepsSaveIdLine | src/melt.rs:319-336 | the melted text is at least as long as the save-id line, and keeps every byte of that line except the type digit, which is '0', and bytes [7, 23), where the metadata length may be patched |
| Melt.MeltReportsUnresolved | src/melt.rs:375 | every id reported as unknown is one the resolver does not know |
| Melt.MeltErrors | src/melt.rs:340-361 | melting fails only with the detector's error, a missing or unreadable gamestate entry, a tokenizer rejection, a writer failure, or UnknownToken of an unresolved id under Error |
| File.LowestOffset | src/file.rs:257-263 | the result is at most the directory offset and every entry's local header offset, and equals one of them |
| File.LastNamed | src/file.rs:262-268 | None exactly when no entry has the path; otherwise the wayfinder of the last entry with it |
| File.ZipOf | src/file.rs:252-286 | the zip view `try_from_archive` builds; stated by File.ZipNeedsGamestate, File.ZipWithMeta and File.ZipInlinedMeta, and File.TryFromArchive is proved equal to it |
| File.TryFromArchive | src/file.rs:252-286 | the directory scan gives the zip view: meta from the meta entry, or inlined from byte 24 to the lowest offset, or ZipMissingEntry |
| File.ZipNeedsGamestate | src/file.rs:284 | the archive is refused exactly when no entry is named gamestate, with ZipMissingEntry |
| File.ZipWithMeta | src/file.rs:271-277 | with gamestate and meta entries, both are taken from entries of those names |
| File.ZipInlinedMeta | src/file.rs:278-283 | with gamestate but no meta, the metadata spans from the header size to the least of the directory offset and every local header offset |
| File.EncodingOf | src/file.rs:114-121 | each kind of file has exactly one encoding: Text, Binary, TextZip under a text header, BinaryZip otherwise |
| File.FromSlice | src/file.rs:22-52 | `from_slice`: the header, then a zip view when a zip is located, otherwise a binary or text body after the header; stated by File.FromSliceEncoding, File.FromSliceErrors and File.FromSliceZipHeader |
| File.FromSliceEncoding | src/file.rs:22-51 | without a located zip the file is Binary exactly when the header says binary and Text otherwise, holding the bytes after the header; with one, TextZip or BinaryZip as the header says |
| File.FromSliceErrors | src/file.rs:23-34 | opening fails only with the header parser's error, or, once a header is read, with ZipArchive or ZipMissingEntry for gamestate |
| File.FromSliceZipHeader | src/file.rs:34-38 | the zip view carries the file's header |
| File.TextCopy | src/file.rs:148-154 | the body is copied unchanged to the end of the output |
| File.MeltOf | src/file.rs:137-158 | the specification of melting a file: text and text-zipped bodies copied after the text-marked header, the rest melted; stated by File.MeltTextIsCopy, and File.Melt is proved equal to it |
| File.WriteTextCopy | src/file.rs:227-232 | the header marked as text, then the body, are appended to the output, and no unknown ids are reported |
| File.Melt | src/file.rs:137-158 | on failure the error is the specification's and the output is unchanged; on success the melted text is appended to the output and its unknown ids reported |
| File.MeltTextIsCopy | src/file.rs:351-356 | a Text or TextZip file melts to its header marked as text followed by its body unchanged, with no unknown ids |

## Left out

- Floating point: `reencode_float`, the `visit_f32`/`visit_f64` decoders, the unaligned f32 reads of the extraction flavor, and the five- and six-digit float formatting. The walk writes F32 and F64 tokens as items that carry their raw bytes and a re-encoded mark.
- The jomini tokenizers, `TextWriter` and `TokenResolver`. They are oracles:
  - the tape is an input whose objects and arrays close later in the tape (a guarantee of the tokenizer, needed for termination);
  - `expecting_key` is a function of the items written so far;
  - the bytes a write appends come from an oracle.
- `Ck3Date::from_binary_heuristic` and `game_fmt` are not part of this model. They are one oracle from an I32 to an optional date text. The same holds for `detect_encoding`, `TokenLookup`, and `melt::melt` of the file API.
- `src/header.rs` is not part of this model. `SaveHeader` is its kind and its length, with the kinds collapsed to text, binary and other. Parsing and writing it are oracles.
- Zip, deflate and memory maps: locating the archive, inflating entries, `CompressedFileReader`, `ZipVerifier` and `MmapMut`. An entry is its declared size and what reading it yields. Both extraction modes read an entry the same way. The failure of `map_anon` is not modelled.
- I/O: `Ck3File::from_file`, `read_upto`, `extract_save_as`, and errors from `std::io::copy` and from writing to the output.
- serde glue: `Ck3Modeller`, the models, the `Ck3Date` serializer and visitor, `parse_save`, `deserialize_gamestate` and `meta`.
- `src/errors.rs`: the model has its own error enumeration. `ZipMissingEntry` carries the entry name in every module.
- The trivial accessors `year`, `month`, `day`, `kind` and `get_ref`.
- Panics are preconditions:
  - `unreachable!()` in `days` and `month_day_from_julian`;
  - i32 overflow in `add_days`;
  - a negative remainder in `add_days`.

  The exception is the save-id line panic, which is a finding below.
- Melt.Emit: Rust aborts when a vector would outgrow `isize::MAX` bytes. The model reports a Writer error instead, which keeps the metadata length below 2^63.
- File.Melt: on failure the model leaves the output as it was. Rust may already have written the header or part of the body.
- Melt.MeltWithTokens: `reserve` and `Vec::with_capacity` have no effect on contents and are left out.

## Findings

| source | as written | input that shows it | evidently intended | confidence | as-written member | corrected member |
|---|---|---|---|---|---|---|
| src/ck3date.rs:143-146 | each field is read as u64 and cast with `as u16` / `as u8`, which keeps only the low bits | "1.257.1" parses as 1.1.1 and formats back as "1.1.1" | a field too wide for its type rejects the text, so every accepted canonical text formats back to itself | medium, not executed | Ck3Date.WideMonthAccepted | Ck3Date.CanonicalRoundTrip |
| src/melt.rs:322-331 | without a newline the save-id line is cut after one byte, and the type digit is then set at index 6 of a line that may be shorter | "SAV" (or "SAV\n") indexes past the line and panics | a save-id line too short to hold a type digit is kept as it is | high, not executed | Melt.SaveIdLinePanicExample | Melt.SaveIdLineAgrees |
