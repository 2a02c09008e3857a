# MSXImage command-line core, modelled in Dafny

MSXImage (`CMSXimg`) converts a picture into sprite or tile data for MSX
computers. The data is written as a C header, an assembler source or a raw
binary file. This project models the part of the program that decides what to
export and how the bytes are counted and written:

- the file-name helpers `HaveExt` and `RemoveExt` (module `Paths`);
- the `Compressor` enum and its bit masks (module `Compressors`);
- the `ExportParameters` record and its defaults (module `Parameters`);
- `main` from the parsed command line to the export (modules `Selection` and
  `Driver`). It covers the palette-count default, the "-compress auto"
  decision table, and the "-compress best" benchmark over the ten candidate
  compressors. It then covers validation with the default output name, the
  chain of compressor and palette-count corrections, and the choice of
  exporter from the format or from the output name;
- the exporters of `exporter.h` (module `Exporters`). `ExporterBin` appends raw
  bytes, words low byte first. `ExporterDummy` only counts bytes and is the
  probe of the benchmark. The C and assembler text exporters append text.
  Every exporter keeps the byte counter `TotalBytes`.

Each exporter object records, in a ghost `trace`, the write calls it has
received. Its invariant ties its state to that trace. The binary output is
`Emitted(trace)`, and every counter is `Counted(trace)`. The lemma
`EmittedLength` then shows that the counting probe, the text exporters and
the binary exporter agree on the byte count for any call sequence.

The two source files come from neighbouring versions of the program. The
model follows the names of `exporter.h` (`Compressor`, `ExportParameters`,
`palCount`, `comp`), with the Hungarian prefixes dropped from the boolean
fields: `bUseTrans` is `useTrans`, `bSkipEmpty` is `skipEmpty` and
`bAddHeader` is `addHeader`. The enum value `COMPRESS_None` is the
datatype constructor `Uncompressed`, because `None` already names the empty
`Option`.

Notable behaviour of the code that the model keeps as written:

- `HaveExt` tests whether the extension occurs ANYWHERE in the name. So under
  "auto", `gfx.sprites.bin` goes to the assembler exporter
  (`SubstringMatchWinsOverSuffix`).
- The benchmark uses a byte count of 0 to mean "nothing kept yet". A run that
  produces 0 bytes is therefore replaced by the next successful run
  (`ZeroSizeIsOverwritten`).
- The assembler exporter's word conversion for the `HexaSharp` format pads
  to two digits, the same as its byte conversion (`GetNumberFormat`).

## Model

| member | source | states |
|---|---|---|
| Compressors.Tag | src/exporter.h:22-41 | Each compressor's enum value. 0 is exactly "no compression". No value has both crop and RLE bits set, and bits 6-7 are always clear. |
| Compressors.FromTag | src/exporter.h:22-41 | Reading an 8-bit value back. A result names the compressor with that value; no result means no compressor has that value. |
| Compressors.CropBound | src/exporter.h:27-33 | For a crop compressor, the low two bits select the side bound 16, 32 or 256. Each bound belongs to exactly its plain and per-line variants. |
| Compressors.TagRoundTrip | src/exporter.h:22-41 | Reading back a compressor's enum value gives that compressor. |
| Compressors.TagInjective | src/exporter.h:22-41 | Different compressors have different enum values. |
| Compressors.MaskFamilies | src/exporter.h:30-40 | The crop mask matches exactly the six crop compressors and the RLE mask exactly the three RLE ones. The per-line mask matches exactly the three per-line ones. No compressor is in both the crop and the RLE family. |
| Compressors.CropLineIsCropWithMask | src/exporter.h:30-34 | Each per-line crop value is the matching plain crop value with the per-line bit set. That bit lies inside the crop mask. |
| Parameters.Defaults | src/exporter.h:78-99 | The value of every field after default construction. |
| Paths.HaveExt | src/CMSXimg.cpp:29-32 | True exactly when the extension occurs somewhere in the name, not only at its end. |
| Paths.FindLastDot | src/CMSXimg.cpp:37-38 | No index when the name has no '.'. Otherwise the index holds a '.' and no '.' follows it. |
| Paths.RemoveExt | src/CMSXimg.cpp:35-41 | A name without '.' is unchanged. Otherwise the result is the prefix ending just before the last '.'. |
| Paths.RemoveExtAfterAppend | src/CMSXimg.cpp:35-41 | Removing an appended extension (one leading '.', no other '.') gives back the stem. |
| Paths.SpriteHasAsmExtension | src/CMSXimg.cpp:29-32 | "a.sprite" counts as having the extension ".s". |
| Paths.MissingCharMeansNoExt | src/CMSXimg.cpp:29-32 | A name lacking one character of the extension does not have that extension. |
| Selection.AutoSelect | src/CMSXimg.cpp:370-401 | A zero block size gives no compression. Without transparency the result is RLE4 exactly when the depth is 4 bits, otherwise none. With transparency and sides up to 256, the result is the smallest crop bound that fits both sides, per-line exactly when the depth is not 1 or 2 bits. Above 256 there is no compression. |
| Selection.Candidates | src/CMSXimg.cpp:410-422 | The candidate table of the benchmark holds ten entries and every compressor, so each compressor is tried once. |
| Selection.Trials | src/CMSXimg.cpp:427-443 | Every compatible candidate whose run succeeds has its trial listed, and every listed trial is such a candidate with the byte count its run produced. There are never more trials than candidates. |
| Selection.TrialsPrefix | src/CMSXimg.cpp:427-454 | Table order: the trials of the first k candidates are a prefix of all the trials. |
| Selection.Keep | src/CMSXimg.cpp:438-442 | The kept trial is the old one or the new one. When nothing is kept yet, the new one wins. Otherwise the kept count is at most both counts, and a tie keeps the earlier trial. |
| Selection.Benchmark | src/CMSXimg.cpp:424-443 | With no successful run, the kept trial is (none, 0). Otherwise it is one of the successful runs. |
| Selection.BenchmarkFindsFirstMinimum | src/CMSXimg.cpp:424-443 | When no run produced 0 bytes, the kept compressor is the first one in table order with the smallest byte count. |
| Selection.BenchmarkIsMinimum | src/CMSXimg.cpp:424-443 | When no run produced 0 bytes, the kept count is at most the count of every compatible candidate whose run succeeded. |
| Selection.ZeroSizeIsOverwritten | src/CMSXimg.cpp:438-442 | A run that produced 0 bytes is kept, then replaced by the next successful run whatever its size. |
| Selection.TrialsStep | src/CMSXimg.cpp:427-435 | One more candidate adds its trial exactly when it is compatible and its run succeeds. |
| Selection.BenchmarkStep | src/CMSXimg.cpp:438-442 | One more successful run is kept when nothing is kept yet or its count is strictly smaller. |
| Selection.BenchmarkTrialsStep | src/CMSXimg.cpp:427-443 | The kept trial after one more candidate, from the kept trial before it. |
| Selection.BestSelect | src/CMSXimg.cpp:410-457 | The loop's result equals `Benchmark` over the candidate table. It is (none, 0) when no run succeeds. When no run produced 0 bytes, it is the first smallest run, and its count is at most that of every compatible candidate whose run succeeded. |
| Driver.ValidBpc | src/CMSXimg.cpp:486-490 | The accepted depths 1, 2, 4 and 8 are exactly the depths from 1 to 8 that divide 8, i.e. that pack whole pixels into a byte. |
| Driver.PaletteLimit | src/CMSXimg.cpp:524-533 | Only 2- and 4-bit colour limit the palette count. The limit is 2^bpc - 1, since index 0 is transparent. |
| Driver.DefaultPalCount | src/CMSXimg.cpp:360-366 | -1 becomes the depth's limit at 2 or 4 bits. Any other count, or any other depth, is unchanged. |
| Driver.ClampPalCount | src/CMSXimg.cpp:524-533 | The count never exceeds the depth's limit. A count within the limit is unchanged, and one above it becomes the limit. |
| Driver.Corrected | src/CMSXimg.cpp:500-519 | The corrected compressor always satisfies `Allowed`. An allowed compressor is unchanged. RLE4 at 8 bits always becomes RLE8. Otherwise the result is the compressor itself or none. |
| Driver.CorrectedIdempotent | src/CMSXimg.cpp:500-519 | Correcting twice gives the same as correcting once. |
| Driver.CorrectCompressor | src/CMSXimg.cpp:500-519 | The four ordered checks together give `Corrected`, and no other field changes. |
| Driver.ClampPalette | src/CMSXimg.cpp:524-533 | The two checks together give `ClampPalCount`, and no other field changes. |
| Driver.DefaultExtension | src/CMSXimg.cpp:469-479 | C gets ".h", assembler ".asm" and binary ".bin"; each has a single leading '.'. |
| Driver.DerivedName | src/CMSXimg.cpp:469-479 | The default output name (the input without its extension, plus the format's extension) has the input's stem and contains the format's extension. |
| Driver.ValidateOutput | src/CMSXimg.cpp:462-495 | Fails exactly on a missing input, a missing output under "auto", a bad colour depth or a missing copyright file. Each error is reported exactly when every earlier check has passed. A given output name is kept. A derived name is the input's name without its extension plus the format's default extension, so it keeps the input's stem. |
| Driver.Dispatch | src/CMSXimg.cpp:543-575 | An explicit format picks its exporter. Under "auto" the first matching extension group wins (C, then assembler, then binary). When no group matches, the image is converted instead. |
| Driver.SubstringMatchWinsOverSuffix | src/CMSXimg.cpp:545-557 | Under "auto", "gfx.sprites.bin" goes to the assembler exporter. |
| Driver.Requested | src/CMSXimg.cpp:370-458 | The best selection overrides the auto selection, which overrides the given compressor. The best selection gives none when no run succeeds, and otherwise a compatible compressor whose run succeeded. |
| Driver.ApplyPaletteDefault | src/CMSXimg.cpp:360-366 | Only the palette count changes, to `DefaultPalCount`. |
| Driver.SelectCompressor | src/CMSXimg.cpp:370-458 | Only the compressor changes. The best selection overrides the auto selection, which overrides the given one. |
| Driver.Prepare | src/CMSXimg.cpp:360-575 | Fails exactly when validation fails, with the same error. On success, only the output name, the compressor and the palette count change. The compressor is the corrected requested one, the palette count is defaulted then clamped, and the exporter is the one `Dispatch` picks. |
| Driver.DefaultsNeedNoCorrection | src/exporter.h:78-99 | The default parameters pass the depth check. Correction and auto selection leave them as they are. |
| Exporters.WordBytes | src/exporter.h:513-518 | A word is written as two bytes. |
| Exporters.WordBytesLittleEndian | src/exporter.h:513-518 | The low byte followed by the high byte rebuilds the word. |
| Exporters.Weight | src/exporter.h:569-576 | A call adds nothing to the counter exactly when it only frames the data. A data call adds at most 4. |
| Exporters.Bytes | src/exporter.h:494-538 | For every call, the binary exporter appends exactly as many bytes as a counting exporter adds to its counter. |
| Exporters.EmittedAppend | src/exporter.h:494-538 | One more call appends exactly its bytes to the binary output. |
| Exporters.CountedAppend | src/exporter.h:569-576 | One more call adds exactly its weight to the counter. |
| Exporters.EmittedLength | src/exporter.h:494-538 | For any call sequence, the binary output's length is the counted total. |
| Exporters.ExporterBin.constructor | src/exporter.h:490 | Starts with no output and a count of 0. |
| Exporters.ExporterBin.GetTotalBytes | src/exporter.h:136 | The counter is the length of the output, and the counted total of the calls. |
| Exporters.ExporterBin.WriteHeader | src/exporter.h:491 | Writes nothing. |
| Exporters.ExporterBin.WriteTableBegin | src/exporter.h:492 | Writes nothing. |
| Exporters.ExporterBin.WriteSpriteHeader | src/exporter.h:493 | Writes nothing. |
| Exporters.ExporterBin.Write1ByteLine | src/exporter.h:494-498 | Appends the byte and adds 1. |
| Exporters.ExporterBin.Write2BytesLine | src/exporter.h:499-504 | Appends both bytes in order and adds 2. |
| Exporters.ExporterBin.Write4BytesLine | src/exporter.h:505-512 | Appends the four bytes in order and adds 4. |
| Exporters.ExporterBin.PushWord | src/exporter.h:515-516 | Appends the low byte, then the high byte. |
| Exporters.ExporterBin.Write1WordLine | src/exporter.h:513-518 | Appends the word low byte first and adds 2. |
| Exporters.ExporterBin.Write2WordsLine | src/exporter.h:519-526 | Appends both words, each low byte first, and adds 4. |
| Exporters.ExporterBin.WriteLineBegin | src/exporter.h:527 | Writes nothing. |
| Exporters.ExporterBin.Write1ByteData | src/exporter.h:528-532 | Appends the byte and adds 1. |
| Exporters.ExporterBin.Write8BitsData | src/exporter.h:533-537 | Appends the byte and adds 1. |
| Exporters.ExporterBin.WriteLineEnd | src/exporter.h:538 | Writes nothing. |
| Exporters.ExporterBin.WriteTableEnd | src/exporter.h:539 | Writes nothing. |
| Exporters.ExporterDummy.constructor | src/exporter.h:565 | Starts with a count of 0. |
| Exporters.ExporterDummy.GetTotalBytes | src/exporter.h:136 | The counter is the counted total of the calls received. |
| Exporters.ExporterDummy.WriteHeader | src/exporter.h:566 | Counts nothing. |
| Exporters.ExporterDummy.WriteTableBegin | src/exporter.h:567 | Counts nothing. |
| Exporters.ExporterDummy.WriteSpriteHeader | src/exporter.h:568 | Counts nothing. |
| Exporters.ExporterDummy.Write1ByteLine | src/exporter.h:569 | Adds 1. |
| Exporters.ExporterDummy.Write2BytesLine | src/exporter.h:570 | Adds 2. |
| Exporters.ExporterDummy.Write4BytesLine | src/exporter.h:571 | Adds 4. |
| Exporters.ExporterDummy.Write1WordLine | src/exporter.h:572 | Adds 2. |
| Exporters.ExporterDummy.Write2WordsLine | src/exporter.h:573 | Adds 4. |
| Exporters.ExporterDummy.WriteLineBegin | src/exporter.h:574 | Counts nothing. |
| Exporters.ExporterDummy.Write1ByteData | src/exporter.h:575 | Adds 1. |
| Exporters.ExporterDummy.Write8BitsData | src/exporter.h:576 | Adds 1. |
| Exporters.ExporterDummy.WriteLineEnd | src/exporter.h:577 | Counts nothing. |
| Exporters.ExporterDummy.WriteTableEnd | src/exporter.h:578 | Counts nothing. |
| Exporters.ExporterText.constructor | src/exporter.h:190 | Starts with empty text and a count of 0. |
| Exporters.ExporterText.GetTotalBytes | src/exporter.h:136 | The counter is the counted total of the calls received. |
| Exporters.ExporterText.GetNumberFormat | src/exporter.h:192-208 | C: "%3u" exactly for decimal, otherwise "0x" hexadecimal with 2 digits per byte. Assembler: "%3u" exactly for decimal and binary; "0x", "0…h" or "$" notation for the other hex formats; "#" with 2 digits for the sharp format whatever the width (lines 345-363). |
| Exporters.ExporterText.WriteHeader | src/exporter.h:210-224 | Appends the header block and counts nothing. |
| Exporters.ExporterText.WriteTableBegin | src/exporter.h:226-235 | Appends exactly the C array opening, or the assembler label (lines 381-389), with the comment line. Counts nothing. |
| Exporters.ExporterText.WriteSpriteHeader | src/exporter.h:237-242 | Appends the sprite comment, whose offset is the byte count so far. Counts nothing. |
| Exporters.ExporterText.Write1ByteLine | src/exporter.h:262-269 | Appends the formatted line and adds 1. |
| Exporters.ExporterText.Write2BytesLine | src/exporter.h:253-260 | Appends the formatted line and adds 2. |
| Exporters.ExporterText.Write4BytesLine | src/exporter.h:244-251 | Appends the formatted line and adds 4. |
| Exporters.ExporterText.Write1WordLine | src/exporter.h:271-278 | Appends the formatted line and adds 2. |
| Exporters.ExporterText.Write2WordsLine | src/exporter.h:280-287 | Appends the formatted line and adds 4. |
| Exporters.ExporterText.Write1ByteData | src/exporter.h:294-300 | Appends the formatted value and adds 1. |
| Exporters.ExporterText.Write8BitsData | src/exporter.h:302-317 | Appends the formatted value and adds 1. |
| Exporters.ExporterText.WriteLineBegin | src/exporter.h:289-292 | Appends a tab in C and "\t.db " in assembler (lines 443-446). Counts nothing. |
| Exporters.ExporterText.WriteLineEnd | src/exporter.h:319-322 | Appends a newline and counts nothing. |
| Exporters.ExporterText.WriteTableEnd | src/exporter.h:324-333 | C closes the array and then adds the comment line, if any. Assembler adds only the comment line (lines 469-477). Counts nothing. |
| Exporters.ProbeAgreesWithBinary | src/exporter.h:562-581 | Given the same calls, the probe's count equals the binary exporter's count and its output length. |
| Exporters.TextAgreesWithBinary | src/exporter.h:143-182 | Given the same calls, a text exporter's count equals the binary exporter's output length. |

## Left out

- Command-line parsing, the help text and all console messages, warnings included, are not modelled. The model starts from the parsed parameters and the "-format", "-compress auto" and "-compress best" choices.
- The existence of the copyright file is a file-system query. It is the boolean parameter `copyMissing` of `ValidateOutput` and `Prepare`.
- `IsCompressorCompatible` is declared in exporter.h:106 but not defined in the files modelled. `ParseImage` is declared in `parser.h`, which is not part of this model. The model takes both as the function parameters `compatible` and `run` of `BestSelect`. `ParseImage` receives a mutable pointer to the parameters (CMSXimg.cpp:434). The model assumes it leaves them unchanged, so `compatible` and `run` depend only on the candidate compressor.
- Image loading and saving (FreeImage), `ParseImage` itself, dithering, quantisation and the compressors' encoders are not part of this model. `Dispatch` only names the exporter or the image conversion that runs next.
- The `Export` methods write files and are left out. The model's result is the `outData` each exporter has built.
- Exporters.ExporterText: the text of the data writers and of the header comes from printf-style formatting, which is not modelled. Those writers take the formatted text as a parameter `text`, and `WriteSpriteHeader` takes a formatting function. This means the model does not show that the assembler `Write2WordsLine` formats its words with the one-byte conversion (exporter.h:437). The fixed framing strings are modelled exactly.
- The text exporters format into 1024-character buffers with `sprintf_s`. Text too long for a buffer does not truncate: `sprintf_s` empties the buffer and calls the invalid-parameter handler, which by default ends the process. The model has no buffer bound and appends any text, so it does not capture this failure.
- `ExporterC` and `ExporterASM` are one class, `ExporterText`, that carries a language tag.
- GetNumberFormat of ExporterBin and ExporterDummy returns NULL. It is left out because neither exporter uses it.
- Exporters.ExporterBin.GetTotalBytes: `TotalBytes` is a 32-bit unsigned counter in the source, but here it is an unbounded `nat`. The model does not capture wrap-around after 2^32 bytes, which no sprite sheet reaches.
- Selection.BestSelect: byte counts are unbounded `nat`s, not the source's 32-bit `u32`.
- The `i32` fields of `ExportParameters` are unbounded integers. The source never does arithmetic on them that could overflow in the modelled code.
