# TAL parser model

A Dafny model of the Go package `tal`, a byte-level parser for EDF+
Time-stamped Annotation Lists (TALs, section 2.2.2 of the EDF+
specification). A TAL buffer is a run of blocks. Each block has:

- a signed onset number;
- optionally, an ONSET byte (0x15) followed by a duration number;
- an ANNOTATION byte (0x14);
- one or more annotation texts, each closed by an ANNOTATION byte;
- at least one END byte (0x00) of padding.

`Parse` turns such a buffer into a flat list of `(stamp, annotation)`
records. On the first error it stops and returns the records gathered so far
together with the error.

The model has four modules:

- `TalSpec` (tal_spec.dfy) holds the records, the sentinel bytes and the
  three error kinds. It has one function for each routine:
  - `FirstSentinel` models `nextToken`;
  - `StampOf` and its second half `DurationOf` model `parseStamp`;
  - `AnnotationOf` models `parseAnnotation`;
  - `ParseSpec` and `AnnotationsFrom` model `Parse`. These two are mutually
    recursive and stand for `Parse`'s outer loop (a stamp is expected) and its
    inner loop (an annotation under the current stamp is expected).

  Lemmas beside these functions state what each outcome says about the input.
- `TalParser` (tal_parser.dfy) holds the routines as the Go code writes them:
  methods with `while` loops over an immutable byte sequence. Each method is
  proved to return exactly what its `TalSpec` function describes.
- `TalProperties` (tal_properties.dfy) describes well-formed TAL text with an
  encoder: `Block` and `Encode` turn blocks into the bytes they occupy. It
  proves the following in both directions:
  - well-formed blocks parse back to exactly their records, and keep their
    records whatever follows them, as long as what follows does not start
    with END (extra END bytes are more padding of the last block);
  - a parse that succeeds was given well-formed blocks.

  It also proves what happens when the last block has no padding.
- `TalExamples` (tal_examples.dfy) restates the cases of tal_test.go as
  lemmas about the model.

`strconv.ParseFloat` and the scaling to `time.Duration` together form the
number reader. It is the parameter `num: Bytes -> Option<Duration>`, and
nothing is assumed about which texts it accepts. When it rejects a text, the
model returns `NumberFormat(text)`. Each example states the readings it relies
on.

## Model

| member | source | states |
|---|---|---|
| TalSpec.FirstSentinel | tal.go:161-175 | the position where `nextToken`'s scan stops, never beyond the end of the slice; `FirstSentinelIsFirst` proves it is the first sentinel, or the length when there is none |
| TalParser.NextToken | tal.go:161-175 | the scan stops at or before the end, no byte before the stop is END, ANNOTATION or ONSET, `end` holds exactly when the scan reached the end, otherwise the byte there is a sentinel, and the stop is `FirstSentinel` |
| TalSpec.FirstSentinelIsFirst | tal.go:161-175 | the position `FirstSentinel` returns is the first sentinel (or the length), and it is the only position with that property |
| TalSpec.FirstSentinelPrefix | tal.go:161-175 | the slice before the first sentinel holds no sentinel, and the byte at that position, when there is one, is a sentinel |
| TalSpec.StampOf | tal.go:80-134 | `parseStamp` on a non-empty slice. The count never exceeds the slice; on success the count is at least 2 and the byte before it is ANNOTATION. The outcomes follow the code's order, with `k` the first sentinel: no sign gives `InvalidChar` at 0; no sentinel gives `IncompleteAnn` at the end; END gives `InvalidChar` at `k`; a rejected onset text gives `NumberFormat` at `k`; ANNOTATION gives duration 0 and count `k + 1`; ONSET hands the rest to `DurationOf` from `k + 1` |
| TalSpec.DurationOf | tal.go:109-133 | the part of `parseStamp` after ONSET. The count lies between the start and the end of the slice; on success it is past the start and the byte before it is ANNOTATION. With `e` the next sentinel: none gives `IncompleteAnn`, one that is not ANNOTATION gives `InvalidChar`, a rejected duration text gives `NumberFormat`, all at `e`; otherwise the duration is read and the count is `e + 1` |
| TalParser.ParseStamp | tal.go:80-134 | on a non-empty slice, returns exactly `StampOf`: the error and the cursor position on failure, the stamp and the consumed count on success |
| TalSpec.StampOfFailures | tal.go:85-127 | `InvalidChar` with count 0 happens exactly when the first byte is neither `+` nor `-`; `IncompleteAnn` means the whole slice was scanned without finding ANNOTATION or END; any other `InvalidChar` stops at an END byte or a misplaced ONSET byte; `NumberFormat` carries a sentinel-free text that the number reader rejects |
| TalSpec.StampOfDone | tal.go:89-133 | an accepted stamp starts with a sign; its onset text is everything before the first sentinel, which is ANNOTATION or ONSET and comes before the count; the onset is the number read from that text; after ANNOTATION the duration is 0 and the count is one past it; after ONSET the rest is the duration half |
| TalSpec.DurationOfCases | tal.go:109-129 | for the part after ONSET: every failure stops at the next sentinel; `IncompleteAnn` means no sentinel follows; `InvalidChar` means the next sentinel is END or ONSET; `NumberFormat` carries the rejected sentinel-free text; on success the duration text runs up to the ANNOTATION byte just before the count |
| TalSpec.DurationDone | tal.go:109-133 | an accepted duration ends just before an ANNOTATION byte, its text is sentinel-free, it keeps the onset, and its value is the number read from that text |
| TalProperties.StampOfEncoded | tal.go:80-134 | an encoded well-formed stamp followed by any bytes is read back as its onset and duration values, and exactly its own bytes are consumed |
| TalProperties.StampDecoded | tal.go:80-134 | every stamp `parseStamp` accepts is the encoding of a well-formed stamp (signed, sentinel-free fields the number reader accepts) occupying exactly the consumed bytes, and its value is that stamp's value |
| TalSpec.AnnotationOf | tal.go:136-159 | `parseAnnotation`. The count never exceeds the slice, and on success it exceeds the annotation's length, because the ANNOTATION byte is consumed. No sentinel gives `IncompleteAnn`, END or ONSET gives `InvalidChar`, both at the sentinel position; otherwise the result is the text before ANNOTATION and a count that covers the ANNOTATION byte and the padding run |
| TalSpec.PaddingLength | tal.go:152-156 | the number of END bytes the padding loop consumes, never more than the slice; `PaddingIsMaximal` proves it is exactly the leading run of END bytes |
| TalParser.ParseAnnotation | tal.go:136-159 | returns exactly `AnnotationOf`: the text before the first sentinel and the count including the padding loop, or the error and the stop position |
| TalSpec.AnnotationOfCases | tal.go:136-159 | on success the annotation is the sentinel-free prefix up to an ANNOTATION byte; every byte after it up to the count is END; the padding run is maximal; the count exceeds the text length plus one exactly when END follows the ANNOTATION byte. On failure the count is the first-sentinel position; `IncompleteAnn` holds exactly when the slice (empty or not) has no sentinel; `InvalidChar` holds exactly when that sentinel is END or ONSET |
| TalSpec.PaddingIsMaximal | tal.go:152-156 | the padding loop covers only END bytes, and stops at the end of the slice or at a byte that is not END |
| TalProperties.PaddingOfZeros | tal.go:152-156 | after `p` END bytes followed by a byte that is not END (or by nothing), the padding loop consumes exactly `p` bytes |
| TalProperties.AnnotationOfEncoded | tal.go:136-159 | a sentinel-free text, its ANNOTATION byte and `p` padding bytes, followed by anything that does not start with END, is read back as that text with count `text length + 1 + p` |
| TalSpec.ParseSpec | tal.go:40-78 | `Parse` where a stamp is expected (the outer loop). Empty input gives no records and no error. A stamp error ends the parse with that error and no further records; otherwise the inner loop continues after the stamp |
| TalSpec.AnnotationsFrom | tal.go:53-74 | `Parse` where an annotation under the current stamp is expected (the inner loop). An empty slice gives `IncompleteAnn` and no records. An annotation error ends the parse; otherwise the record is put in front, and then padding (`count > len(ann) + 1`) sends the parse back to `ParseSpec`, while no padding means another annotation is read |
| TalParser.Parse | tal.go:40-78 | returns exactly `ParseSpec` of the buffer (records and error); empty input gives no records and no error. The loop invariant keeps the gathered records in front of what the rest of the buffer parses to, so an error comes back with every record gathered before it |
| TalSpec.StampStep | tal.go:45-52 | a helper for the loop proof of `TalParser.Parse`. It unfolds `ParseSpec` at a cursor by one step: after a stamp of `n` bytes, `cursor + n` stays within the buffer and the parse continues as `AnnotationsFrom` there |
| TalSpec.AnnotationStep | tal.go:53-74 | a helper for the loop proof of `TalParser.Parse`. It unfolds `AnnotationsFrom` at a cursor by one step: the record is put in front of `ParseSpec` at `cursor + j` when padding was consumed (`j > len(ann) + 1`), and otherwise in front of `AnnotationsFrom` there |
| TalSpec.ParseSpecShape | tal.go:40-78 | a parse without error was given an empty buffer or one ending in END, and it returns no records exactly when the buffer is empty |
| TalSpec.AnnotationsFromShape | tal.go:53-74 | the inner loop, when it ends without error, was given a non-empty slice ending in END, and its first record carries the stamp it was given |
| TalSpec.ParseSpecClean | tal.go:40-78 | every record returned, with or without an error, has an annotation text free of sentinels |
| TalSpec.AnnotationsFromClean | tal.go:53-74 | the same for the inner loop |
| TalProperties.AnnotationsFromEncoded | tal.go:53-74 | the annotations of a block closed by padding yield one record each, in order and under the block's stamp, and then parsing resumes at the next stamp |
| TalProperties.AnnotationsFromUnpadded | tal.go:53-74 | when the annotations are not closed by padding, every one of them is still recorded, and the parse then fails with `IncompleteAnn` on the empty rest of the buffer |
| TalProperties.AnnotationsDecoded | tal.go:53-74 | an inner loop that succeeds read encoded sentinel-free annotations closed by at least one padding byte, and it returns their records under the stamp, in front of what the remainder parses to |
| TalProperties.BlockParses | tal.go:45-74 | one well-formed block parses to its records, and then parsing goes on with whatever follows it, as long as what follows does not start with END (extra END bytes are more padding of the block) |
| TalProperties.ParseConcat | tal.go:40-78 | back-to-back well-formed blocks parse to their records in buffer order, each paired with its own block's stamp; what follows them, as long as it does not start with END (extra END bytes are more padding of the last block), is parsed on its own, and its records or its error come after theirs |
| TalProperties.ParseRoundTrip | tal.go:40-78 | the encoding of well-formed blocks parses to exactly their records, without error |
| TalProperties.ParseDecoded | tal.go:40-78 | the converse: a buffer that parses without error is the encoding of well-formed blocks, and the records are exactly theirs |
| TalProperties.UnpaddedTail | tal.go:53-74 | when the last block has no padding, every record is still returned, followed by `IncompleteAnn` |
| TalExamples.AnnotationSimple | tal_test.go:8-22 | `"abcd\x14\x00"` reads as `"abcd"` with count 6 |
| TalExamples.AnnotationSequence | tal_test.go:35-42 | `"abc\x14cdb\x14\x00"` reads as `("abc", 4)` and then as `("cdb", 5)` |
| TalExamples.EmptyAnnotation | tal_test.go:43-50 | `"abc\x14\x14\x00"` reads as `("abc", 4)` and then as `("", 2)` |
| TalExamples.UnpaddedThenPadded | tal.go:145-158 | text `a` followed by ANNOTATION, and then `b` with ANNOTATION and one END byte, reads as `a` without padding and then as `b` with one padding byte |
| TalExamples.StampNoSign | tal_test.go:75-87 | `"120\x151\x14test\x14\x00"` fails with `InvalidChar` and consumes nothing |
| TalExamples.StampIncomplete | tal_test.go:89-108 | when the number reader reads `"+8"` as a number, `"+"`, `"+8\x15"` and `"+8\x151"` fail with `IncompleteAnn` at positions 1, 3 and 4 |
| TalExamples.StampInvalid | tal_test.go:110-128 | `".12\x14123\x14\x00"` fails with `InvalidChar` and consumes nothing, and `"-1\x00"` fails with `InvalidChar` at position 2 |
| TalExamples.StampBadNumber | tal_test.go:130-143 | when the number reader rejects `"-ab"` and `"ab"` and reads `"-1"` as a number, the two inputs fail with `NumberFormat` at positions 3 and 5 |
| TalExamples.ParseWithDuration | tal_test.go:159-164 | `"+120\x151\x14test\x14\x00"` parses to one record `(120s, 1s, "test")` |
| TalExamples.ParseWithoutDuration | tal_test.go:166-171 | `"+120\x14test\x14\x00"` parses to one record `(120s, 0s, "test")` |
| TalExamples.ParseSharedStamp | tal_test.go:173-179 | `"+120\x14test\x14test2\x14\x00"` parses to two records that share the stamp `(120s, 0s)` |
| TalExamples.ParseDoublePadding | tal_test.go:181-187 | `"+120.3\x150.5\x14test\x14test2\x14\x00\x00"` parses to two records under `(120.3s, 0.5s)` |
| TalExamples.ParseTwoBlocks | tal_test.go:188-195 | two back-to-back blocks parse to three records in buffer order, each under its own block's stamp |

## Left out

- The number reader (`strconv.ParseFloat` and the multiplication by `time.Second`, tal.go:100-105, 124-131) is the parameter `num`. Nothing is assumed about the syntaxes it accepts (exponents, `Inf` and so on), about floating-point rounding, or about the int64 range of `time.Duration`; `Duration` is an unbounded integer.
- The error value `unexpectedEnd` (tal.go:13) is never returned, so it is not modelled. Errors are a datatype; Go's error identity and messages are not modelled.
- Slice aliasing is not modelled: the annotation is a value, not a view into the input. On an error, the payload Go returns (the partial `TimeStamp`, or the whole input slice from `parseAnnotation`) is dropped; the model keeps only the error and the position.
- TalParser.ParseStamp: requires a non-empty slice. The Go code would panic with an index out of range on an empty slice (tal.go:85), which `Parse` never passes because of its `i < l` guard (tal.go:45).
- The EDF+ rules that this code does not check, such as time-keeping TALs or unsigned durations, are not stated.
- The test harness of tal_test.go is not modelled as code. Its cases appear only as the `TalExamples` lemmas. Each lemma states the number readings the case relies on, because the number reader is a parameter.
