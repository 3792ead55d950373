# enms-demo: verified model of the analysis, tip, report and simulator cores

This project models, in Dafny, the parts of the enms-demo energy-monitoring
system for 3D-printer farms whose behaviour can be stated exactly:

- **G-code analysis** (`python-api/gcode_analyzer.py`):
  - `Qoi`: the hand-written QOI image decoder. It is a `while` loop over the byte
    stream with a 64-slot colour cache held in an `array`. It is proved equal to a
    functional decoder, and that decoder is proved against the format: header
    checks, pixel count, each chunk kind, run handling, cache discipline, the
    padding policy for a stream that runs out, and a round trip through an encoder.
  - `Thumbnail`: the decision logic of `extract_thumbnail`:
    - the first QOI preview with the largest area wins;
    - the `"; "` prefixes and newlines are stripped from its payload;
    - the PNG fallback's base64 text is filtered and padded to a multiple of four.
  - `Metadata`: the print-time parser (a unit-weighted sum of `d`/`h`/`m`/`s`
    tokens) and the `; key = value` comment reader, where the last definition wins.
  - `PartVolume`: the per-object bounding-box accumulator, with volumes and shares.
- **Smart tips** (`python-api/smart_tips_system.py`): the 24-rule table with
  priorities, status guards and the conditions under which a rule or its message
  raises. `EvaluateSmartTips` collects the applicable rules in a loop and returns
  the first one of highest priority.
- **Report plants** (`python-api/pdf_service.py`):
  - the growth-stage lookup over the threshold table;
  - the plant picture path;
  - the guard logic of the garbled file name clean-up.
- **Demo devices** (`realtime_demo_generator.py`): the `DeviceState` class, with
  the five-state transition function driven by random draws passed in as
  parameters.

`common.dfy` holds the shared Python string operations: `strip`, `split('\n')`,
`join`, `lower` and substring tests.

Python numbers are modelled as unbounded integers and exact reals. Regular
expressions are written out as the scanners they amount to.

In `clean_filename` the slice `[9:-1]` begins one character after the
eight-character `namen_b'` prefix. The model keeps this: see
`Plants.NinthCharacterSkipped`.

## Model

| member | source | states |
|---|---|---|
| Qoi.Decode | python-api/gcode_analyzer.py:10-55 | InvalidData exactly when the input is shorter than 14 bytes or lacks `qoif`; with a valid header it still fails with IndexOutOfRange when a chunk is cut off (see Qoi.TruncatedSinglePixelFails); when decoding succeeds, width and height are the big-endian u32 at bytes 4 and 8, channels is byte 12, and exactly `PixelCount(width, height)` pixels are produced |
| Qoi.PixelCountIsProduct | python-api/gcode_analyzer.py:21 | the pixel count the loop aims for is width × height |
| Qoi.DecodeQoi | python-api/gcode_analyzer.py:10-55 | the imperative decoder returns exactly `Decode(data)` |
| Qoi.DecodePixels | python-api/gcode_analyzer.py:16-55 | the loop, with its cache in an array, computes the decoding function from the initial state (index 14, previous pixel (0,0,0,255), cache of 64 × (0,0,0,0)) |
| Qoi.ReadNextChunk | python-api/gcode_analyzer.py:30-52 | reading one chunk from the array cache agrees with the functional chunk reader, including the IndexError cases of truncated multi-byte chunks |
| Qoi.ReadChunk | python-api/gcode_analyzer.py:30-52 | the functional chunk reader for the six chunk kinds, with IndexError for a multi-byte chunk cut off by the end of the data; its effect per kind is stated by Qoi.ReadChunkOfOp, and Qoi.ChunkIsOp proves the converse |
| Qoi.Remember | python-api/gcode_analyzer.py:54-55 | the new pixel is stored at slot (3r+5g+7b+11a) mod 64 and the other 63 slots are unchanged |
| Qoi.Hash | python-api/gcode_analyzer.py:54 | the cache slot is below 64 |
| Qoi.U32BE | python-api/gcode_analyzer.py:13-14 | a big-endian read of four bytes is below 2^32 |
| Qoi.Be32 | python-api/gcode_analyzer.py:13-14 | writing a u32 big-endian and reading it back gives the number |
| Qoi.Emit | python-api/gcode_analyzer.py:53-55 | the output grows by the previous pixel, which lands in its hash slot; nothing else changes |
| Qoi.Iterate | python-api/gcode_analyzer.py:22-55 | a successful loop yields exactly `count` pixels that extend the pixels already produced; the only failure is IndexError |
| Qoi.IterateRun | python-api/gcode_analyzer.py:23-24 | proof step: unfolds `Iterate` for a pending run, which emits the previous pixel without reading input |
| Qoi.IteratePad | python-api/gcode_analyzer.py:26-29 | proof step: unfolds `Iterate` once the read position is at or past len−1 with two or more pixels missing, when the previous pixel is emitted |
| Qoi.IterateChunk | python-api/gcode_analyzer.py:30-55 | proof step: unfolds `Iterate` in the remaining case, where one chunk is read; its IndexError ends the decoding, else its pixel is emitted and the loop goes on |
| Qoi.ReadChunkOfOp | python-api/gcode_analyzer.py:32-52 | each chunk kind decodes as the format defines: RGB keeps alpha, RGBA sets all channels, INDEX reads the slot, DIFF adds −2..1 and LUMA adds vg and vg−8..vg+7 modulo 256, RUN n starts n more repeats |
| Qoi.ChunkIsOp | python-api/gcode_analyzer.py:32-52 | conversely, every chunk the decoder accepts is the encoding of one valid chunk kind with that effect |
| Qoi.LumaIsOp | python-api/gcode_analyzer.py:44-50 | every accepted LUMA chunk is a valid LUMA encoding with that effect |
| Qoi.RunDrains | python-api/gcode_analyzer.py:23-24 | a pending run of n emits n copies of the previous pixel and leaves the cache as it is |
| Qoi.RunRepeatsPrevious | python-api/gcode_analyzer.py:51-53 | a RUN byte with low bits n yields n+1 pixels equal to the previous pixel |
| Qoi.ExhaustedStreamRepeatsLastPixel | python-api/gcode_analyzer.py:26-29 | at the end of the stream, every remaining pixel equals the last decoded pixel |
| Qoi.EmitKeepsCacheConsistent | python-api/gcode_analyzer.py:54-55 | every cache slot keeps holding either (0,0,0,0) or an emitted pixel that hashes to it |
| Qoi.StartIsCacheConsistent | python-api/gcode_analyzer.py:18-19 | the initial cache is consistent |
| Qoi.IndexChunkRecallsEarlierPixel | python-api/gcode_analyzer.py:38-39 | an INDEX chunk recalls an earlier emitted pixel or (0,0,0,0) |
| Qoi.DecodeOneOp | python-api/gcode_analyzer.py:30-55 | decoding the bytes of one valid chunk emits the chunk's pixels |
| Qoi.StreamDecodes | python-api/gcode_analyzer.py:22-55 | decoding the bytes of a chunk sequence emits exactly the pixels the sequence denotes |
| Qoi.StreamStep | python-api/gcode_analyzer.py:30-55 | the first chunk of an encoded sequence is valid, fits the input, and leaves a state from which the remaining chunks render the rest of the same pixels |
| Qoi.RoundTrip | python-api/gcode_analyzer.py:10-55 | decoding an encoded image (header, chunks, end marker) gives back its size, channel count and pixels |
| Qoi.RenderRgbaOps | python-api/gcode_analyzer.py:35-37 | a sequence of RGBA chunks denotes exactly its pixels |
| Qoi.RgbaRoundTrip | python-api/gcode_analyzer.py:10-55 | every pixel sequence of the declared size survives encoding as RGBA chunks and decoding |
| Qoi.TruncatedSinglePixelFails | python-api/gcode_analyzer.py:26-34 | a 1×1 image whose only chunk is missing raises IndexError: the padding rule needs two missing pixels |
| Qoi.ExhaustedStreamIsPadded | python-api/gcode_analyzer.py:26-29 | a 2×1 image with an empty chunk stream is padded with the start pixel |
| Thumbnail.FirstLargest | python-api/gcode_analyzer.py:74-82 | no block is chosen exactly when there are none; a chosen index is valid |
| Thumbnail.FirstLargestIsFirstMaximum | python-api/gcode_analyzer.py:77-82 | the chosen block has the largest area and every earlier block a strictly smaller one, so ties go to the first |
| Thumbnail.SelectLargest | python-api/gcode_analyzer.py:74-82 | the `max_area` loop chooses the first block of largest area |
| Thumbnail.TieGoesToFirst | python-api/gcode_analyzer.py:80 | of two 16×16 blocks the first is used |
| Thumbnail.CleanPayload | python-api/gcode_analyzer.py:86 | the cleaned payload has no newline |
| Thumbnail.CleanPayloadOfLines | python-api/gcode_analyzer.py:66-86 | the payload of `; <base64>` lines cleans to the concatenation of the base64 lines |
| Thumbnail.KeepBase64 | python-api/gcode_analyzer.py:109 | the result holds only base64 alphabet characters and is no longer than the input; Thumbnail.KeepBase64Single and Thumbnail.KeepBase64Append state that exactly the alphabet characters are kept, in their order |
| Thumbnail.KeepBase64Single | python-api/gcode_analyzer.py:109 | one character is kept exactly when it is in the base64 alphabet |
| Thumbnail.KeepBase64Append | python-api/gcode_analyzer.py:109 | filtering a concatenation is concatenating the filtered parts, so the filter removes characters without reordering or adding any |
| Thumbnail.CleanBase64 | python-api/gcode_analyzer.py:109-113 | the result is the filtered text followed by fewer than four `=`, with length a multiple of 4 (section 4 of RFC 4648) |
| Thumbnail.CleanBase64OfClean | python-api/gcode_analyzer.py:109-113 | already clean, padded base64 text is left unchanged |
| Thumbnail.CleanBase64Idempotent | python-api/gcode_analyzer.py:109-113 | cleaning twice is cleaning once |
| Thumbnail.ThumbnailOutcome | python-api/gcode_analyzer.py:62-130 | the result is None or the preview URL `/gcode_previews/<job>.png`; Thumbnail.LargestQoiDecides and Thumbnail.NoQoiFallsBackToPng state when it is the URL |
| Thumbnail.ExtractThumbnail | python-api/gcode_analyzer.py:62-130 | the method returns the outcome function's value |
| Thumbnail.QoiPathIsFinal | python-api/gcode_analyzer.py:84-99 | with a QOI payload present, the PNG block never matters, even when the QOI path fails |
| Thumbnail.LargestQoiDecides | python-api/gcode_analyzer.py:72-99 | with QOI blocks, the first block of the largest area is used; when its payload is not empty, the URL is returned exactly when the cleaned payload base64-decodes, the bytes decode as a QOI image and the image saves |
| Thumbnail.NoQoiFallsBackToPng | python-api/gcode_analyzer.py:101-130 | without QOI blocks, the URL is returned exactly when a PNG block exists, its cleaned text strictly decodes and the file is written |
| Metadata.ParseDurationToSeconds | python-api/gcode_analyzer.py:133-146 | None for a missing or empty string and for a zero total; otherwise the weighted sum of the matched tokens, which is positive |
| Metadata.Tokens | python-api/gcode_analyzer.py:137 | every match has a unit letter among d, h, m, s |
| Metadata.TokensOfRender | python-api/gcode_analyzer.py:137 | printing tokens as `<n><unit>` and scanning them gives the tokens back |
| Metadata.MatchAtNumberAndUnit | python-api/gcode_analyzer.py:137 | digits directly followed by a unit letter match as one token of that value |
| DurationSpacing.MatchAtSpacedUnit | python-api/gcode_analyzer.py:137 | digits, then any run of white space (the `\s*`), then a unit letter match as one token of the digits' value and that unit, ending just past the letter |
| DurationSpacing.TokensOfSpacedUnit | python-api/gcode_analyzer.py:137 | such a text scans as that token followed by the tokens of the rest |
| DurationSpacing.TokensAfterMatch | python-api/gcode_analyzer.py:137 | a match at the start of the text is the first token, and scanning resumes just past it |
| DurationSpacing.DigitsLenOf | python-api/gcode_analyzer.py:137 | the `\d+` run is the longest prefix of digits |
| DurationSpacing.SpacesLenOf | python-api/gcode_analyzer.py:137 | the `\s*` run is the longest prefix of white space |
| Metadata.ValueOfDecimal | python-api/gcode_analyzer.py:139 | `int()` of a printed number is the number |
| Metadata.WeightedSum | python-api/gcode_analyzer.py:138-143 | d, h, m and s tokens weigh 86400, 3600, 60 and 1 seconds |
| Metadata.HourAndHalf | python-api/gcode_analyzer.py:133-146 | "1h 30m" is 5400 seconds |
| Metadata.NoDigitsNoTokens | python-api/gcode_analyzer.py:137-144 | text without digits has no matches, so its duration is None |
| Metadata.MatchAt | python-api/gcode_analyzer.py:137 | a match spans at least two characters and ends in a unit letter; Metadata.MatchAtNumberAndUnit and DurationSpacing.MatchAtSpacedUnit state which token digits, optional white space and a unit give |
| Metadata.Seconds | python-api/gcode_analyzer.py:138-143 | the weighted sum in match order; Metadata.WeightedSum and Metadata.HourAndHalf state its weights and an instance |
| Metadata.FirstEq | python-api/gcode_analyzer.py:150 | finds the first `=`, or reports that there is none |
| Metadata.AssignmentAfter | python-api/gcode_analyzer.py:150 | a comment defines a pair exactly when at least one character precedes the first `=` (the stripped key may still be empty, as in `; = 1`) |
| Metadata.LineMatch | python-api/gcode_analyzer.py:150-155 | the key and value of one comment line; Metadata.CommentLineRoundTrip, Metadata.LineMatchAtSemicolon and Metadata.EmptyKeyLineIgnored state what it accepts |
| Metadata.Collect | python-api/gcode_analyzer.py:151-155 | the raw map, later lines overwriting earlier ones; Metadata.CollectHasKey and Metadata.CollectLastWins state its keys and values |
| Metadata.CollectHasKey | python-api/gcode_analyzer.py:151-155 | a key is in the raw map exactly when some line defines it |
| Metadata.CollectLastWins | python-api/gcode_analyzer.py:155 | the value kept for a key is that of its last defining line |
| Metadata.CommentLineRoundTrip | python-api/gcode_analyzer.py:150-155 | the line `; key = value` reads back as (key, value) for a stripped key without `=` |
| Metadata.EmptyKeyLineIgnored | python-api/gcode_analyzer.py:150 | `;=1` defines nothing, since the key group needs a character |
| Metadata.ParseSlicerMetadata | python-api/gcode_analyzer.py:148-175 | the loop builds the raw map of the split lines and the result is its four fields: the duration and three `float()` conversions of the last definitions of their keys |
| Metadata.DurationField | python-api/gcode_analyzer.py:158-159 | a reported duration is positive and comes from a defined print-time key; Metadata.LastDefinitionGivesDuration states its value |
| Metadata.MissingFieldIsNone | python-api/gcode_analyzer.py:158-174 | a key no line defines gives None, for the duration as well as for the three numbers |
| Metadata.NoKnownKeyAllNone | python-api/gcode_analyzer.py:148-175 | text in which no line defines any of the four keys gives all four fields None |
| Metadata.LastDefinitionGivesDuration | python-api/gcode_analyzer.py:151-159 | the duration comes from the value on the last line that defines the print-time key: None when that value is empty or its tokens add up to no time, else their seconds |
| Metadata.LastDefinitionConverts | python-api/gcode_analyzer.py:151-174 | a number field is the `float()` of the non-empty value on the last line that defines its key |
| Metadata.PrintTimeLine | python-api/gcode_analyzer.py:148-175 | the text `; estimated printing time (normal mode) = 1h 30m` gives a duration of 5400 seconds and no other field |
| Common.JoinSplit | python-api/gcode_analyzer.py:151 | splitting on newlines loses nothing: joining the lines gives the text back |
| Common.SplitJoin | python-api/gcode_analyzer.py:151 | splitting a join of newline-free lines gives the lines back |
| Common.StripPadded | python-api/gcode_analyzer.py:154-155 | `strip()` removes exactly the white space around a stripped text |
| Common.Split | python-api/gcode_analyzer.py:151 | `split('\n')` gives at least one piece and no piece holds a newline; Common.JoinSplit and Common.SplitJoin state that it loses nothing |
| Common.Strip | python-api/gcode_analyzer.py:154-155 | the result neither starts nor ends with white space and is no longer than the input; Common.StripPadded states that exactly the surrounding white space goes |
| Common.Lower | python-api/pdf_service.py:69 | the result has the same length and no ASCII capital; each capital becomes its small letter and every other character stays |
| Common.LowerKeepsLowerCase | python-api/pdf_service.py:69 | text without capitals is unchanged |
| Common.LowerIdempotent | python-api/pdf_service.py:69 | lowering twice is lowering once |
| Common.LowerEqualIffSameIgnoringCase | python-api/pdf_service.py:69 | two texts lower to the same text exactly when they have the same length and differ at most in the case of letters |
| PartVolume.RunEnd | python-api/gcode_analyzer.py:180 | the `[\d\.]+` scan stops at the first character outside the class |
| PartVolume.RunEndIsNumText | python-api/gcode_analyzer.py:180 | the scanned run consists of digits and dots |
| PartVolume.RunEndOf | python-api/gcode_analyzer.py:180 | a run of digits and dots followed by the end or another character is exactly what the scan takes |
| PartVolume.GroupAt | python-api/gcode_analyzer.py:180 | a group is the axis letter followed by a maximal non-empty run of digits and dots, followed by a space where the pattern has one |
| PartVolume.FirstGroupIsLeftmost | python-api/gcode_analyzer.py:180 | the lazy `.*?` takes the leftmost group position |
| PartVolume.G1Match | python-api/gcode_analyzer.py:180 | the captures are there exactly when the spans are, and each captured group is digits and dots |
| PartVolume.G1Spans | python-api/gcode_analyzer.py:180 | the matched spans are X, Y and Z groups of the line, in that order, after the `G1 ` anchor |
| PartVolume.NoGroupBefore | python-api/gcode_analyzer.py:180 | no group lies between the start of a lazy search and the group it finds |
| G1Pattern.IsG1LineIsPrefix | python-api/gcode_analyzer.py:180 | the anchor test is the `G1 ` prefix test |
| G1Pattern.G1SpansSearches | python-api/gcode_analyzer.py:180 | a match is the anchor and three lazy searches: X from position 3, Y from past the space after the X group, Z from past the space after the Y group |
| G1Pattern.G1SpansLeftmost | python-api/gcode_analyzer.py:180 | a matched line starts with `G1 `, and its X, Y and Z groups are the leftmost ones: none lies before the X group, between the X and Y groups, or between the Y and Z groups |
| G1Pattern.FirstGroupFinds | python-api/gcode_analyzer.py:180 | a lazy search finds a group whenever one starts at or after its start, no later than that one |
| G1Pattern.G1SpansComplete | python-api/gcode_analyzer.py:180 | a line starting with `G1 ` that has an X group, then a Y group, then a Z group always matches |
| PartVolume.ParseNumber | python-api/gcode_analyzer.py:206 | `float()` accepts a digits-and-dots group exactly when it has at most one dot and a digit; the value is non-negative; PartVolume.ParseNumberOfDigits and PartVolume.ParseNumberOfDecimal state the value |
| PartVolume.FractionValue | python-api/gcode_analyzer.py:206 | the digits after the decimal point are worth between 0 and 1; PartVolume.FractionValueClosedForm states the value |
| PartVolume.ParseNumberOfDigits | python-api/gcode_analyzer.py:206 | `float()` of a run of digits is their integer value |
| PartVolume.ParseNumberOfDecimal | python-api/gcode_analyzer.py:206 | `float()` of `a.b`, with `a` and `b` digit runs that are not both empty, is the value of `a` plus the value of `b` divided by 10 to the number of digits of `b` |
| PartVolume.ParseNumberOfDecimalParts | python-api/gcode_analyzer.py:206 | the same value, with the fraction read as tenths, hundredths and so on |
| PartVolume.FractionValueClosedForm | python-api/gcode_analyzer.py:206 | the digits after the point are worth their integer value divided by 10 to the number of digits |
| PartVolume.ShiftedIsDivision | python-api/gcode_analyzer.py:206 | moving a value `n` places past the point is dividing it by 10 to the `n` |
| PartVolume.DigitsValueFront | python-api/gcode_analyzer.py:206 | in a digit run the first digit is worth 10 to the number of digits after it |
| PartVolume.MoveOf | python-api/gcode_analyzer.py:204-206 | a G1 line never starts an object |
| PartVolume.Classify | python-api/gcode_analyzer.py:193-206 | which of start, end, move, failed move or other a line is, in the order the loop tests them; PartVolume.MoveOf and PartVolume.EmptyNamesRecordNothing state its cases |
| PartVolume.PointOf | python-api/gcode_analyzer.py:206 | the three conversions give a point exactly when each of them succeeds, and its coordinates are non-negative |
| PartVolume.Extend | python-api/gcode_analyzer.py:207-212 | the grown box contains the point and the old box |
| PartVolume.Record | python-api/gcode_analyzer.py:207-212 | after recording, the current part's box contains the point |
| PartVolume.Step | python-api/gcode_analyzer.py:193-212 | one turn of the loop on the accumulator; PartVolume.StepKeepsValid states the invariant it keeps and PartVolume.ProcessLine is proved equal to it |
| PartVolume.Accumulate | python-api/gcode_analyzer.py:193-212 | the whole pass; PartVolume.AccumulateValid, PartVolume.BoxesGrow, PartVolume.RecordedPointInBox, PartVolume.BoxesAreTight and PartVolume.NoneStaysNone state its properties |
| PartVolume.StepKeepsValid | python-api/gcode_analyzer.py:193-212 | one line keeps every listed part with a box, and no box without a listing |
| PartVolume.AccumulateValid | python-api/gcode_analyzer.py:193-212 | the whole pass keeps that invariant |
| PartVolume.BoxesGrow | python-api/gcode_analyzer.py:207-212 | a part's box only grows over the pass |
| PartVolume.RecordedPointInBox | python-api/gcode_analyzer.py:203-212 | every point recorded for the current part lies in that part's final box |
| PartVolume.ExtendFace | python-api/gcode_analyzer.py:207-212 | each `min`/`max` update leaves a face where it was or moves it to the point's coordinate |
| PartVolume.StepKeepsOtherBox | python-api/gcode_analyzer.py:193-212 | a line changes no box except the current part's, and that only for a point |
| PartVolume.BoxesAreTight | python-api/gcode_analyzer.py:193-212 | each of the six faces of a part's final box is the matching coordinate of some point recorded while that part was current, so with PartVolume.RecordedPointInBox each box is exactly the bounding box of its part's points |
| PartVolume.AccumulateOneMore | python-api/gcode_analyzer.py:193-212 | one more line is one more turn of the loop |
| PartVolume.NoneStaysNone | python-api/gcode_analyzer.py:206-242 | after a failed conversion the analysis is None, whatever follows |
| PartVolume.ProcessLine | python-api/gcode_analyzer.py:193-212 | one iteration of the line loop does what the step function says |
| PartVolume.RecordMove | python-api/gcode_analyzer.py:203-212 | inside an object, a G1 line grows the object's box by its point, a failed conversion ends the analysis, and any other line changes nothing |
| PartVolume.RecordPoint | python-api/gcode_analyzer.py:207-212 | the six min/max updates give the recorded box: the old box extended by the point, or the point's own box (and a new listing) for a new object |
| PartVolume.AccumulateLines | python-api/gcode_analyzer.py:193-212 | the line loop computes the accumulation of the lines' events |
| PartVolume.Volume | python-api/gcode_analyzer.py:220-223 | a box's volume is non-negative, and positive exactly when all three extents are |
| PartVolume.SummaryNoneWhen | python-api/gcode_analyzer.py:214-228 | the summary is None exactly when no part exists or the total volume is 0 |
| PartVolume.Summary | python-api/gcode_analyzer.py:214-238 | volumes, total and shares of the listed parts; PartVolume.SummaryNoneWhen and PartVolume.SharesProperties state its properties |
| PartVolume.Analyze | python-api/gcode_analyzer.py:182-242 | the summary of the accumulated lines, None after a failed conversion; PartVolume.AnalysisAlwaysNone and PartVolume.NamedObjectIsMeasured state its outcomes |
| PartVolume.SharesProperties | python-api/gcode_analyzer.py:230-238 | the total is positive; the fractions are each part's volume over the total, lie in [0, 1], sum to 1, and are ordered as the volumes are |
| PartVolume.ShareFractions | python-api/gcode_analyzer.py:230-233 | for non-negative volumes with a positive total, the fractions lie in [0, 1], sum to 1, and follow the order of the volumes |
| PartVolume.Summarize | python-api/gcode_analyzer.py:214-238 | the volume and share loops compute the summary function |
| PartVolume.MeasureParts | python-api/gcode_analyzer.py:217-225 | the volume loop lists each part's volume in order and sums them |
| PartVolume.BoxVolume | python-api/gcode_analyzer.py:220-223 | the product of the three extents when all are positive, else 0, is the box's volume |
| PartVolume.ShareParts | python-api/gcode_analyzer.py:230-233 | the share loop gives each part its volume over the total, in order |
| PartVolume.AnalyzePerPartVolume | python-api/gcode_analyzer.py:182-242 | the whole analysis computes the analysis function for a given name extraction |
| PartVolume.EmptyNamesRecordNothing | python-api/gcode_analyzer.py:194-203 | when every start line names the empty part, no point is recorded |
| PartVolume.LazyStartIsUnnamed | python-api/gcode_analyzer.py:178-196 | with the lazy group as written, every start line names the empty part |
| PartVolume.LazyName | python-api/gcode_analyzer.py:178 | the name the lazy group `(.*?)` captures; PartVolume.LazyStartIsUnnamed states it is empty |
| PartVolume.AnalysisAlwaysNone | python-api/gcode_analyzer.py:178-215 | as written, the analysis is None for every G-code text |
| PartVolume.GreedyStartNamesObject | python-api/gcode_analyzer.py:178-196 | with a greedy group, a start line names the stripped rest of the line |
| PartVolume.GreedyName | python-api/gcode_analyzer.py:178 | the name a greedy `(.*)` would capture; PartVolume.GreedyStartNamesObject states it is the stripped rest of the line |
| PartVolume.NamedObjectIsMeasured | python-api/gcode_analyzer.py:193-238 | an object started under a non-empty name, as the greedy group yields, with two moves gets their bounding box and the whole share |
| PartVolume.SinglePartSummary | python-api/gcode_analyzer.py:217-238 | a single part with positive volume gets share 1 |
| SmartTips.Detail | python-api/smart_tips_system.py:101-114 | `p.get('job_details', {}).get(k, 0)` raises exactly when job_details is present but not a dict; otherwise it gives the field or 0 |
| SmartTips.Compare | python-api/smart_tips_system.py:24-114 | an ordering comparison gives a truth value exactly when its operand is a number (otherwise Python raises TypeError) |
| SmartTips.And | python-api/smart_tips_system.py:135-144 | short-circuit `and`: a false first operand hides a raising second one |
| SmartTips.Priority | python-api/smart_tips_system.py:4-247 | every priority lies between 1 and 60 |
| SmartTips.Condition | python-api/smart_tips_system.py:8-247 | the 24 rule conditions with Python's raising; SmartTips.StatusGuard, SmartTips.IdleCandidates and SmartTips.HighEnergyConditionAtZeroProgress state its properties |
| SmartTips.Builds | python-api/smart_tips_system.py:262-268 | whether a rule's message builds without raising; SmartTips.OfflineWithoutName and SmartTips.HighEnergySkippedAtZeroProgress state where it does not |
| SmartTips.RulesDescending | python-api/smart_tips_system.py:4-247 | the table has 24 rules in strictly decreasing priority |
| SmartTips.EveryRuleListed | python-api/smart_tips_system.py:4-247 | every rule id occurs in the table |
| SmartTips.PriorityInjective | python-api/smart_tips_system.py:4-247 | no two rules share a priority |
| SmartTips.ApplicableSet | python-api/smart_tips_system.py:257-276 | the applicable rules are table rules |
| SmartTips.InApplicableSet | python-api/smart_tips_system.py:257-276 | a rule is applicable exactly when its condition is true and its message builds without raising |
| SmartTips.TryRule | python-api/smart_tips_system.py:258-276 | one `try` block adds a rule exactly when it is applicable |
| SmartTips.CollectApplicable | python-api/smart_tips_system.py:255-276 | the loop collects the applicable rules with their priorities, in table order |
| SmartTips.FirstIn | python-api/smart_tips_system.py:279-283 | the first rule of a list in a set is in both, and there is none exactly when no rule of the list is in the set |
| SmartTips.Collected | python-api/smart_tips_system.py:255-276 | every collected entry is an applicable table rule with its own priority |
| SmartTips.CollectedIsFirstIn | python-api/smart_tips_system.py:279-281 | the collected list is empty exactly when no rule applies; otherwise its head is the first applicable rule |
| SmartTips.CollectedDescending | python-api/smart_tips_system.py:280 | the collected list is already sorted by decreasing priority |
| SmartTips.FirstInIsHighest | python-api/smart_tips_system.py:279-281 | in a descending table, the first rule in a set has the highest priority of the set |
| SmartTips.ChosenFromCollected | python-api/smart_tips_system.py:279-283 | the head of the sorted collected list is the chosen tip |
| SmartTips.EvaluateSmartTips | python-api/smart_tips_system.py:250-283 | the fallback text is returned exactly when no rule applies; otherwise the returned rule applies and no applicable rule has higher priority |
| SmartTips.ChosenIsHighest | python-api/smart_tips_system.py:279-281 | a chosen rule applies and has the highest priority of the applicable rules |
| SmartTips.ChosenWhenHighest | python-api/smart_tips_system.py:279-281 | an applicable rule that no applicable rule outranks is the one chosen |
| SmartTips.FallbackNeverReturned | python-api/smart_tips_system.py:241-283 | DEFAULT_OPERATIONAL always applies, so the fallback text is never returned |
| SmartTips.StatusGuard | python-api/smart_tips_system.py:4-247 | a rule whose status test fails is false and does not apply |
| SmartTips.OfflineWithName | python-api/smart_tips_system.py:8-13 | an offline printer with a friendly name gets PRINTER_OFFLINE |
| SmartTips.OfflineWithoutName | python-api/smart_tips_system.py:8-13 | without a friendly name, formatting the offline message raises KeyError, and DEFAULT_OPERATIONAL is chosen |
| SmartTips.CoolingChoosesCoolingTip | python-api/smart_tips_system.py:203-208 | a cooling printer always gets COOLING_POST_PRINT |
| SmartTips.IdleCandidates | python-api/smart_tips_system.py:145-236 | for an idle printer only the idle rules and DEFAULT_OPERATIONAL can apply |
| SmartTips.IdleOrder | python-api/smart_tips_system.py:145-236 | for an idle printer the choice is IDLE_HIGH_CONSUMPTION, else IDLE_READY_ADVANCED, else DEFAULT_IDLE |
| SmartTips.HighEnergyConditionAtZeroProgress | python-api/smart_tips_system.py:135-144 | at 0% progress with more than 0.3 kWh the HIGH_ENERGY condition holds |
| SmartTips.HighEnergySkippedAtZeroProgress | python-api/smart_tips_system.py:135-144 | but its message divides by the progress, raising ZeroDivisionError, so the rule is never chosen then |
| SmartTips.NotApplicableNeverChosen | python-api/smart_tips_system.py:257-283 | a rule that does not apply is never chosen |
| SmartTips.RaisingRuleSkipped | python-api/smart_tips_system.py:270-272 | a rule whose condition raises is skipped |
| Plants.ThresholdsAscending | python-api/pdf_service.py:49-53 | the 19 thresholds strictly increase and the last is the cycle length 1.0 |
| Plants.Effective | python-api/pdf_service.py:54-57 | the position in the cycle, `kwh % 1.0`, lies in [0, 1), and is 0 for a non-number |
| Plants.GetPlantStage | python-api/pdf_service.py:51-64 | the downward search returns the stage function's value |
| Plants.PlantStage | python-api/pdf_service.py:51-64 | the stage lies in 1..19 |
| Plants.StageOneIff | python-api/pdf_service.py:59-60 | stage 1 is shown exactly below the first threshold 0.003 |
| Plants.Stage | python-api/pdf_service.py:57-64 | the stage of an effective energy lies in 1..19; Plants.StageInterval states which stage each band gives |
| Plants.StageInterval | python-api/pdf_service.py:61-63 | stage s ≥ 2 is shown exactly between thresholds s−2 and s−1: the last reached threshold i gives min(i+2, 19) |
| Plants.StageCount | python-api/pdf_service.py:61-63 | within a cycle the stage is one more than the number of thresholds reached |
| Plants.ReachedUpTo | python-api/pdf_service.py:61-63 | when threshold i is the last reached, exactly i+1 thresholds are reached |
| Plants.NotNumberIsStageOne | python-api/pdf_service.py:54 | a non-numeric energy gives stage 1 |
| Plants.StageMonotone | python-api/pdf_service.py:57-63 | more energy within a cycle never gives an earlier stage |
| Plants.StageCycles | python-api/pdf_service.py:53-57 | adding whole cycles does not change the stage |
| Plants.PlantFolder | python-api/pdf_service.py:69-84 | the folder is corn, sunflower or tomato when the case-folded type names it, and generic_plant otherwise, including for a missing type |
| Plants.MaxStages | python-api/pdf_service.py:73-84 | every plant has between 7 and 21 stage images |
| Plants.ShownStage | python-api/pdf_service.py:86-87 | the shown stage lies in 1..max for the plant, and is the lookup stage unless capped at the maximum |
| Plants.PaddedStage | python-api/pdf_service.py:88 | every stage below 100 pads to two digits that read back as the stage |
| Plants.DecimalRoundTrip | python-api/pdf_service.py:88 | `str()` of a number reads back as the number |
| Plants.GetPlantImageSrc | python-api/pdf_service.py:66-90 | the path is `file:///app/artistic-resources/plants/<f>/<f>_stage_<dd>.png` where `f` is one of the four folders for the plant type, `dd` are two digits that read back as the shown stage, and that stage lies between 1 and the folder's number of stages |
| Plants.ImagePath | python-api/pdf_service.py:88-90 | the `os.path.join` of the picture; Plants.ImagePathInjective states that it determines folder and stage |
| Plants.ImagePathInjective | python-api/pdf_service.py:88-90 | the path determines folder and stage |
| Plants.ImageStageExists | python-api/pdf_service.py:86-90 | every path names an existing stage image of one of the four folders |
| Plants.SunflowerCapped | python-api/pdf_service.py:76-87 | a sunflower shows at most stage 7 |
| Plants.PlantTypeIgnoresCase | python-api/pdf_service.py:69 | plant types differing only in letter case give the same picture |
| Plants.Payload | python-api/pdf_service.py:24 | the slice `[9:-1]` keeps all but the first nine characters and the last one, and is empty for names shorter than 10 characters |
| Plants.JoinIds | python-api/pdf_service.py:30 | the joined ids are empty exactly when every id is empty |
| Plants.CleanFilename | python-api/pdf_service.py:19-34 | the name comes back unchanged when it is not non-empty text, lacks the `namen_b'` prefix or the closing quote, or the decoding fails; otherwise it is the joined model ids, or "Multi-Part Print" when they are all empty |
| Plants.CleanedName | python-api/pdf_service.py:29-31 | a decoded name with no model id becomes "Multi-Part Print", and one with an id becomes the ids joined |
| Plants.NinthCharacterSkipped | python-api/pdf_service.py:22-24 | the character just after the prefix is never decoded |
| Device.CategoryOf | realtime_demo_generator.py:58-70 | Mini exactly when the id contains "Mini"; Large exactly when it does not but contains "XL" or "Voron" |
| Device.PowerRange | realtime_demo_generator.py:72-79 | every power range is (low, high) with 0 < low < high |
| Device.DemoDevicesAreStandard | realtime_demo_generator.py:25-59 | every demo id is lower case, so all 32 demo printers are Standard |
| Device.StandardId | realtime_demo_generator.py:58-70 | an id without capital letters is Standard, because the tests are case-sensitive |
| Device.OfflineEvent | realtime_demo_generator.py:127-131 | the device is offline afterwards exactly when it was already or the 1% draw hits; going offline clears the file, and nothing else changes |
| Device.StepKeepsOk | realtime_demo_generator.py:85-133 | an update keeps progress in [0, 100] and the material in the list; a file from the list is loaded exactly while heating, printing or cooling |
| Device.CompletionOnlyFromPrinting | realtime_demo_generator.py:85-95 | True is returned exactly when a printing device's progress reaches 99.5; it is then cooling at exactly 100, with the offline draw not applied |
| Device.ProgressAdvances | realtime_demo_generator.py:88 | while printing, progress never passes 100, and an unfinished print advances by the drawn step |
| Device.OneTransition | realtime_demo_generator.py:85-131 | after an update the status is the old one, the one its own branch leads to, or Offline |
| Device.OfflineLeavesOnlyToIdle | realtime_demo_generator.py:121-131 | an offline device stays offline or becomes idle, and nothing else of it changes except a cleared file |
| Device.HeatingStartsPrint | realtime_demo_generator.py:97-102 | heating turns into printing at progress 0, with the start time now |
| Device.IdleStartsJob | realtime_demo_generator.py:112-118 | an idle device starts heating with the drawn file and material, with the start time now |
| Device.FileCleared | realtime_demo_generator.py:105-131 | stopping cooling, or going offline, clears the file |
| Device.Step | realtime_demo_generator.py:81-133 | one `update_state` on a snapshot; Device.StepKeepsOk, Device.OneTransition, Device.CompletionOnlyFromPrinting and Device.FileCleared state its properties |
| Device.DeviceState.constructor | realtime_demo_generator.py:51-60 | a new device is idle or offline, has a listed material, no file and progress 0, and its size flags match its id |
| Device.DeviceState.PrinterCategory | realtime_demo_generator.py:62-70 | the category property is the category of the device id |
| Device.DeviceState.GetPowerRange | realtime_demo_generator.py:72-79 | the power range is that of the device's category |
| Device.DeviceState.GetTemperatures | realtime_demo_generator.py:135-146 | both temperatures are None exactly when the device is not printing, heating or cooling; otherwise they lie in 180–230/50–80 °C when hot and 40–100/30–50 °C when cooling |
| Device.DeviceState.UpdateState | realtime_demo_generator.py:81-133 | the update changes the device as the transition function says, returns its completion flag, and keeps the device consistent |

## Left out

- Image conversion and file output are left out. This covers PIL's `Image.new`/`putdata`/`save`, the PNG write, `os.makedirs` and the stderr messages. Whether saving or writing succeeds is a boolean parameter of `Thumbnail.ThumbnailOutcome`.
- `base64.b64decode`, lenient and strict, is a parameter. The UTF-8 and JSON decoding inside `clean_filename` are also a parameter, as is Python's `float()`. Each returns None where Python raises.
- The regular expressions that find thumbnail blocks in the G-code text are left out. These are the QOI block pattern, the PNG block pattern and the two substitutions that cut the begin and end lines. The matches are inputs.
- Python floats are modelled as exact reals. Rounding of shares to four decimals (`round(..., 4)`) and of temperatures to one decimal is left out. NaN and infinities are left out too.
- `round` in power and temperature values is left out.
- Python's `str.lower()` is modelled on ASCII letters only. This is exact for comparing against "corn", "sunflower" and "tomato".
- Unicode digits, which `\d` and `int()` accept, are left out. The scanners accept ASCII digits only.
- The rendered tip texts, with their f-string formatting, are left out. The model returns the chosen rule id and keeps only whether building the message raises.
- Smart-tip values are null, numbers, strings or dictionaries. Booleans count as the numbers 0 and 1. Lists are left out: no rule reads one, and a list where a rule expects a dictionary would make `.get` raise, which the model has no value for.
- SmartTips.Mul: multiplying a string by a number does not raise in Python; the model treats it as raising. No rule's outcome depends on this, since every product is then compared with a number, which raises either way.
- SmartTips.EvaluateSmartTips: the stable sort by decreasing priority is modelled as picking the first entry of highest priority. This is what `sort(reverse=True)[0]` gives for the distinct priorities of the table.
- Part volumes: the G1 pattern is proved to match exactly when the line starts with `G1 ` and X, Y and Z groups follow in order, and to take the leftmost such groups. The value of each coordinate is stated for any digit run with at most one dot; no lemma works through a particular slicer move line end to end.
- `get_power` and the random choices' distributions are left out. So are the initial spread of states in `initialize_device_states`, `update_all_devices`, the database inserts, the HTTP call to the report service and `main`. The random draws are parameters of `Device.DeviceState.UpdateState`. The clock reading `datetime.now()` is the parameter `now`.
- The `cumulative_energy_wh` field is kept but never updated. Its updates live in `update_all_devices`, which is left out.
- `generate_pdf_for_job` is left out: it is database, template and PDF rendering work.
- The console messages `update_state` prints on each transition and on going offline are left out: they change no state.

## Findings

| source | as written | input that shows it | evidently intended | confidence | as-written member | corrected member |
|---|---|---|---|---|---|---|
| python-api/gcode_analyzer.py:178 | `OBJECT_START_RE` ends in the lazy group `(.*?)`. It matches the empty string, so every object name is `''`, which is falsy. No coordinate is ever recorded, and the analysis returns None. | `; printing object cube`, then `G1 X1 Y1 Z1 ` and `G1 X2 Y2 Z2 `, then `; stop printing object cube` | capture the rest of the line as the object name, as `(.*)` does, so the cube gets its bounding box and the whole share | not executed | PartVolume.AnalysisAlwaysNone | PartVolume.NamedObjectIsMeasured |
