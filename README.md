# Morse trainer decoder, modelled in Dafny

This project models the decoding core of the Rust Morse trainer, `src/morse.rs`.
A separate sampler records key presses as a list of pulses. Each pulse is a
press (`PULSE_HIGH`) or a release (`PULSE_LOW`) with its length in
milliseconds. Once a transmission ends, the sampler hands the list, the number
of presses and their total length to `analize_secuence`, which works in three
stages:

1. **Speed estimator** (`speed_estimator.dfy`, module `SpeedEstimator`). It
   infers words per minute from the press statistics. From that it derives
   the dot length, the dash length (three dots), the word-gap length (seven
   dots) and the tolerance (half a dot).
2. **Classifier** (`classifier.dfy`, module `Classifier`). It makes one pass
   over the pulses after the first.
   - A press adds `.` or `-` to the current letter.
   - A release longer than a dash finishes the letter.
   - A release of at least a word gap also adds the word sentinel `" "`.
   - The pending letter is always pushed at the end.
3. **Decoder** (`decoder.dfy`, module `Decoder`). It looks up each group in
   the fixed 37-entry table, taking the first match. It concatenates the
   characters found, drops groups with no entry, and trims the result the way
   Rust's `str::trim` does.

`analysis.dfy` (module `Analysis`) runs the three stages in order.
`pulses.dfy` holds the pulse record and its two status constants, and
`wrappers.dfy` holds `Option` and `Result`.

The loops of the source are kept as loops:

- `Classifier.ClassifyPulses` and `Decoder.ParseToText` mutate their buffers
  one pulse or one group at a time.
- Each is proved equal to a specification function (`Classifier.Groups`,
  `Decoder.Decode`).
- The lemmas are then proved about those functions.

The classifier's loop body (`Classifier.Step`) keeps the source's guards as
written, redundant ones included. It is proved equal to a reference
classification, `Classifier.Kind` with `Classifier.Apply`, that uses only the
plain inequalities.

The speed estimator scales the press time in `f32` (src/morse.rs:47) and then
divides in `u128` (src/morse.rs:48-52), where a zero divisor panics. Here the
scaling is exact integer arithmetic, the divisions are `u128`-style truncating
divisions on naturals, and a zero divisor becomes a `Failure`.
The classifier skips index 0 whatever it holds, and so does the model
(`Classifier.FirstPulseIgnored`); it is not assumed to be a press. With the key
up, the sampler starts timing a release on its first poll (src/main.rs:113-114)
and pushes that idle release before the first press (src/main.rs:100-108), in
the first transmission as in every later one; so index 0 is normally that idle
release. It is a press in two cases: when the key is already held down at
start-up, and when a press begins less than 2000 ms after the previous release
and is still held when the end-of-transmission wait runs out. The wait is
checked on every poll and a press does not restart it (src/main.rs:94-109,
131, 137-146), so the previous list is analysed and cleared while the key is
down, and that press becomes the first pulse of the next list (src/main.rs:120-128).
In both cases the press counts in the totals handed to the estimator, but its
mark is dropped.

The data of the source are values here:

- `Pulses.PulseInfo` is the pulse record of src/morse.rs:1-5, with its `u8`
  status kept as a byte (`Pulses.uint8`); `Pulses.PULSE_HIGH` and
  `Pulses.PULSE_LOW` are the constants of src/morse.rs:7-8.
- `SpeedEstimator.DEFAULT_WPM` and `SpeedEstimator.ONE_MINUTE` are the
  constants of src/morse.rs:11-12.
- `Decoder.MORSE_MAP` is the table of src/morse.rs:14-23, entry for entry in
  the same order.

## Model

| member | source | states |
|---|---|---|
| SpeedEstimator.EstimateTiming | src/morse.rs:47-52 | a successful estimate has dash = 3 dots, word gap = 7 dots, tolerance = half a dot, and the tolerance never exceeds the dash (so `dash - threshold` cannot underflow) |
| SpeedEstimator.ScaledTime | src/morse.rs:47 | the scaled press time, as the exact integer `T * 50 / 1000` (the source computes it in `f32`; see "Left out") |
| SpeedEstimator.ScaledTimeIsTwentieth | src/morse.rs:47 | the model's integer scaled time `T * 50 / 1000` is exactly `T / 20`, the press time in whole units of 20 ms |
| SpeedEstimator.Wpm | src/morse.rs:48 | the estimated words per minute, `(N * ONE_MINUTE) / time`, defined only for a non-zero scaled time |
| SpeedEstimator.Dot | src/morse.rs:49 | the dot time `(ONE_MINUTE * 1000) / (DEFAULT_WPM * wpm)`, defined only for a non-zero divisor |
| SpeedEstimator.FromDot | src/morse.rs:50-52 | the timing derived from a dot: dash = 3 dots, word gap = 7 dots, tolerance = half a dot, and the tolerance never exceeds the dash |
| SpeedEstimator.EstimateDefinedIff | src/morse.rs:47-49 | the first division fails exactly when T < 20 ms; the second fails exactly when 60 N < T / 20; success exactly otherwise; no presses always fails |
| SpeedEstimator.DotIsThousandOverWpm | src/morse.rs:48-49 | the dot time `60 * 1000 / (60 * wpm)` equals `1000 / wpm` |
| SpeedEstimator.ThresholdsOrdered | src/morse.rs:50-52 | tolerance <= dot + tolerance <= dash <= word gap, strictly once the dot is non-zero |
| SpeedEstimator.DotZeroIff | src/morse.rs:49 | the dot rounds down to zero exactly when the rate exceeds 1000 words per minute |
| Classifier.Step | src/morse.rs:59-78 | one iteration of the loop body, with its branches and guards as written; it needs `threshold <= dash` for the `u128` subtraction |
| Classifier.SkipFirst | src/morse.rs:58 | the pulses the loop visits, `iter().skip(1)`: everything after index 0, and nothing for an empty list |
| Classifier.Run | src/morse.rs:54-79 | the letter and the group list after the loop has visited the given pulses in order, from both buffers empty |
| Classifier.Groups | src/morse.rs:58-81 | the group list handed to the decoder: the loop over every pulse but the first, then the final push of the pending letter |
| Classifier.ClassifyPulses | src/morse.rs:54-82 | the loop, with its `continue` and its push sequence for a word gap, builds exactly `Groups`: the state after stepping every pulse but the first, plus the final push |
| Classifier.StepIsApplyKind | src/morse.rs:59-78 | the loop body as written equals the reference classification for every pulse; a press never finishes a group; a status other than 0 or 1 changes nothing |
| Classifier.RunWellFormed | src/morse.rs:59-77 | every finished group is the word sentinel or dots and dashes, and the pending letter is dots and dashes |
| Classifier.RunLength | src/morse.rs:68-77 | each letter gap finishes one group and each word gap two |
| Classifier.RunMarks | src/morse.rs:59-77 | the finished groups' marks followed by the pending letter are exactly the presses' marks, in order |
| Classifier.KeyedLength | src/morse.rs:59-64 | one mark per press, each a dot or a dash |
| Classifier.NeutralPulseInvisible | src/morse.rs:66-67 | a release no longer than a dash, or a pulse of unknown status, can be inserted anywhere without changing the buffers |
| Classifier.GroupsWellFormed | src/morse.rs:54-81 | the group list is never empty and each group is the sentinel or dots and dashes |
| Classifier.GroupsLength | src/morse.rs:68-81 | the number of groups is 1 + letter gaps + 2 × word gaps, counted after the first pulse |
| Classifier.GroupsMarks | src/morse.rs:58-81 | the groups' marks are the presses' marks after the first pulse, as many as there are presses |
| Classifier.FirstPulseIgnored | src/morse.rs:58 | the first pulse never affects the groups, whatever its status or length |
| Classifier.NeutralPulseLeavesGroups | src/morse.rs:58-67 | a neutral pulse inserted after the first pulse leaves the group list unchanged |
| Classifier.SingleGroupIff | src/morse.rs:68-81 | there is one group exactly when no release is a letter or word gap; that group is then every press's mark |
| Decoder.FirstIndex | src/morse.rs:30 | a found index is in range and holds an entry whose pattern equals the key |
| Decoder.FirstIndexIsFirst | src/morse.rs:30 | no earlier entry matches, and nothing is found exactly when no entry matches |
| Decoder.Find | src/morse.rs:30-31 | `iter().find` on the table: the text of the entry at the first matching index, or nothing |
| Decoder.GroupText | src/morse.rs:31-33 | what one group adds to the text: the found entry's text, or nothing when the search finds no entry |
| Decoder.Lookup | src/morse.rs:30-31 | the search of one group in `MORSE_MAP` |
| Decoder.Translate | src/morse.rs:27-34 | the untrimmed text: each group's table text in order, nothing for a group with no entry |
| Decoder.Decode | src/morse.rs:25-42 | the text `parse_to_text` produces: the translation of the groups, trimmed |
| Decoder.FindUnique | src/morse.rs:30-31 | with pairwise distinct patterns, the search returns each entry's own text |
| Decoder.PatternsDistinct | src/morse.rs:14-23 | the table has 37 entries with pairwise distinct patterns |
| Decoder.TextsDistinctCharacters | src/morse.rs:14-23 | every entry stands for one character, and no two entries for the same one |
| Decoder.PatternShapes | src/morse.rs:14-23 | the last entry maps `" "` to `" "`; every other pattern has one to five marks |
| Decoder.IsWhitespace | src/morse.rs:42 | `char::is_whitespace`, the test `trim` applies: the Unicode White_Space characters, tab to carriage return, space, U+0085, U+00A0, U+1680, U+2000 to U+200A, U+2028, U+2029, U+202F, U+205F and U+3000 |
| Decoder.LeadingWhitespace | src/morse.rs:42 | the count covers a whitespace prefix, and the next character is not whitespace |
| Decoder.TrailingWhitespace | src/morse.rs:42 | the count covers a whitespace suffix, and the character before it is not whitespace |
| Decoder.Trim | src/morse.rs:42 | the result is a slice of the input with only whitespace removed on either side, and it neither starts nor ends with whitespace |
| Decoder.ParseToText | src/morse.rs:25-42 | the loop, which appends each found character to a mutable string and then trims, returns exactly `Decode` of the groups |
| Decoder.TranslateAppend | src/morse.rs:29-34 | the text of joined group lists is the join of their texts |
| Decoder.TranslateSnoc | src/morse.rs:29-34 | one more group adds its own table text, or nothing, at the end |
| Decoder.TranslateThree | src/morse.rs:29-34 | three groups translate to their three texts in order |
| Decoder.UnmatchedGroupDropped | src/morse.rs:31-33 | a group with no entry contributes nothing wherever it stands |
| Decoder.TrimIdentity | src/morse.rs:42 | trimming leaves a string alone that neither starts nor ends with whitespace |
| Decoder.TrimAllWhitespace | src/morse.rs:42 | trimming a string of whitespace gives the empty string |
| Decoder.LookupFindsEntry | src/morse.rs:14-31 | every pattern of the table is found with its own entry's text, whatever its position |
| Decoder.LookupSpace | src/morse.rs:22 | the word sentinel decodes to a space |
| Decoder.NoEntryOutsideLengths | src/morse.rs:14-23 | a group of no marks or more than five marks has no entry |
| Decoder.UnknownGroups | src/morse.rs:30-33 | the empty group and `..--..` have no entry |
| Decoder.LookupS | src/morse.rs:18 | `...` stands for `S` |
| Decoder.LookupO | src/morse.rs:17 | `---` stands for `O` |
| Decoder.TranslateSos | src/morse.rs:29-34 | groups standing for S, O, S translate to `SOS` |
| Decoder.DecodeSos | src/morse.rs:14-42 | the groups `...`, `---`, `...` decode to `SOS` |
| Decoder.TranslateSpaces | src/morse.rs:29-34 | groups that each add a space or nothing produce only spaces |
| Decoder.DecodeOnlySpaces | src/morse.rs:22-42 | a group list made only of sentinels and unmatched groups decodes to the empty string |
| Decoder.PatternForIsDecoded | src/morse.rs:30-31 | with distinct patterns, the pattern found for a character is looked up as that character |
| Decoder.TranslateEncode | src/morse.rs:27-34 | with distinct patterns, translating the encoding of a text gives the text back |
| Decoder.DecodeEncode | src/morse.rs:25-42 | decoding the encoding of an encodable text gives that text, trimmed |
| Decoder.EncodeEntry | src/morse.rs:14-23 | every character of the table is encoded by its own entry's pattern; the space is encoded by the sentinel |
| Analysis.Analyze | src/morse.rs:45-83 | the analysis succeeds exactly when the estimate does and otherwise carries the estimator's error; on success there is at least one group and the text neither starts nor ends with whitespace |
| Analysis.AnalyzeSequence | src/morse.rs:45-85 | the estimate, the classifier loop and the decoder loop, run in order, return exactly `Analyze` |
| Analysis.NoPressesRejected | src/morse.rs:48-49 | a transmission with no recorded press is rejected, never divided by |
| Analysis.AnalyzedGroups | src/morse.rs:54-81 | a successful analysis builds well-formed groups, as many as the gaps dictate, whose marks are the presses' marks |
| Analysis.SosTiming | src/morse.rs:47-52 | nine presses over 1.5 s give 7 words per minute: dot 142 ms, dash 426 ms, word gap 994 ms, tolerance 71 ms |
| Analysis.RunThreeMarks | src/morse.rs:59-67 | three presses of one kind, with in-letter releases between them, add three equal marks to the letter |
| Analysis.SosGroups | src/morse.rs:54-81 | an idle release and then `... --- ...`, keyed at that rate, classify into the groups `...`, `---`, `...` |
| Analysis.AnalyzeSos | src/morse.rs:45-85 | that transmission, analysed end to end, yields those groups and the text `SOS` |

## Left out

- The sampler in src/main.rs is not part of this model. It covers GPIO, the buzzer, `Instant` timings, threads, the 2000 ms end-of-transmission wait, and the accumulation of the totals. Here the pulse list and the totals are parameters.
- SpeedEstimator.ScaledTime: the exact integer quotient `T * 50 / 1000`, which is `T / 20`, instead of the `f32` computation of src/morse.rs:47. The source's `f32` value `T / 1000.0 * 50.0` can fall one rounding step below a whole number and is then truncated by `as u128`, so for some multiples of 20 ms, the smallest being 1060 ms, the source's scaled time is `T / 20 - 1` where the model's is `T / 20`. At such totals the source's words per minute, and with them the dot, dash, word-gap and tolerance lengths, can differ from the model's (7 presses over 1060 ms: 8 words per minute and a 125 ms dot in the source, 7 and 142 ms in the model). `f32` rounding is not modelled.
- `u128` overflow: all lengths and counts are unbounded naturals. Nothing in the source wraps for realistic inputs.
- Panics: where the source divides by zero and panics (src/morse.rs:48-49), the model returns `Failure(ZeroScaledTime)` or `Failure(ZeroWpm)`.
- Logging lines: the `tracing::info!` lines (src/morse.rs:36-40, 42) print the groups and the text. `Decoder.ParseToText` returns the text instead of logging it, and the per-group log is not modelled.
- The reset constants `TOTAL_PRESSES_TIME` and `TOTAL_PRESS` (src/morse.rs:9-10) are used only by the sampler.
- The final `letter.clear()` and `array_strings.clear()` (src/morse.rs:82, 84) only empty local buffers that are about to be dropped, so the model does not show them.
- Classifier.Step: requires `threshold <= dash`. This is the condition under which the source's `u128` subtraction `dash - threshold` does not underflow, and `SpeedEstimator.EstimateTiming` guarantees it for every timing it produces.
