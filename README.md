# Etterna to osu! converter — a Dafny model of its core

This project models the core of a converter that turns Etterna (StepMania `.sm`)
charts into osu!mania beatmaps and rates them with the MinaCalc difficulty
calculator. It covers:

- **the native MinaCalc bridge**: the JNI functions that create and dispose the
  single calculator instance, pack a chart's note rows into the engine's note
  vector, and return per-rate difficulty (MSD) vectors; the Java facade over
  them (`MinaCalcNative`, `MinaCalcRaw`);
- **the Etterna chart model**: note types and their characters, note rows,
  measures, the BPM and stop timing of a chart, the timing of every row and
  note from its measure position, the chart key and the steps-cache key
  (`NoteTypes`, `NoteRows`, `NoteMeasures`, `EtternaTimings`,
  `EtternaNoteInfos`, `Vsrg`);
- **difficulty values**: an MSD vector of eight skill sets, parsing and
  printing, the best skill, the filter tags, the cached per-rate results on
  the grid of rates from 0.70 to 2.00, and the rate lookup with its rounding
  (`Msds`, `CacheStepsResults`, `CachedNoteInfos`);
- **the ffmpeg command side**: the command builder, the text helpers of
  `StringUtils`, the argument lists of the delay, rate and compression commands of `FFMPEGUtils`, `IOCommand`,
  the completion switch, `MessageBuilder` and `ExtractedProperty`
  (`CommandBuilders`, `StringUtil`, `FfmpegUtils`, `IoCommands`,
  `CompletionSwitches`, `MessageBuilders`, `ExtractedProperties`);
- **the osu! output side**: sounds, hit objects, timing points and their
  builders, the template file with its ordered change map and compiled text,
  the timing information built from an Etterna chart, and the converter's
  filters and finalisers (`Sounds`, `HitObjects`, `TimingPoints`,
  `TemplateFiles`, `TimingInfos`, `ConverterFilters`).

Objects whose fields the source updates in place (the native bridge, the
note info with its timing pass, the builders, the command builder, the
switch, the message builder, the template file) are classes whose methods
state their new state; value types are datatypes; text is `seq<char>`.
`BigDecimal` values are a `Dec(unscaled, scale)` pair where the printed form
matters and otherwise its exact rational value; the roundings of the
`DECIMAL64` context and conversions to `float` and `double` are not modelled
(each member where they can change a result is named under "Left out"; the
mean of two skills of two places and the 0.10 steps of the rate grid are
exact in that context). Outcomes that throw in the source are a `Result`
carrying the exception's kind. Spec functions over lists fold from the last
element; each method with a loop is proved equal to such a function, and the
properties are lemmas about the function.

Where the repository's own description and its code disagree, the model
follows the code:
- `getMSDForAllRates` of the native stub returns vectors of eight and then of
  four entries, not eight throughout.
- `getDefaultMSDFor` and `getMSDForRateAndGoal` of the native bridge answer
  null without initialising the engine; only the other entry points initialise.
- `CacheStepsResult.getMSDForRate` with a rate off the 0.05 grid returns the
  2.00 entry (index 13), although its comment promises an empty result
  (`CacheStepsResults.MsdForRateOffGrid`).

## Model

| member | source | states |
|---|---|---|
| MinaCalcNative.ToUnsigned | MinaCalcNative/MinaCalc-Native-FNUtils/src/Util.h:27 | the (unsigned int) cast keeps a non-negative note value and maps a negative one to value + 2^32 |
| MinaCalcNative.ToUnsignedRoundTrip | MinaCalcNative/MinaCalc-Native-FNUtils/src/Util.h:27 | the cast loses nothing: casting the unsigned mask back gives the original jint |
| MinaCalcNative.ToSignedRoundTrip | MinaCalcNative/MinaCalc-Native-FNUtils/src/Util.h:27 | every 32-bit unsigned mask is the cast of exactly one jint |
| MinaCalcNative.Calc.constructor | MinaCalcNative/MinaCalc-Native-FNUtils/src/MinaCalc.cpp:19 | a newly created engine is live |
| MinaCalcNative.HostList.constructor | MinaCalcNative/MinaCalc-Native-FNUtils/src/Util.h:42-46 | the wrapper refers to the given host list |
| MinaCalcNative.HostList.Add | MinaCalcNative/MinaCalc-Native-FNUtils/src/Util.h:48-51 | add appends one element and leaves the earlier elements as they were |
| MinaCalcNative.NativeBridge.constructor | MinaCalcNative/MinaCalc-Native-FNUtils/src/MinaCalc.cpp:8 | the global engine handle starts out null |
| MinaCalcNative.NativeBridge.IsNativelyLoaded | MinaCalcNative/MinaCalc-Native-FNUtils/src/MinaCalc.cpp:26-28 | reports true exactly when the handle is set, and changes nothing |
| MinaCalcNative.NativeBridge.InitSequence | MinaCalcNative/MinaCalc-Native-FNUtils/src/MinaCalc.cpp:17-21 | an existing engine is kept; without one, a fresh live engine is installed |
| MinaCalcNative.NativeBridge.Dispose | MinaCalcNative/MinaCalc-Native-FNUtils/src/MinaCalc.cpp:33-37 | as written: the engine is deleted but the handle still points at it, so a second dispose deletes the freed engine again (reported as a double delete) |
| MinaCalcNative.NativeBridge.DisposeAndReset | MinaCalcNative/MinaCalc-Native-FNUtils/src/MinaCalc.cpp:33-37 | corrected dispose: the engine is deleted and the handle is null afterwards, so no later call deletes it twice |
| MinaCalcNative.NativeBridge.GetMsdForAllRates | MinaCalcNative/MinaCalc-Native-FNUtils/src/MinaCalc.cpp:42-56 | initialises the engine if needed, appends a fresh float[8] then a fresh float[4] to the host list, keeps its earlier contents and returns that same list |
| MinaCalcNative.NativeBridge.GetMsdForRateAndGoal | MinaCalcNative/MinaCalc-Native-FNUtils/src/MinaCalc.cpp:61-68 | the stub returns null and changes no state |
| MinaCalcNative.NativeBridge.GetDefaultMsdFor | MinaCalcNative/MinaCalc-Native-FNUtils/src/MinaCalc.cpp:73-78 | the stub returns null and changes no state |
| MinaCalcNative.DisposeLeavesHandleSet | MinaCalcNative/MinaCalc-Native-FNUtils/src/MinaCalc.cpp:33-37 | after dispose as written the bridge still reports itself loaded, a later initialisation does not bring back a live engine, and a second dispose deletes the freed engine twice |
| MinaCalcNative.DisposeAndResetClearsHandle | MinaCalcNative/MinaCalc-Native-FNUtils/src/MinaCalc.cpp:33-37 | after the corrected dispose the bridge reports itself unloaded, a later initialisation yields a live engine, and repeated disposals never delete twice |
| MinaCalcNative.RawNotes.constructor | MinaCalcNative/MinaCalc-Native-FNUtils/src/Util.h:18-22 | holds both pinned buffers; size is the length of the notes buffer |
| MinaCalcNative.RawNotes.AsNoteInfo | MinaCalcNative/MinaCalc-Native-FNUtils/src/Util.h:24-30 | one engine record per note, pairing the unsigned reinterpretation of notes[i] with times[i] |
| MinaCalcRaw.RawFromShape | Etterna/src/main/java/com/ry/etterna/msd/MinaCalc.java:95-104 | the row walk keeps notes and times parallel, stores exactly the non-zero row masks in row order, and never lets a time decrease |
| MinaCalcRaw.NonZeroMasksRange | Etterna/src/main/java/com/ry/etterna/msd/MinaCalc.java:96-99 | every stored mask of a four-column row lies in 1..15 |
| MinaCalcRaw.MaskOfFourBelow16 | Etterna/src/main/java/com/ry/etterna/msd/MinaCalc.java:96 | the mask of a four-column row is below 16 |
| MinaCalcRaw.RawFromFourWide | Etterna/src/main/java/com/ry/etterna/msd/MinaCalc.java:96 | a walk that succeeds only met four-column rows (any other width has no mapping and fails on unboxing) |
| MinaCalcRaw.RawNotesOfShape | Etterna/src/main/java/com/ry/etterna/msd/MinaCalc.java:88-112 | the raw notes of a chart are parallel arrays, one entry per row with a non-zero mask, masks in 1..15, times non-decreasing |
| MinaCalcRaw.BuildRawNotes | Etterna/src/main/java/com/ry/etterna/msd/MinaCalc.java:88-112 | the RawNotes constructor computes RawNotesOf: the walk with its NullPointerException and java.lang.Error exits, then the copy into arrays |
| Vsrg.Bpm.Rated | VSRG/src/main/java/com/ry/vsrg/BPM.java:35-40 | a rated BPM keeps its start time |
| Vsrg.TimingSequence.TimeScaled | VSRG/src/main/java/com/ry/vsrg/sequence/TimingSequence.java:154-158 | the scaled time is the current time floored to three places: within 0.001 below it |
| Vsrg.TimingSequence.BeatScaled | VSRG/src/main/java/com/ry/vsrg/sequence/TimingSequence.java:144-148 | the scaled beat is the current beat rounded up to two places: within 0.01 above it |
| Vsrg.TimingSequence.Advance | VSRG/src/main/java/com/ry/vsrg/sequence/TimingSequence.java:86-112 | advancing succeeds exactly when the signature and the BPM are positive, and then strictly increases both time and beat |
| Vsrg.TimeScaledMonotone | VSRG/src/main/java/com/ry/vsrg/sequence/TimingSequence.java:154-158 | the scaled time never goes down when the time goes up |
| Vsrg.AdvanceDuration | VSRG/src/main/java/com/ry/vsrg/sequence/TimingSequence.java:184-201 | one step of a measure with n rows at a BPM lasts exactly 240 / (bpm * n) seconds |
| Sounds.IdsDistinct | OsuBuilder/src/main/java/com/ry/osu/builderRedone/sound/HitSound.java:14-17 | within each sound enum the numbers tell the constants apart |
| Sounds.SoundIndexFlags | OsuBuilder/src/main/java/com/ry/osu/builderRedone/HitObject.java:227-232 | the hit-sound index counts each listed sound once: it is the sum of the whistle, finish and clap flags of the sounds present |
| Sounds.FlagBits | OsuBuilder/src/main/java/com/ry/osu/builderRedone/sound/HitSound.java:14-17 | three distinct flag bits added up can be read back bit by bit |
| Sounds.SoundIndexDecodes | OsuBuilder/src/main/java/com/ry/osu/builderRedone/HitObject.java:227-232 | the index is even and at most 14, bit k is set exactly when the sound with id 2^k is listed, and two lists give the same index exactly when they name the same non-HIT sounds |
| NoteTypes.FirstMatch | Etterna/src/main/java/com/ry/etterna/note/NoteType.java:51-59 | finds a kind from the list that matches, and finds none only when no kind in the list matches |
| NoteTypes.Of | Etterna/src/main/java/com/ry/etterna/note/NoteType.java:51-59 | NoteType.of scans the kinds in declaration order and raises IllegalStateException when none matches |
| NoteTypes.TypeOfFailsIffNotOneChar | Etterna/src/main/java/com/ry/etterna/note/NoteType.java:12-19 | EMPTY's negated class makes every one-character string a known kind: of fails exactly when the string is not one character long |
| NoteTypes.TypeOfChar | Etterna/src/main/java/com/ry/etterna/note/NoteType.java:12-19 | of on a single character gives the kind its class names ('2' and '4' are both hold heads, '0' is empty) |
| NoteTypes.TypeOfIdentityChar | Etterna/src/main/java/com/ry/etterna/note/NoteType.java:12-19 | every kind's identity character is reserved and is looked up as that kind again |
| NoteTypes.OnlyReservedKinds | Etterna/src/main/java/com/ry/etterna/note/NoteType.java:41-43 | isOnlyReserved holds exactly when every character is '0' or a character that stands for a note kind of its own |
| NoteTypes.HoldIsHeadOrTail | Etterna/src/main/java/com/ry/etterna/note/NoteType.java:96-112 | isHold holds exactly for hold heads and tails, no kind is both, and a hold is neither a tap nor empty |
| NoteRows.MaskPattern | Etterna/src/main/java/com/ry/etterna/note/NoteRow.java:27-35 | the table key of a mask below 16 is a four-character x/- pattern |
| NoteRows.PatternMaskOfFour | Etterna/src/main/java/com/ry/etterna/note/NoteRow.java:27-35 | a pattern's value sets bit k exactly when column k holds an x |
| NoteRows.KeysAreMaskPatterns | Etterna/src/main/java/com/ry/etterna/note/NoteRow.java:27-35 | the i-th key of the table is the pattern of mask i |
| NoteRows.MaskPatternRoundTrip | Etterna/src/main/java/com/ry/etterna/note/NoteRow.java:27-35 | reading the pattern of a mask gives the mask back |
| NoteRows.PatternMaskRoundTrip | Etterna/src/main/java/com/ry/etterna/note/NoteRow.java:27-35 | every four-column pattern has a mask below 16 whose pattern is that same string |
| NoteRows.BuildNoteMapping | Etterna/src/main/java/com/ry/etterna/note/NoteRow.java:26-36 | the static table holds exactly the 16 four-column patterns, each mapped to its column bitmask |
| NoteRows.TableAfterIsMask | Etterna/src/main/java/com/ry/etterna/note/NoteRow.java:33-35 | after i insertions the table holds exactly the patterns whose mask is below i, each mapped to its mask |
| NoteRows.NoteMappingTableIsMask | Etterna/src/main/java/com/ry/etterna/note/NoteRow.java:23-36 | the finished table maps exactly the four-column patterns, each to its bitmask |
| NoteRows.LoadFromStr | Etterna/src/main/java/com/ry/etterna/note/NoteRow.java:45-62 | loadFromStr: IllegalStateException for an unreserved character or an empty row, else one fresh note per character, of its kind, in its column |
| NoteRows.ParseRowString | Etterna/src/main/java/com/ry/etterna/note/NoteRow.java:45-62 | loading the printed form of a freshly loaded row gives the row back |
| NoteRows.ParseRowShape | Etterna/src/main/java/com/ry/etterna/note/NoteRow.java:45-62 | a loaded row has one untimed note per character, of the kind of that character, numbered by column |
| NoteRows.IsEmpty | Etterna/src/main/java/com/ry/etterna/note/NoteRow.java:77-91 | isEmpty is true exactly when every note is EMPTY or a hold tail |
| NoteRows.IsEmptyOnHolds | Etterna/src/main/java/com/ry/etterna/note/NoteRow.java:74-91 | isEmpty calls a row holding a hold head non-empty and a row of hold tails empty, unlike what its comment says |
| NoteRows.RowPatternMask | Etterna/src/main/java/com/ry/etterna/note/NoteRow.java:113-124 | the table value of the assessed pattern is the bitmask of the assessed columns |
| NoteRows.NoteMapping | Etterna/src/main/java/com/ry/etterna/note/NoteRow.java:113-124 | getNoteMapping yields a value exactly for four-column rows (other widths are absent from the table), and that value is the mask of the assessed columns, in 0..15 |
| NoteMeasures.SameWidthAppend | Etterna/src/main/java/com/ry/etterna/note/NoteMeasure.java:34-46 | appending a row of the first row's width keeps all rows the same width |
| NoteMeasures.RowLoads | Etterna/src/main/java/com/ry/etterna/note/NoteMeasure.java:31-32 | each whitespace-separated token is trimmed and loaded as a row, one result per token |
| NoteMeasures.LoadFromOk | Etterna/src/main/java/com/ry/etterna/note/NoteMeasure.java:31-49 | a successful load keeps the rows already loaded as a prefix and all rows the same width |
| NoteMeasures.LoadFromAll | Etterna/src/main/java/com/ry/etterna/note/NoteMeasure.java:31-49 | when every token loads and all rows share a width, the measure is exactly those rows |
| NoteMeasures.InitFromStr | Etterna/src/main/java/com/ry/etterna/note/NoteMeasure.java:24-52 | initFromStr: the first failing row or the first row of another width raises IllegalStateException; otherwise one row per token, all the same width |
| NoteMeasures.TrimPrintable | Etterna/src/main/java/com/ry/etterna/note/NoteMeasure.java:32 | trimming a token without spaces or control characters leaves it unchanged |
| NoteMeasures.RowStringPrintable | Etterna/src/main/java/com/ry/etterna/note/NoteMeasure.java:25 | a printed row holds no whitespace, so the split keeps it whole |
| NoteMeasures.ParseMeasureOfRows | Etterna/src/main/java/com/ry/etterna/note/NoteMeasure.java:24-52 | rows of equal width printed one per line are loaded back as the same measure |
| NoteMeasures.MeasureVisits | Etterna/src/main/java/com/ry/etterna/note/EtternaNoteInfo.java:160-166 | forEachNote visits the rows of a measure in order, each with the measure's size |
| NoteMeasures.VisitsCount | Etterna/src/main/java/com/ry/etterna/note/EtternaNoteInfo.java:375-383 | the rows visited are as many as the measure sizes add up to |
| NoteMeasures.VisitsAppend | Etterna/src/main/java/com/ry/etterna/note/EtternaNoteInfo.java:160-166 | visiting one more measure appends the visits of its rows |
| NoteMeasures.VisitsRows | Etterna/src/main/java/com/ry/etterna/note/EtternaNoteInfo.java:160-166 | a property of every row of every measure holds of every row visited |
| EtternaTimings.StartingAt | Etterna/src/main/java/com/ry/etterna/reader/EtternaTiming.java:99-103 | the BPMs starting at a time: a subsequence of the list, all with that start |
| EtternaTimings.StartingAtAppend | Etterna/src/main/java/com/ry/etterna/reader/EtternaTiming.java:99-103 | selecting by start time distributes over concatenation |
| EtternaTimings.InsertionPoint | Etterna/src/main/java/com/ry/etterna/reader/EtternaTiming.java:102 | the insertion point follows every BPM starting no later and precedes the first one starting later |
| EtternaTimings.InsertSorted | Etterna/src/main/java/com/ry/etterna/reader/EtternaTiming.java:102 | inserting into a list sorted by start keeps it sorted and adds exactly the new BPM (a permutation) |
| EtternaTimings.InsertStable | Etterna/src/main/java/com/ry/etterna/reader/EtternaTiming.java:102 | insertion is stable: BPMs with equal starts keep their relative order and the new one comes after them |
| EtternaTimings.InsertAtEnd | Etterna/src/main/java/com/ry/etterna/reader/EtternaTiming.java:102 | inserting a BPM that starts no earlier than the rest appends it |
| EtternaTimings.FlooredStart | Etterna/src/main/java/com/ry/etterna/reader/EtternaTiming.java:117-119 | the compared start is floored to two places: within 0.01 below the true start |
| EtternaTimings.LatestIndex | Etterna/src/main/java/com/ry/etterna/reader/EtternaTiming.java:112-132 | finds the last BPM whose floored start is at or before the time, or reports that none is |
| EtternaTimings.LatestPrefix | Etterna/src/main/java/com/ry/etterna/reader/EtternaTiming.java:112-132 | on a sorted list every BPM up to the one found starts by the time |
| EtternaTimings.LatestMonotone | Etterna/src/main/java/com/ry/etterna/reader/EtternaTiming.java:112-132 | a later time finds the same BPM or a later one |
| EtternaTimings.RatedBpms | Etterna/src/main/java/com/ry/etterna/reader/EtternaTiming.java:148-152 | rating keeps every start and multiplies every value by the rate |
| EtternaTimings.EtternaTiming.constructor | Etterna/src/main/java/com/ry/etterna/reader/EtternaTiming.java:99-103 | the list is sorted by start time stably: a permutation of the input with the same order among equal starts, unchanged when already sorted |
| EtternaTimings.EtternaTiming.GetLatest | Etterna/src/main/java/com/ry/etterna/reader/EtternaTiming.java:112-132 | getLatest scans from the end for the last BPM whose floored start is not after the time, else IllegalStateException |
| EtternaTimings.EtternaTiming.Rated | Etterna/src/main/java/com/ry/etterna/reader/EtternaTiming.java:148-152 | rated builds a fresh timing whose list is the rated BPMs, still sorted |
| EtternaTimings.EtternaTimingStrToBpm | Etterna/src/main/java/com/ry/etterna/reader/EtternaTiming.java:76-92 | etternaTimingStrToBPM converts the pairs in order and stops at the first that fails |
| EtternaTimings.ParsePairsShape | Etterna/src/main/java/com/ry/etterna/reader/EtternaTiming.java:76-92 | the conversion succeeds with one BPM per pair, or fails exactly when some pair fails |
| EtternaTimings.ParsePairOfPlainStrings | Etterna/src/main/java/com/ry/etterna/reader/EtternaTiming.java:81-88 | a pair printed as "time=value" from two decimals converts back to that BPM |
| EtternaTimings.LoadFromPairs | Etterna/src/main/java/com/ry/etterna/reader/EtternaTiming.java:54-66 | loadFromStr after the scan: any failing pair fails the load, no pair gives null, otherwise a sorted timing of the converted BPMs |
| Msds.SkillSet.Ordinal | Etterna/src/main/java/com/ry/etterna/msd/SkillSet.java:13-26 | each skillset's ordinal indexes the eight values and names that skillset back |
| Msds.AcronymsDistinct | Etterna/src/main/java/com/ry/etterna/msd/SkillSet.java:14-21 | no two skillsets share an acronym |
| Msds.Msd.Skill | Etterna/src/main/java/com/ry/etterna/msd/MSD.java:115-117 | getSkill truncates toward zero to two places: the hundredths lie within one hundredth of the value, on the side of zero |
| Msds.ParseValue | Etterna/src/main/java/com/ry/etterna/msd/MSD.java:71-79 | text without a digit is the NaN marker -1.0, a number is capped at 65, and text with a digit that is not a literal raises NumberFormatException |
| Msds.ParseValuePlain | Etterna/src/main/java/com/ry/etterna/msd/MSD.java:71-79 | a printed non-negative decimal parses to its own value capped at 65 |
| Msds.ParseValueTwoPoints | Etterna/src/main/java/com/ry/etterna/msd/MSD.java:71-79 | digits with two decimal points pass isFloat but raise NumberFormatException |
| Msds.Strip | Etterna/src/main/java/com/ry/etterna/msd/MSD.java:88 | removing every character outside digits, '.' and ',' keeps only those, never lengthens, and leaves clean text as it is |
| Msds.MsdOfStr | Etterna/src/main/java/com/ry/etterna/msd/MSD.java:87-107 | a parse yields eight values; any number of comma-separated parts other than eight raises IllegalStateException |
| Msds.MsdOfStrShape | Etterna/src/main/java/com/ry/etterna/msd/MSD.java:87-107 | after stripping, exactly eight parts parse to eight values each the parse of its part; the failures are IllegalStateException for a wrong count or NumberFormatException from a part |
| Msds.MsdOfStrPrinted | Etterna/src/main/java/com/ry/etterna/msd/MSD.java:87-107 | eight non-negative decimals printed and joined with commas parse back to their values, capped at 65 |
| Msds.InitFromStr | Etterna/src/main/java/com/ry/etterna/msd/MSD.java:87-107 | initFromStr computes MsdOfStr, parsing the parts in order |
| Msds.MeanHundredths | Etterna/src/main/java/com/ry/etterna/msd/MSD.java:160-173 | the half-up mean of two hundredth counts: exact when the sum is even, rounded away from zero otherwise |
| Msds.InterpolatedSkill | Etterna/src/main/java/com/ry/etterna/msd/MSD.java:151-177 | each interpolated skill is the rounded mean of the two skills and lies between them |
| Msds.InterpolatedSymmetric | Etterna/src/main/java/com/ry/etterna/msd/MSD.java:151-177 | interpolating a with b equals interpolating b with a |
| Msds.InterpolatedSelf | Etterna/src/main/java/com/ry/etterna/msd/MSD.java:151-177 | interpolating an MSD with itself keeps every skill |
| Msds.InterpolateMsd | Etterna/src/main/java/com/ry/etterna/msd/MSD.java:151-177 | interpolateMSD computes Interpolated skill by skill in skillset order |
| Msds.InRange | Etterna/src/main/java/com/ry/etterna/msd/MSD.java:209-218 | NumberFormatException exactly when a bound is not a number |
| Msds.InRangeInclusive | Etterna/src/main/java/com/ry/etterna/msd/MSD.java:209-218 | with two-place bounds, the skill is in range exactly when lo <= skill <= hi, both ends included |
| Msds.OverallInRange | Etterna/src/main/java/com/ry/etterna/msd/MSD.java:223-225 | the default range holds exactly when 18.00 <= overall <= 35.00 |
| Msds.MaxIndex | Etterna/src/main/java/com/ry/etterna/msd/MSD.java:233 | Stream.max keeps the first of equal maxima: no candidate is larger and every earlier one is strictly smaller |
| Msds.BestSkill | Etterna/src/main/java/com/ry/etterna/msd/MSD.java:230-235 | the best skill is neither OVERALL nor STAMINA, no other such skill is larger, and of equal maxima it is the first in declaration order |
| Msds.StripZerosValue | Etterna/src/main/java/com/ry/etterna/msd/MSD.java:260-262 | stripTrailingZeros keeps the value, never raises the scale, and leaves no trailing zero |
| Msds.Tag | Etterna/src/main/java/com/ry/etterna/msd/MSD.java:264-268 | every comparison tag starts with "MSD" and ends with the printed step |
| Msds.StepCountBounds | Etterna/src/main/java/com/ry/etterna/msd/MSD.java:257-272 | the loop visits start, start + inc, ... while the value is at most the bound, and the next value is past it |
| Msds.StepsAre | Etterna/src/main/java/com/ry/etterna/msd/MSD.java:257-272 | the k-th visited value is start + k * inc, all are within the bound, and the one after the last is not |
| Msds.TagsShape | Etterna/src/main/java/com/ry/etterna/msd/MSD.java:248-278 | one comparison tag per step, the NaN tag when overall is NaN, then the best skill's acronym with '!', then "MSD>?"; away from NaN this is the list as written |
| Msds.NaNTagNeverWritten | Etterna/src/main/java/com/ry/etterna/msd/MSD.java:274 | as written, the reference comparison with NAN never holds, so "MSD==NaN" never appears |
| Msds.NaNTagWhenNaN | Etterna/src/main/java/com/ry/etterna/msd/MSD.java:274 | with the comparison by value, a NaN overall value yields the "MSD==NaN" tag |
| Msds.MsdFilterTag | Etterna/src/main/java/com/ry/etterna/msd/MSD.java:248-278 | NumberFormatException exactly when a bound or the step is not a number; otherwise the tags as written (never the NaN tag) joined with commas |
| Msds.CompareSteps | Etterna/src/main/java/com/ry/etterna/msd/MSD.java:257-272 | the loop produces exactly one tag per visited value, in order, each made from that value's printed text |
| Msds.GetMsdFilterTag | Etterna/src/main/java/com/ry/etterna/msd/MSD.java:248-278 | getMsdFilterTag as written (its NaN guard never holds) computes MsdFilterTag |
| CacheStepsResults.AllRatesOfStrShape | Etterna/src/main/java/com/ry/etterna/db/CacheStepsResult.java:74-84 | the column split at ':' gives one valid MSD per segment, each the parse of its segment; it fails exactly when some segment fails |
| CacheStepsResults.RateIndex | Etterna/src/main/java/com/ry/etterna/db/CacheStepsResult.java:103-109 | the grid search stops at an index below 14 |
| CacheStepsResults.MsdForRate | Etterna/src/main/java/com/ry/etterna/db/CacheStepsResult.java:95-120 | a rate that is not a number or a missing list raises; whatever is found is one of the stored MSDs |
| CacheStepsResults.MsdForRateWrongSize | Etterna/src/main/java/com/ry/etterna/db/CacheStepsResult.java:100-119 | a list that is not fourteen long answers nothing |
| CacheStepsResults.MsdForRateOnGrid | Etterna/src/main/java/com/ry/etterna/db/CacheStepsResult.java:99-114 | the printed rate 0.70 + 0.10 k finds entry k |
| CacheStepsResults.MsdForRateOffGrid | Etterna/src/main/java/com/ry/etterna/db/CacheStepsResult.java:103-114 | a rate off the grid finds the 2.00 entry, not nothing, because the search only stops on a match or at 2.00 |
| CacheStepsResults.MsdForRateNear | Etterna/src/main/java/com/ry/etterna/db/CacheStepsResult.java:96-97 | a rate within half a hundredth of a grid rate, ties included, rounds half-even onto it and finds its entry |
| CacheStepsResults.CacheStepsResult.constructor | Etterna/src/main/java/com/ry/etterna/db/CacheStepsResult.java:67 | no list until the database sets one |
| CacheStepsResults.CacheStepsResult.InitMsdForAllRates | Etterna/src/main/java/com/ry/etterna/db/CacheStepsResult.java:74-84 | stores the parsed list when every segment parses; otherwise raises the first failure and keeps the old list |
| CacheStepsResults.CacheStepsResult.GetMsdForRate | Etterna/src/main/java/com/ry/etterna/db/CacheStepsResult.java:95-120 | getMSDForRate computes MsdForRate by counting up the grid |
| CacheStepsResults.OffGridIndex | Etterna/src/main/java/com/ry/etterna/db/CacheStepsResult.java:105-109 | a search that reached 2.00 without a match stops at index 13 |
| CachedNoteInfos.CachedMsdForRate | Etterna/src/main/java/com/ry/etterna/util/CachedNoteInfo.java:135-165 | text that is not a number raises NumberFormatException |
| CachedNoteInfos.CachedForValue | Etterna/src/main/java/com/ry/etterna/util/CachedNoteInfo.java:135-165 | whatever the lookup returns is a valid eight-value MSD |
| CachedNoteInfos.CachedOutcomes | Etterna/src/main/java/com/ry/etterna/util/CachedNoteInfo.java:135-165 | off the 0.05 grid IllegalStateException, no cache NullPointerException, a list not fourteen long nothing, and on the 0.10 grid exactly the cache's answer |
| CachedNoteInfos.CachedOnGrid | Etterna/src/main/java/com/ry/etterna/util/CachedNoteInfo.java:141-142 | the rate 0.70 + 0.10 k gives cached entry k |
| CachedNoteInfos.CachedHalfGrid | Etterna/src/main/java/com/ry/etterna/util/CachedNoteInfo.java:145-157 | the rate 0.75 + 0.10 k gives the mean of entries k and k + 1 |
| CachedNoteInfos.CachedBelowGrid | Etterna/src/main/java/com/ry/etterna/util/CachedNoteInfo.java:145-157 | 0.65 gives the mean of the 2.00 and 0.70 entries, because its lower neighbour 0.60 is off the grid |
| CachedNoteInfos.RateAtValue | Etterna/src/main/java/com/ry/etterna/util/CachedNoteInfo.java:213-223 | the k-th rate visited is 0.70 + 0.05 k |
| CachedNoteInfos.RateAtNext | Etterna/src/main/java/com/ry/etterna/util/CachedNoteInfo.java:222 | adding HALF_RATE to one rate gives the next |
| CachedNoteInfos.RatesAscend | Etterna/src/main/java/com/ry/etterna/util/CachedNoteInfo.java:215 | the rates visited rise strictly from 0.70 to 2.00 and the one after is past MAX_RATE |
| CachedNoteInfos.CallsMeetCondition | Etterna/src/main/java/com/ry/etterna/util/CachedNoteInfo.java:232-248 | every rate handed on meets the condition, comes from the walk, and carries the MSD found for it |
| CachedNoteInfos.CallsErrStays | Etterna/src/main/java/com/ry/etterna/util/CachedNoteInfo.java:237-247 | once a lookup has raised, the walk stays failed |
| CachedNoteInfos.CallsPrefix | Etterna/src/main/java/com/ry/etterna/util/CachedNoteInfo.java:237-247 | the calls made early are a prefix of the calls made later |
| CachedNoteInfos.CallsWithoutCache | Etterna/src/main/java/com/ry/etterna/util/CachedNoteInfo.java:211-224 | without a cached list the walk raises NullPointerException |
| CachedNoteInfos.LookupAt | Etterna/src/main/java/com/ry/etterna/util/CachedNoteInfo.java:135-165 | a full cache answers every rate of the walk: a cached entry on the 0.10 grid, the mean of its neighbours halfway between |
| CachedNoteInfos.CallsWithFullCache | Etterna/src/main/java/com/ry/etterna/util/CachedNoteInfo.java:211-224 | with a full cache and a condition every MSD meets, all 27 rates are handed on in order, each with its cached or interpolated MSD |
| CachedNoteInfos.CachedNoteInfo.constructor | Etterna/src/main/java/com/ry/etterna/util/CachedNoteInfo.java:104-108 | holds the given cache row and chart |
| CachedNoteInfos.CachedNoteInfo.GetMsdForRate | Etterna/src/main/java/com/ry/etterna/util/CachedNoteInfo.java:135-165 | getMSDForRate computes CachedMsdForRate, passing the caller's text to the cache on the 0.10 grid |
| CachedNoteInfos.CachedNoteInfo.ForEachRateWhere | Etterna/src/main/java/com/ry/etterna/util/CachedNoteInfo.java:232-248 | the walk hands on exactly the specified calls; when it raises the calls made are a proper prefix; after a call the chart is fully timed with the timing rated at the last rate handed on |
| CachedNoteInfos.CachedNoteInfo.VisitRate | Etterna/src/main/java/com/ry/etterna/util/CachedNoteInfo.java:238-246 | one turn: look the rate up and, if found and accepted, re-time the chart at that rate and hand the pair on |
| CachedNoteInfos.CachedNoteInfo.ForEachRate | Etterna/src/main/java/com/ry/etterna/util/CachedNoteInfo.java:211-224 | the walk without a condition: every rate found is handed on |
| CachedNoteInfos.FailedCallIsPending | Etterna/src/main/java/com/ry/etterna/util/CachedNoteInfo.java:241-242 | when re-timing fails, the rate being handed on belongs to the full walk, so the calls made fall short of it |
| EtternaNoteInfos.SetNote | Etterna/src/main/java/com/ry/etterna/note/EtternaNoteInfo.java:316-331 | writing one note changes that note alone and keeps the chart's shape and every row's BPM |
| EtternaNoteInfos.SetRowBpm | Etterna/src/main/java/com/ry/etterna/note/EtternaNoteInfo.java:341 | setting one row's BPM changes that row's BPM alone and leaves every note as it was |
| EtternaNoteInfos.TimeNote | Etterna/src/main/java/com/ry/etterna/note/EtternaNoteInfo.java:315-336 | timing one note keeps the chart's dimensions and the sequence, and keeps the open-hold flags valid for the notes that follow |
| EtternaNoteInfos.TimeNoteKeeps | Etterna/src/main/java/com/ry/etterna/note/EtternaNoteInfo.java:316-335 | the note at p alone gets the current scaled time as its start; no position, no row BPM and no note other than p and the hold it closes changes |
| EtternaNoteInfos.TimeNoteError | Etterna/src/main/java/com/ry/etterna/note/EtternaNoteInfo.java:319-320 | the note step fails exactly for a hold past the last flag slot, and then with IndexOutOfBoundsException |
| EtternaNoteInfos.TimeNoteHolds | Etterna/src/main/java/com/ry/etterna/note/EtternaNoteInfo.java:319-333 | a note that is not a hold leaves the flags alone; a hold opens its column's flag when none is open, and otherwise closes it, giving the head the end time and the tail's kind and the tail the head's kind |
| EtternaNoteInfos.TimeNoteShape | Etterna/src/main/java/com/ry/etterna/note/EtternaNoteInfo.java:315-336 | the note step keeps the chart's shape and raises nothing but IndexOutOfBoundsException |
| EtternaNoteInfos.RowEnd | Etterna/src/main/java/com/ry/etterna/note/EtternaNoteInfo.java:339-346 | ending a row keeps the chart's dimensions and the flags, and keeps the flags valid |
| EtternaNoteInfos.RowEndKeeps | Etterna/src/main/java/com/ry/etterna/note/EtternaNoteInfo.java:339-346 | ending a row changes no position, no note, and no other row's BPM |
| EtternaNoteInfos.RowEndBpm | Etterna/src/main/java/com/ry/etterna/note/EtternaNoteInfo.java:339-346 | a completed row end gives the row the latest BPM at the scaled beat and moves the sequence strictly forward; IllegalStateException is raised exactly when no BPM is in force, and otherwise only java.lang.Error |
| EtternaNoteInfos.RowEndShape | Etterna/src/main/java/com/ry/etterna/note/EtternaNoteInfo.java:339-346 | ending a row keeps the chart's shape and raises only IllegalStateException or java.lang.Error |
| EtternaNoteInfos.TimeFromAtRowEnd | Etterna/src/main/java/com/ry/etterna/note/EtternaNoteInfo.java:310-348 | at the end of a row the pass continues with the next row from the state the row's end leaves |
| EtternaNoteInfos.NoFlags | Etterna/src/main/java/com/ry/etterna/note/EtternaNoteInfo.java:307 | the flag array starts with 99 empty slots |
| EtternaNoteInfos.TimeFromShape | Etterna/src/main/java/com/ry/etterna/note/EtternaNoteInfo.java:303-351 | the pass keeps the chart's shape and raises only IllegalStateException, the advance's failure or IndexOutOfBoundsException |
| EtternaNoteInfos.TimedAfterNote | Etterna/src/main/java/com/ry/etterna/note/EtternaNoteInfo.java:315-336 | timing one note keeps everything before the cursor timed and adds the note at the row's current time |
| EtternaNoteInfos.VisitedAfterNote | Etterna/src/main/java/com/ry/etterna/note/EtternaNoteInfo.java:315-336 | after the note step every visited note, the new one included, has a start time equal to that of its row's first note |
| EtternaNoteInfos.TimedAfterRowEnd | Etterna/src/main/java/com/ry/etterna/note/EtternaNoteInfo.java:339-346 | ending a row keeps the visited notes timed and gives the finished row one of the timing's BPMs |
| EtternaNoteInfos.TimedAfterMeasure | Etterna/src/main/java/com/ry/etterna/note/EtternaNoteInfo.java:310-311 | moving to the next measure keeps everything before the cursor timed |
| EtternaNoteInfos.TimeFromTimed | Etterna/src/main/java/com/ry/etterna/note/EtternaNoteInfo.java:303-351 | a pass that completes leaves every note with its row's start time and every row with one of the timing's BPMs |
| EtternaNoteInfos.TimeNotesOutcome | Etterna/src/main/java/com/ry/etterna/note/EtternaNoteInfo.java:303-351 | timeNotes from the start keeps the shape, raises only the three named exceptions, and when it completes the chart is fully timed |
| EtternaNoteInfos.KindDigit | Etterna/src/main/java/com/ry/etterna/note/EtternaNoteInfo.java:188-192 | a note adds one digit other than 3, and 0 exactly for an empty note or a hold tail |
| EtternaNoteInfos.KindDigits | Etterna/src/main/java/com/ry/etterna/note/EtternaNoteInfo.java:187-193 | one digit per note, in column order |
| EtternaNoteInfos.KeyNotes | Etterna/src/main/java/com/ry/etterna/note/EtternaNoteInfo.java:230-237 | the strictly 4K key reads at most the first four notes; the plain key and narrow rows read every note |
| EtternaNoteInfos.BlobFromOutcome | Etterna/src/main/java/com/ry/etterna/note/EtternaNoteInfo.java:182-201 | the blob fails only with NullPointerException, on a non-blank row without a BPM, and only grows |
| EtternaNoteInfos.BlobFromNarrow | Etterna/src/main/java/com/ry/etterna/note/EtternaNoteInfo.java:215-254 | over rows at most four wide, the 4K blob is the plain blob |
| EtternaNoteInfos.BlobFromCut | Etterna/src/main/java/com/ry/etterna/note/EtternaNoteInfo.java:228-251 | the 4K blob is the plain blob of the rows cut to their first four notes |
| EtternaNoteInfos.CutVisits | Etterna/src/main/java/com/ry/etterna/note/EtternaNoteInfo.java:230-237 | cutting keeps every row's place, size and BPM and keeps only the notes the 4K key reads |
| EtternaNoteInfos.ChartBlobNarrow | Etterna/src/main/java/com/ry/etterna/note/EtternaNoteInfo.java:215-254 | a chart at most four wide has the same key either way |
| EtternaNoteInfos.TimedChartHasBlob | Etterna/src/main/java/com/ry/etterna/note/EtternaNoteInfo.java:176-204 | a chart the timing pass got through always has a key blob |
| EtternaNoteInfos.EtternaNoteInfo.constructor | Etterna/src/main/java/com/ry/etterna/note/EtternaNoteInfo.java:40-41 | holds the parsed measures and the dance-single flag, and no timing yet |
| EtternaNoteInfos.EtternaNoteInfo.TimeNotesWith | Etterna/src/main/java/com/ry/etterna/note/EtternaNoteInfo.java:290-294 | records the timing info, then times the notes exactly as TimeNotesSpec does |
| EtternaNoteInfos.EtternaNoteInfo.TimeNotes | Etterna/src/main/java/com/ry/etterna/note/EtternaNoteInfo.java:303-351 | the loops over measures, rows and notes update the chart exactly as TimeNotesSpec does, and raise what it raises |
| EtternaNoteInfos.EtternaNoteInfo.TimeRow | Etterna/src/main/java/com/ry/etterna/note/EtternaNoteInfo.java:311-347 | the pass over one row and the rest of the chart agrees with TimeFrom from that row on |
| EtternaNoteInfos.EtternaNoteInfo.TimeMeasure | Etterna/src/main/java/com/ry/etterna/note/EtternaNoteInfo.java:311-347 | the pass over one measure's rows agrees with TimeFrom from that measure on and keeps the chart's shape and the flags valid |
| EtternaNoteInfos.EtternaNoteInfo.TimeRowNotes | Etterna/src/main/java/com/ry/etterna/note/EtternaNoteInfo.java:315-336 | the note loop of one row agrees with TimeFrom up to the row's end and keeps the chart's shape |
| EtternaNoteInfos.EtternaNoteInfo.MapNote | Etterna/src/main/java/com/ry/etterna/note/EtternaNoteInfo.java:316-335 | one turn of the note loop agrees with TimeNote on the chart and the flag array |
| EtternaNoteInfos.EtternaNoteInfo.EndRow | Etterna/src/main/java/com/ry/etterna/note/EtternaNoteInfo.java:339-346 | the row's end agrees with RowEnd |
| EtternaNoteInfos.EtternaNoteInfo.GetNumRows | Etterna/src/main/java/com/ry/etterna/note/EtternaNoteInfo.java:375-383 | the sum of the measures' sizes is the number of rows forEachNote visits |
| EtternaNoteInfos.EtternaNoteInfo.Blob | Etterna/src/main/java/com/ry/etterna/note/EtternaNoteInfo.java:182-201 | the blob loop computes ChartBlob |
| EtternaNoteInfos.EtternaNoteInfo.RowDigits | Etterna/src/main/java/com/ry/etterna/note/EtternaNoteInfo.java:187-193 | the digit loop computes KindDigits |
| EtternaNoteInfos.EtternaNoteInfo.GetChartKey | Etterna/src/main/java/com/ry/etterna/note/EtternaNoteInfo.java:176-204 | IllegalStateException before timing, else "X" and the digest of the plain blob |
| EtternaNoteInfos.EtternaNoteInfo.GetChartKey4K | Etterna/src/main/java/com/ry/etterna/note/EtternaNoteInfo.java:215-254 | IllegalStateException before timing, else "X" and the digest of the 4K blob |
| EtternaNoteInfos.EtternaNoteInfo.StepsCacheKey | Etterna/src/main/java/com/ry/etterna/note/EtternaNoteInfo.java:366 | the steps cache is keyed by the 4K key for dance-single and by the plain key otherwise |
| EtternaNoteInfos.EtternaNoteInfo.CalcMsdInput | Etterna/src/main/java/com/ry/etterna/note/EtternaNoteInfo.java:395-398 | IllegalStateException before timing, else the raw notes the calculator is given |
| HitObjects.ArgsFields | OsuBuilder/src/main/java/com/ry/osu/builderRedone/HitObject.java:209-217 | the compiled arguments split at ':' into their five parts: an empty part exactly for a null sample set, the set ids, the index and the volume reading back, and no ',' |
| HitObjects.ObjectArgsBuilder.constructor | OsuBuilder/src/main/java/com/ry/osu/builderRedone/HitObject.java:201-207 | both sample sets default to AUTO; index, volume and the sample file are unset |
| HitObjects.ObjectArgsBuilder.SetIndex | OsuBuilder/src/main/java/com/ry/osu/builderRedone/HitObject.java:227-232 | the index is the sum of the distinct sounds' ids; nothing else changes |
| HitObjects.ObjectArgsBuilder.SetVolume | OsuBuilder/src/main/java/com/ry/osu/builderRedone/HitObject.java:235-238 | the volume is the level of the Volume given; nothing else changes |
| HitObjects.ObjectArgsBuilder.SetHitSampleFile | OsuBuilder/src/main/java/com/ry/osu/builderRedone/HitObject.java:207 | sets the sample file alone |
| HitObjects.ObjectArgsBuilder.InitAuto | OsuBuilder/src/main/java/com/ry/osu/builderRedone/HitObject.java:221-225 | the plain hit sound's index and full volume; the sets and the file are kept |
| HitObjects.ObjectArgsBuilder.Build | OsuBuilder/src/main/java/com/ry/osu/builderRedone/HitObject.java:198-207 | the arguments carry exactly the builder's fields |
| HitObjects.AutoArgs | OsuBuilder/src/main/java/com/ry/osu/builderRedone/HitObject.java:221-225 | initAuto().build() is AUTO, AUTO, index 0, volume 100 and no file, and compiles to "0:0:0:100:" |
| HitObjects.LastFieldParts | OsuBuilder/src/main/java/com/ry/osu/builderRedone/HitObject.java:74-75 | the last field has no ',' and splits at ':' into the truncated end time, when there is one, then the argument parts |
| HitObjects.CompileFields | OsuBuilder/src/main/java/com/ry/osu/builderRedone/HitObject.java:66-77 | a compiled hit object splits at ',' into six fields reading back as x, y, the truncated start time, the type id and the hit sound, and the last splits into the argument parts, preceded by the end time exactly when there is one |
| HitObjects.HitObjectBuilder.constructor | OsuBuilder/src/main/java/com/ry/osu/builderRedone/HitObject.java:24-64 | numbers zero, objects unset |
| HitObjects.HitObjectBuilder.SetX | OsuBuilder/src/main/java/com/ry/osu/builderRedone/HitObject.java:97-100 | sets x alone |
| HitObjects.HitObjectBuilder.SetY | OsuBuilder/src/main/java/com/ry/osu/builderRedone/HitObject.java:36 | sets y alone |
| HitObjects.HitObjectBuilder.SetType | OsuBuilder/src/main/java/com/ry/osu/builderRedone/HitObject.java:102-114 | sets the type; MANIA_HOLD moves y to 192 and HIT to 0, any other type keeps y |
| HitObjects.HitObjectBuilder.SetHitSound | OsuBuilder/src/main/java/com/ry/osu/builderRedone/HitObject.java:121-124 | the hit sound is the sound's id; nothing else changes |
| HitObjects.HitObjectBuilder.SetStartTime | OsuBuilder/src/main/java/com/ry/osu/builderRedone/HitObject.java:131-140 | seconds become milliseconds; converting a null time raises NullPointerException and changes nothing |
| HitObjects.HitObjectBuilder.SetEndTime | OsuBuilder/src/main/java/com/ry/osu/builderRedone/HitObject.java:147-158 | a null end time stays null, seconds become milliseconds, nothing else changes |
| HitObjects.HitObjectBuilder.SetArgs | OsuBuilder/src/main/java/com/ry/osu/builderRedone/HitObject.java:63-64 | sets the arguments alone |
| HitObjects.HitObjectBuilder.Build | OsuBuilder/src/main/java/com/ry/osu/builderRedone/HitObject.java:24-64 | NullPointerException exactly when the start time, the type or the arguments is unset; otherwise the builder's fields |
| HitObjects.MapEtternaNote | OsuBuilder/src/main/java/com/ry/osu/builderRedone/util/TimingInfo.java:93-108 | the note mapper drives the builders to exactly EtternaHitObject |
| HitObjects.EtternaHitObjectShape | OsuBuilder/src/main/java/com/ry/osu/builderRedone/util/TimingInfo.java:93-108 | only taps and hold heads map, an untimed one raises NullPointerException; a hold head becomes MANIA_HOLD at y 192, a tap HIT; start in milliseconds, an end time exactly when the note has one, six fields |
| TimingPoints.CompileFields | OsuBuilder/src/main/java/com/ry/osu/builderRedone/TimingPoint.java:68-80 | a compiled timing point splits at ',' into eight fields reading back as the truncated time, the beat length exactly, the meter, the two sound ids and the volume; the seventh is "1" exactly for an uninherited point and the effects field is "0" |
| TimingPoints.TimingPointBuilder.constructor | OsuBuilder/src/main/java/com/ry/osu/builderRedone/TimingPoint.java:19-61 | numbers zero, objects unset, inherited |
| TimingPoints.TimingPointBuilder.SetTime | OsuBuilder/src/main/java/com/ry/osu/builderRedone/TimingPoint.java:97-104 | seconds become milliseconds; converting a null time raises NullPointerException and changes nothing |
| TimingPoints.TimingPointBuilder.SetBeatLength | OsuBuilder/src/main/java/com/ry/osu/builderRedone/TimingPoint.java:106-114 | sets the beat length alone, given the value it derives |
| TimingPoints.TimingPointBuilder.SetMeter | OsuBuilder/src/main/java/com/ry/osu/builderRedone/TimingPoint.java:38 | sets the meter alone |
| TimingPoints.TimingPointBuilder.SetSampleSet | OsuBuilder/src/main/java/com/ry/osu/builderRedone/TimingPoint.java:44 | sets the sample set alone |
| TimingPoints.TimingPointBuilder.SetSampleIndex | OsuBuilder/src/main/java/com/ry/osu/builderRedone/TimingPoint.java:50 | sets the sample index alone |
| TimingPoints.TimingPointBuilder.SetVolume | OsuBuilder/src/main/java/com/ry/osu/builderRedone/TimingPoint.java:116-119 | the volume is the Volume's level; nothing else changes |
| TimingPoints.TimingPointBuilder.SetUnInherited | OsuBuilder/src/main/java/com/ry/osu/builderRedone/TimingPoint.java:61 | sets the flag alone |
| TimingPoints.TimingPointBuilder.InitDefaults | OsuBuilder/src/main/java/com/ry/osu/builderRedone/TimingPoint.java:135-141 | volume 100, the DRUM set, the HIT sound and uninherited; time, beat length and meter kept |
| TimingPoints.TimingPointBuilder.Build | OsuBuilder/src/main/java/com/ry/osu/builderRedone/TimingPoint.java:19-61 | NullPointerException exactly when the time, beat length, sample set or sample index is unset; otherwise the builder's fields |
| TimingPoints.DefaultPoint | OsuBuilder/src/main/java/com/ry/osu/builderRedone/TimingPoint.java:135-141 | defaults plus a time in seconds give the point at that time in milliseconds with meter 0, DRUM, HIT, volume 100, uninherited |
| TimingPoints.DefaultPointFields | OsuBuilder/src/main/java/com/ry/osu/builderRedone/TimingPoint.java:68-80 | a default point's line ends in 0,3,0,100,1,0 |
| TimingPoints.MapEtternaRow | OsuBuilder/src/main/java/com/ry/osu/builderRedone/util/TimingInfo.java:86-91 | the BPM mapper drives the builder to exactly EtternaTimingPoint, raising ArithmeticException on a BPM of value zero before the beat length is set |
| TimingPoints.EtternaTimingPointShape | OsuBuilder/src/main/java/com/ry/osu/builderRedone/util/TimingInfo.java:86-91 | it succeeds exactly when the row has a timed first note and a BPM of non-zero value, and a zero BPM raises ArithmeticException from setBeatLength's division; the point is uninherited, at full volume on DRUM, at the first note's time in milliseconds, and compiles to eight fields with "1" in the seventh |
| TemplateFiles.PutThenGet | OsuBuilder/src/main/java/com/ry/osu/builderRedone/TemplateFile.java:120-122 | put keeps the keys distinct, answers the new value for its element and the old one for every other, replaces in place or appends at the end, and keeps the order of existing keys |
| TemplateFiles.FillDefaultsLookup | OsuBuilder/src/main/java/com/ry/osu/builderRedone/TemplateFile.java:83-85 | putIfAbsent with "" over a list of elements keeps every set value, gives "" to the listed elements that had none, and leaves the existing entries first |
| TemplateFiles.ConstructedComplete | OsuBuilder/src/main/java/com/ry/osu/builderRedone/TemplateFile.java:82-87 | after construction every element has a value: the one given, else "" |
| TemplateFiles.PlaceholderPrefixes | OsuBuilder/src/main/java/com/ry/osu/builderRedone/TemplateFile.java:146-160 | the only placeholders that begin other ones are ___TITLE in ___TITLE_UNICODE and ___ARTIST in ___ARTIST_UNICODE |
| TemplateFiles.FillOrderMatters | OsuBuilder/src/main/java/com/ry/osu/builderRedone/TemplateFile.java:129-140 | replacing first occurrences in map order makes the output depend on the order: TITLE before TITLE_UNICODE overwrites the head of the unicode placeholder |
| TemplateFiles.TitleFirst | OsuBuilder/src/main/java/com/ry/osu/builderRedone/TemplateFile.java:133-136 | replacing ___TITLE first consumes the head of ___TITLE_UNICODE, which then no longer occurs |
| TemplateFiles.UnicodeFirst | OsuBuilder/src/main/java/com/ry/osu/builderRedone/TemplateFile.java:133-136 | replacing ___TITLE_UNICODE first fills the whole placeholder, leaving no ___TITLE behind |
| TemplateFiles.TemplateFile.constructor | OsuBuilder/src/main/java/com/ry/osu/builderRedone/TemplateFile.java:82-87 | the corrected constructor, on a modifiable copy of the given map: the map is the given one with "" put for every missing element in declaration order |
| TemplateFiles.PutIfAbsentOn | OsuBuilder/src/main/java/com/ry/osu/builderRedone/TemplateFile.java:84 | putIfAbsent on the builder's unmodifiable map throws UnsupportedOperationException whatever the key; on a modifiable map it keeps the existing entries first |
| TemplateFiles.FillDefaultsOnModifiable | OsuBuilder/src/main/java/com/ry/osu/builderRedone/TemplateFile.java:82-87 | the constructor's loop as written, on a modifiable map, fills the defaults exactly as the corrected constructor does |
| TemplateFiles.FillDefaultsOnUnmodifiable | OsuBuilder/src/main/java/com/ry/osu/builderRedone/TemplateFile.java:74-87 | on an unmodifiable map the constructor's loop throws UnsupportedOperationException as soon as it has an element to put |
| TemplateFiles.BuiltConstructorThrows | OsuBuilder/src/main/java/com/ry/osu/builderRedone/TemplateFile.java:74-87 | building a template file throws UnsupportedOperationException whatever elements the builder was given |
| TemplateFiles.TemplateFile.GetElement | OsuBuilder/src/main/java/com/ry/osu/builderRedone/TemplateFile.java:110-112 | on a map holding each element once, getElement answers a value exactly when the element has an entry, and that entry's value |
| TemplateFiles.TemplateFile.SetElement | OsuBuilder/src/main/java/com/ry/osu/builderRedone/TemplateFile.java:120-122 | the map after put; it still holds each element once and getElement then answers the new value |
| TemplateFiles.TemplateFile.Compile | OsuBuilder/src/main/java/com/ry/osu/builderRedone/TemplateFile.java:129-140 | the template with each entry's placeholder replaced once, in map order |
| TemplateFiles.SetThenGet | OsuBuilder/src/main/java/com/ry/osu/builderRedone/TemplateFile.java:110-122 | getElement answers the value set last for an element, whatever is set for other elements afterwards |
| TimingInfos.AddNotesOutcome | OsuBuilder/src/main/java/com/ry/osu/builderRedone/util/TimingInfo.java:68-73 | the note loop succeeds exactly when every mapper call does, and appends the non-null hit objects in note order |
| TimingInfos.RowStepOutcome | OsuBuilder/src/main/java/com/ry/osu/builderRedone/util/TimingInfo.java:54-73 | one row succeeds exactly when it has a BPM and its mapper calls succeed; the latest BPM becomes the row's, its point is appended only when the value changed, and its notes' hit objects follow |
| TimingInfos.LoadSitesOutcome | OsuBuilder/src/main/java/com/ry/osu/builderRedone/util/TimingInfo.java:53-75 | the row loop succeeds exactly when every row has a BPM and every mapper call succeeds, and appends the non-null points of the rows whose BPM value changes and the non-null hit objects of all notes, in order |
| TimingInfos.SitesFirst | OsuBuilder/src/main/java/com/ry/osu/builderRedone/util/TimingInfo.java:45-48 | the first row visited is the first row of the first measure |
| TimingInfos.LoadSitesUnknownBpm | OsuBuilder/src/main/java/com/ry/osu/builderRedone/util/TimingInfo.java:57 | comparing a null latest BPM raises NullPointerException |
| TimingInfos.LoadFromNotesOutcome | OsuBuilder/src/main/java/com/ry/osu/builderRedone/util/TimingInfo.java:38-78 | loadFromNotes succeeds exactly when the first measure has a row with a BPM and every mapper call succeeds; the first row's point comes first, the first row never adds a second one, and the rest is as the row loop says |
| TimingInfos.TimingInfo.constructor | OsuBuilder/src/main/java/com/ry/osu/builderRedone/util/TimingInfo.java:30-34 | holds the two lists |
| TimingInfos.TimingInfo.ReplaceTimingPoints | OsuBuilder/src/main/java/com/ry/osu/builderRedone/util/TimingInfo.java:116-124 | every point the filter accepts is replaced in place by the action's result; the hit objects stay |
| TimingInfos.TimingInfo.ReplaceHitObjects | OsuBuilder/src/main/java/com/ry/osu/builderRedone/util/TimingInfo.java:126-134 | every hit object the filter accepts is replaced in place; the timing points stay |
| TimingInfos.LoadRow | OsuBuilder/src/main/java/com/ry/osu/builderRedone/util/TimingInfo.java:54-73 | one turn of the row loop computes RowStep |
| TimingInfos.LoadFromNotes | OsuBuilder/src/main/java/com/ry/osu/builderRedone/util/TimingInfo.java:38-78 | the loops compute LoadFromNotesSpec: its failure, or a new TimingInfo holding its two lists |
| TimingInfos.RowFails | OsuBuilder/src/main/java/com/ry/osu/builderRedone/util/TimingInfo.java:53-75 | a failure at some row of some measure is the failure of the whole load |
| TimingInfos.LoadFromEtternaInfo | OsuBuilder/src/main/java/com/ry/osu/builderRedone/util/TimingInfo.java:80-110 | loadFromNotes with the Etterna mappers: the exception or the two lists of the reference load, whose BPM mapper fails on a zero BPM |
| TimingInfos.EtternaZeroBpmFails | OsuBuilder/src/main/java/com/ry/osu/builderRedone/util/TimingInfo.java:80-91 | a chart whose timed first row carries a BPM of value zero fails to load with ArithmeticException |
| TimingInfos.EtternaPointsUninherited | OsuBuilder/src/main/java/com/ry/osu/builderRedone/util/TimingInfo.java:86-91 | every point kept from the Etterna BPM mapper is uninherited |
| TimingInfos.EtternaHitObjectsKept | OsuBuilder/src/main/java/com/ry/osu/builderRedone/util/TimingInfo.java:93-108 | the hit objects kept are exactly the mappings of the taps and hold heads |
| TimingInfos.EtternaLoadShape | OsuBuilder/src/main/java/com/ry/osu/builderRedone/util/TimingInfo.java:80-110 | loaded from Etterna notes, every timing point is uninherited and the hit objects are exactly the mappings of the taps and hold heads |
| Lists.RewrittenAt | OsuBuilder/src/main/java/com/ry/osu/builderRedone/util/TimingInfo.java:116-134 | rewriting keeps the length; each element the filter accepts becomes the action's result and every other stays |
| ConverterFilters.Test | EtternaToOsu/src/main/java/com/ry/reredone/DefaultConverterController.java:159-185 | equal MSDs always pass; otherwise a pass means the rated overall lies in the up-rate range and either a down-rate from a base at least the minimum down-rate MSD or a rise of at most the maximum deviation; and every such pair passes |
| ConverterFilters.TestMonotone | EtternaToOsu/src/main/java/com/ry/reredone/DefaultConverterController.java:159-185 | widening the controller's limits never rejects a pair it accepted |
| ConverterFilters.MsdFilter | EtternaToOsu/src/main/java/com/ry/cli/ConversionConfig.java:281-311 | a pass means a rated overall above 1.0, a deviation strictly inside the maximum, a rated overall within the range, and for a rate starting "0." a base at least the minimum down-rate MSD; and every such pair passes |
| ConverterFilters.UpRateFiltersAgree | EtternaToOsu/src/main/java/com/ry/cli/ConversionConfig.java:281-311 | on up-rates the configuration filter and the controller agree, except at a rise of exactly the maximum deviation, which only the controller accepts |
| ConverterFilters.MapToBigDecimal | EtternaToOsu/src/main/java/com/ry/cli/ConversionConfig.java:455-461 | the configuration error exactly when the text is not a BigDecimal literal: an optional sign, digits with at most one point, and an optional exponent whose resulting scale fits an int |
| ConverterFilters.MapToBigDecimalRoundTrip | EtternaToOsu/src/main/java/com/ry/cli/ConversionConfig.java:455-461 | a printed decimal maps back to itself |
| ConverterFilters.MapToBigDecimalExponent | EtternaToOsu/src/main/java/com/ry/cli/ConversionConfig.java:455-461 | scientific notation is accepted ("1E2" is the integer one hundred) and an exponent without digits is a configuration error |
| Decimals.ParseExponentValue | EtternaToOsu/src/main/java/com/ry/cli/ConversionConfig.java:457 | a literal with an exponent x denotes its significand times ten to the power x (divided by ten to the power -x for a negative x) |
| Decimals.ScaledValue | EtternaToOsu/src/main/java/com/ry/cli/ConversionConfig.java:457 | applying an exponent multiplies the significand's value by the matching power of ten |
| Decimals.RefusedExponents | EtternaToOsu/src/main/java/com/ry/cli/ConversionConfig.java:457 | an exponent marker needs a significand before it and an integer after it |
| ConverterFilters.MapToFloat0To10AsWritten | EtternaToOsu/src/main/java/com/ry/cli/ConversionConfig.java:463-472 | as written, an accepted value lies between 1 and 10 |
| ConverterFilters.MapToFloat0To10 | EtternaToOsu/src/main/java/com/ry/cli/ConversionConfig.java:463-472 | an accepted value lies between 0 and 10, as the message says |
| ConverterFilters.MapToFloat0To10Exact | EtternaToOsu/src/main/java/com/ry/cli/ConversionConfig.java:463-472 | a printed decimal is accepted exactly when it lies between 0 and 10, and maps to its value |
| ConverterFilters.Float0To10RejectsBelowOne | EtternaToOsu/src/main/java/com/ry/cli/ConversionConfig.java:466-467 | as written 0.5 is rejected although the message promises 0 to 10; the corrected mapping accepts it |
| ConverterFilters.MapToBooleanWords | EtternaToOsu/src/main/java/com/ry/cli/ConversionConfig.java:474-487 | true exactly for y, yes or true and false exactly for n, no or false, ignoring case; anything else is the configuration error |
| ConverterFilters.LowerOfLower | EtternaToOsu/src/main/java/com/ry/cli/ConversionConfig.java:478-482 | lower-casing twice is lower-casing once |
| ConverterFilters.MapToPosInt | EtternaToOsu/src/main/java/com/ry/cli/ConversionConfig.java:498-511 | the configuration error unless the text is an integer literal between 1 and the largest int |
| ConverterFilters.MapToPosIntRoundTrip | EtternaToOsu/src/main/java/com/ry/cli/ConversionConfig.java:498-511 | a printed positive int maps back to itself; every other printed integer is the configuration error |
| ConverterFilters.ClampAsWrittenDropsEveryHold | EtternaToOsu/src/main/java/com/ry/cli/ConversionConfig.java:271-273 | as written the hold length is the end time minus itself, zero, so every hold with an end time becomes a tap |
| ConverterFilters.LongHoldClamped | EtternaToOsu/src/main/java/com/ry/cli/ConversionConfig.java:271-273 | as written a 1000 ms hold under a 20 ms minimum becomes a tap; measured from its start it stays a hold |
| ConverterFilters.ClampedTypeExact | EtternaToOsu/src/main/java/com/ry/cli/ConversionConfig.java:264-277 | measured from the start, no minimum or no hold keeps the type, and a hold with an end time becomes a tap exactly when its length is at most the minimum |
| ConverterFilters.ClampHoldAsWritten | EtternaToOsu/src/main/java/com/ry/cli/ConversionConfig.java:264-277 | the builder's type becomes ClampedTypeAsWritten, with y moved to 0 when it changes, and nothing else |
| ConverterFilters.ClampHold | EtternaToOsu/src/main/java/com/ry/cli/ConversionConfig.java:264-277 | the builder's type becomes ClampedType measured from the start time, with y moved to 0 when it changes; a hold without a start time raises NullPointerException |
| CommandBuilders.FirstMatch | FFMPEG/src/main/java/com/ry/ffmpeg/CommandBuilder.java:55-61 | the first argument that matches, and absent means none matches |
| CommandBuilders.SubstitutedAt | FFMPEG/src/main/java/com/ry/ffmpeg/CommandBuilder.java:30-39 | the same length; every argument equal to the target becomes the new value and every other stays |
| CommandBuilders.SubstitutedIsRewritten | FFMPEG/src/main/java/com/ry/ffmpeg/CommandBuilder.java:30-51 | mutate(target, value) is mutate with "equals target" as the filter and "always value" as the action |
| CommandBuilders.SubstitutedRemovesTarget | FFMPEG/src/main/java/com/ry/ffmpeg/CommandBuilder.java:30-39 | no argument equals the target afterwards, and mutating again changes nothing |
| CommandBuilders.ReplacedFirstChangesOne | FFMPEG/src/main/java/com/ry/ffmpeg/CommandBuilder.java:53-64 | at most one argument changes, the first that matches, into the replacement; with no match nothing changes |
| CommandBuilders.CommandBuilder.constructor | FFMPEG/src/main/java/com/ry/ffmpeg/CommandBuilder.java:18 | no arguments |
| CommandBuilders.CommandBuilder.Add | FFMPEG/src/main/java/com/ry/ffmpeg/CommandBuilder.java:20-23 | appends one argument |
| CommandBuilders.CommandBuilder.AddAll | FFMPEG/src/main/java/com/ry/ffmpeg/CommandBuilder.java:25-28 | appends the arguments in order |
| CommandBuilders.CommandBuilder.Mutate | FFMPEG/src/main/java/com/ry/ffmpeg/CommandBuilder.java:30-39 | the loop computes Substituted |
| CommandBuilders.CommandBuilder.MutateWhere | FFMPEG/src/main/java/com/ry/ffmpeg/CommandBuilder.java:41-51 | the loop computes Rewritten |
| CommandBuilders.CommandBuilder.ReplaceFirst | FFMPEG/src/main/java/com/ry/ffmpeg/CommandBuilder.java:53-64 | the loop computes ReplacedFirst |
| CommandBuilders.CommandBuilder.Build | FFMPEG/src/main/java/com/ry/ffmpeg/CommandBuilder.java:69-71 | a new array holding the arguments in order |
| StringUtil.ParseIntRange | src/main/java/com/ry/useful/StringUtils.java:116-129 | parseInt's result is an int: a fitting value unchanged, a larger one the largest int, a smaller one the smallest |
| StringUtil.ParseIntOfPrinted | src/main/java/com/ry/useful/StringUtils.java:116-129 | a printed integer parses back to itself, clamped to the int range |
| StringUtil.IsIntegerParses | src/main/java/com/ry/useful/StringUtils.java:105-129 | every text isInteger accepts parses, and parseInt accepts only those and a leading '+' |
| StringUtil.QuoteUnwrap | src/main/java/com/ry/useful/StringUtils.java:168-171 | the text sits between two copies of the quote |
| StringUtil.FileNameAndExtension | src/main/java/com/ry/useful/StringUtils.java:189-215 | both halves exist exactly when there is a '.'; name plus extension with its dot is the text, and the extension without the dot holds no '.' |
| StringUtil.BuildPathSplits | src/main/java/com/ry/useful/StringUtils.java:257-269 | elements free of '/' come back in order when the path is split at '/' |
| FfmpegUtils.QuoteUnwrap | FFMPEG/src/main/java/com/ry/ffmpeg/FFMPEGUtils.java:163-165 | the text sits between two double quotes |
| FfmpegUtils.DelayMillis | FFMPEG/src/main/java/com/ry/ffmpeg/FFMPEGUtils.java:55-58 | a delay that is not negative gives a millisecond count that is not negative |
| FfmpegUtils.DelayMillisExact | FFMPEG/src/main/java/com/ry/ffmpeg/FFMPEGUtils.java:55-58 | a delay whose millisecond value fits 12 significant digits gives exactly that many whole milliseconds |
| FfmpegUtils.ChannelDelaysSplit | FFMPEG/src/main/java/com/ry/ffmpeg/FFMPEGUtils.java:59 | the adelay text holds the same delay for each of four channels |
| FfmpegUtils.DelayAudioShape | FFMPEG/src/main/java/com/ry/ffmpeg/FFMPEGUtils.java:50-78 | eight arguments; a delay that is not negative gives the four-channel adelay filter, each field reading back as the milliseconds; a negative delay gives a seek reading back as the positive negated delay |
| FfmpegUtils.RateAudioShape | FFMPEG/src/main/java/com/ry/ffmpeg/FFMPEGUtils.java:132-155 | seven arguments in both modes, differing only in the filter: quoted atempo with the rate, or unquoted asetrate at 44100 times the rate |
| FfmpegUtils.TempSuffixShape | FFMPEG/src/main/java/com/ry/ffmpeg/FFMPEGUtils.java:88-91 | the temporary copy takes the input name's suffix from its last '.', which exists exactly when the name holds a '.'; without one, substring raises StringIndexOutOfBoundsException |
| FfmpegUtils.CompressShape | FFMPEG/src/main/java/com/ry/ffmpeg/FFMPEGUtils.java:98-120 | audio is re-encoded from the quoted temporary copy back onto the quoted input path; an image is re-encoded from the quoted input to the quoted output with ".jpg" appended |
| IoCommands.BuildLayout | FFMPEG/src/main/java/com/ry/ffmpeg/IOCommand.java:100-110 | the executable, the global flags, the input options, "-i" and the input path, the output options and the output path, in that order; two longer than countArgs reports |
| IoCommands.PathsQuotedIff | FFMPEG/src/main/java/com/ry/ffmpeg/IOCommand.java:69-86 | the paths are quoted exactly when isQuotePaths is set, and kept as they are otherwise |
| CompletionSwitches.CompletionSwitch.constructor | EtternaToOsu/src/main/java/com/ry/tracker/CompletionSwitch.java:27-39 | neither cancelled nor complete, nothing queued |
| CompletionSwitches.CompletionSwitch.RunOnComplete | EtternaToOsu/src/main/java/com/ry/tracker/CompletionSwitch.java:46-58 | a cancelled switch ignores the task; an incomplete one queues it; a complete one runs it at once |
| CompletionSwitches.CompletionSwitch.SetComplete | EtternaToOsu/src/main/java/com/ry/tracker/CompletionSwitch.java:60-65 | completing runs every queued task in order and empties the queue; clearing the flag changes nothing else |
| CompletionSwitches.CompletionSwitch.PingComplete | EtternaToOsu/src/main/java/com/ry/tracker/CompletionSwitch.java:67-75 | runs every queued task in order and removes it |
| CompletionSwitches.CompletionSwitch.SetCancelled | EtternaToOsu/src/main/java/com/ry/tracker/CompletionSwitch.java:77-84 | cancelling drops every queued task without running it |
| CompletionSwitches.QueueThenComplete | EtternaToOsu/src/main/java/com/ry/tracker/CompletionSwitch.java:46-75 | tasks queued before completion all run, in the order given |
| CompletionSwitches.CancelledNeverRuns | EtternaToOsu/src/main/java/com/ry/tracker/CompletionSwitch.java:46-84 | after a cancellation no task queued before or handed over after ever runs |
| MessageBuilders.CellWidth | MyStuffFix/src/main/java/com/ry/useful/MessageBuilder.java:44-59 | a string fails exactly when too long with clamping off or a negative width; otherwise its column is exactly the spacing wide: the string padded with spaces, or cut |
| MessageBuilders.CellsWidth | MyStuffFix/src/main/java/com/ry/useful/MessageBuilder.java:42-60 | a call that fails at no string appends spacing times the number of strings; clamping to a width that is not negative never fails |
| MessageBuilders.CellsStop | MyStuffFix/src/main/java/com/ry/useful/MessageBuilder.java:44-60 | the first failing string ends the call |
| MessageBuilders.MessageBuilder.constructor | MyStuffFix/src/main/java/com/ry/useful/MessageBuilder.java:22-25 | an empty message, both switches off, the spacing given |
| MessageBuilders.MessageBuilder.SetAutoNewline | MyStuffFix/src/main/java/com/ry/useful/MessageBuilder.java:27-30 | sets the newline switch alone |
| MessageBuilders.MessageBuilder.SetAutoClamp | MyStuffFix/src/main/java/com/ry/useful/MessageBuilder.java:32-35 | sets the clamp switch alone |
| MessageBuilders.MessageBuilder.AddLineSeparator | MyStuffFix/src/main/java/com/ry/useful/MessageBuilder.java:37-40 | appends the line separator |
| MessageBuilders.MessageBuilder.AddString | MyStuffFix/src/main/java/com/ry/useful/MessageBuilder.java:65-68 | appends the string and as many spaces as required, none when negative |
| MessageBuilders.MessageBuilder.AddCell | MyStuffFix/src/main/java/com/ry/useful/MessageBuilder.java:44-59 | one string either appends exactly its column or raises the exception its width and the clamp switch call for, leaving the text unchanged |
| MessageBuilders.MessageBuilder.Add | MyStuffFix/src/main/java/com/ry/useful/MessageBuilder.java:42-63 | appends the cells before the first failure and raises it; when none fails and the newline switch is on, the line separator follows |
| MessageBuilders.MessageBuilder.Build | MyStuffFix/src/main/java/com/ry/useful/MessageBuilder.java:70-72 | the message so far |
| MessageBuilders.ClampedLine | MyStuffFix/src/main/java/com/ry/useful/MessageBuilder.java:42-63 | with clamping and a newline, a line is spacing times the number of strings wide plus the separator |
| ExtractedProperties.ExactlyOneSize | src/main/java/com/ry/useful/property/ExtractedProperty.java:121-139 | every property is exactly one of empty, singleton or many |
| ExtractedProperties.AccessorsGuarded | src/main/java/com/ry/useful/property/ExtractedProperty.java:79-102 | getSingleton succeeds exactly for one value and getMany exactly for more than one, each giving the values; never both |
| ExtractedProperties.MapAllAt | src/main/java/com/ry/useful/property/ExtractedProperty.java:111-115 | processMany maps every value in order |
| ExtractedProperties.ProcessAgree | src/main/java/com/ry/useful/property/ExtractedProperty.java:92-115 | on a singleton, processMany is the one-element list of processSingleton |

## Left out

- Msds.MsdFilterTag: requires that the walk from the lower bound advances (a positive step, or a start above the bound); with a non-positive step the source's loop never ends, so those inputs are excluded. The same holds for Msds.GetMsdFilterTag.
- The MinaCalc engine itself (the `calc_msd` and `MinaSDCalc` computations) and the JNI array plumbing: the engine's results are parameters of the bridge.
- Floating point: `TimingSequence`'s DECIMAL64 arithmetic, its 12-digit roundings and the double BPM are not modelled; times are exact rationals.
- The beat-length derivation of `TimingPoint.setBeatLength` (a chain of DECIMAL64 operations rounded up): the builder takes the finished value and the Etterna mapper takes the derivation as a parameter.
- The float pixel arithmetic of `HitObject.setX(column, columns)`: the column-to-x mapping is a parameter.
- The finalisers a conversion applies to each hit object and timing point are taken as the identity where the converter does not define them.
- TemplateFiles.TemplateFile.constructor: models the constructor on a modifiable copy of the given map; on the unmodifiable map Lombok's `@Singular` builder hands over it throws (see Findings and TemplateFiles.BuiltConstructorThrows), so the rest of the model uses the corrected behaviour.
- Vsrg.Bpm.Rated: multiplies the BPM by the rate exactly; the source multiplies in the DECIMAL64 context, which rounds products beyond 16 significant digits. The same holds for EtternaTimings.RatedBpms and EtternaTimings.EtternaTiming.Rated.
- Msds.GetMsdFilterTag: parses the bounds and the step and adds the step exactly; the source builds them with `new BigDecimal(String, DECIMAL64)` and adds in DECIMAL64, which round beyond 16 significant digits. The same holds for Msds.MsdFilterTag.
- ConverterFilters.MsdFilter: subtracts the skill values exactly; the source subtracts in DECIMAL64, which rounds beyond 16 significant digits. The same holds for ConverterFilters.Test.
- HitObjects.HitObjectBuilder.SetStartTime: multiplies the time by 1000 exactly; the source's `multiply(1000, DECIMAL64)` rounds beyond 16 significant digits. The same holds for TimingPoints.TimingPointBuilder.SetTime.
- ConverterFilters.MapToFloat0To10: answers the exact value; the source returns `floatValue()`, the nearest 32-bit float. The same holds for ConverterFilters.MapToFloat0To10AsWritten.
- MessageBuilders.CellWidth: counts characters as sequence elements; the source's `String.length()` counts UTF-16 code units, which differ for characters outside the Basic Multilingual Plane. The same holds for MessageBuilders.MessageBuilder.AddCell and MessageBuilders.MessageBuilder.Add.
- EtternaTimings.EtternaTimingStrToBpm: reads each time and BPM exactly; the source parses them with `new BigDecimal(s, DECIMAL64)`, which rounds a literal of more than 16 significant digits ("150.0000000000000000001" becomes 150.0000000000000). The same holds for EtternaTimings.ParsePair.
- Msds.InRange: reads the two bounds exactly; the source parses them in DECIMAL64, so a bound of more than 16 significant digits is rounded first and can move a skill on the boundary into or out of the range. Msds.OverallInRange is unaffected, since its bounds "18" and "35" are exact.
- CachedNoteInfos.CachedMsdForRate: reads the rate exactly before rounding it half-even to hundredths; the source parses it in DECIMAL64 first, so a rate of more than 16 significant digits can round to a different hundredth ("1.0450000000000000001" gives 1.04 there, off the grid, and 1.05 here); its neighbours at plus and minus 0.05 are exact only for rates below 10^14. The same holds for CachedNoteInfos.CachedNoteInfo.GetMsdForRate.
- MinaCalcRaw.BuildRawNotes: keeps each row time exact; the source hands the engine `floatValue()` of the time, the nearest 32-bit float. The same holds for MinaCalcRaw.RawNotesOf.
- EtternaNoteInfos.BpmDigits: adds the offset to the exact BPM; the source adds it to `doubleValue()`, so a BPM whose exact sum is an integer can fall just below it in double and key one lower. The saturating `(int)` cast is modelled. The same holds for EtternaNoteInfos.EtternaNoteInfo.Blob.
- CompletionSwitches.CompletionSwitch.SetComplete: is one atomic step; the source writes `isComplete` outside the lock that guards the task list, so another thread can briefly see a completed switch whose queue is not yet empty. Queued tasks are opaque and cannot call back into the switch. The same holds for CompletionSwitches.CompletionSwitch.PingComplete and RunOnComplete.
- Decimals.ParseDecimal: the exponent and the digits are ASCII only; `BigDecimal` also accepts other Unicode decimal digits.
- `TemplateFile.from`: it applies a caller-supplied finaliser to a builder holding the timing information and then calls `build()`, which as written always raises UnsupportedOperationException (TemplateFiles.BuiltConstructorThrows); the finaliser is arbitrary code, so the model stops at the build.
- The static template load is file and resource I/O: the template is a parameter of the compile step.
- `EtternaNoteInfo.loadFromStr`, `loadNotesFromStr` and `debugStr`: regex-driven parsing of `.sm` text; the note data is built from parsed measures.
- SHA-1 of the chart key (`DigestUtils.sha1Hex`) is a parameter.
- The steps-cache database query (`queryStepsCache`, SQL): only the choice of the key is modelled.
- `MSD.skillToString`, `getSkillIfReasonable`, `debugStr` and `sourceStr` (display helpers); `getSkillIfReasonable` relies on the same reference comparison as the NaN tag below and never holds.
- `CachedNoteInfo.from`, `getEtternaFile`, `getPackTitle`, `convertImage`, `convertAudio` and its handler (file system and process work).
- Process execution, file I/O, reflection and argument parsing of `ConversionConfig.loadFromArgs`, and `mapToPath`.
- `CommandBuilder.clone`; the regular expression of `replaceFirst` is a parameter (a predicate on the match).
- `StringUtils.get`, `getAll`, `forAllMatches`, `matcherOf`, `contains`, `parseDouble`, `toAscii` and `toFileName` (regex and Unicode work); `isFloat` is modelled as "contains a decimal digit", the effect of its regex `find`.
- Unicode digits and case folding: only ASCII is modelled.
- `BigDecimal.equals` compares scale as well as value; the model compares values.
- `NoteType.isMinaAssessedNote`, used by `NoteRow.getNoteMapping`, is not in `NoteType.java`; whether a note is assessed is a parameter.
- The execution listener of `IOCommand` and the actual running of commands; `MessageBuilder` takes the line separator (`System.lineSeparator()`) as a constructor argument.
- The positive audio offset handling, the GUI/CLI front ends, the pack and song discovery, and the running of the image and audio compression processes (their argument lists are modelled; the temporary copy of `compressAudio` is file I/O and its path is a parameter).

## Findings

| source | as written | input that shows it | evidently intended | confidence | as-written member | corrected member |
|---|---|---|---|---|---|---|
| MinaCalcNative/MinaCalc-Native-FNUtils/src/MinaCalc.cpp:33-37 | `dispose` deletes the calculator but leaves the global handle pointing at it | init, dispose, then init again: the bridge reports itself loaded and the second init reuses the freed instance; dispose twice: the freed instance is deleted a second time | reset the handle to null after deleting | not executed | MinaCalcNative.DisposeLeavesHandleSet | MinaCalcNative.DisposeAndResetClearsHandle |
| Etterna/src/main/java/com/ry/etterna/msd/MSD.java:274 | `overall == NAN` compares a freshly scaled `BigDecimal` with the constant by reference | an MSD whose overall value is NaN (-1): no "MSD==NaN" tag is written | compare by value, so a NaN overall adds the tag | not executed | Msds.NaNTagNeverWritten | Msds.NaNTagWhenNaN |
| EtternaToOsu/src/main/java/com/ry/cli/ConversionConfig.java:271-273 | the hold length is `endTime - endTime`, always zero | a 1000 ms hold with a 20 ms minimum length becomes a tap | measure the hold from its start time | not executed | ConverterFilters.LongHoldClamped | ConverterFilters.ClampedTypeExact |
| OsuBuilder/src/main/java/com/ry/osu/builderRedone/TemplateFile.java:74-87 | the constructor fills missing elements with `putIfAbsent` on the map it is given, which the `@Singular` builder makes unmodifiable | any `TemplateFile.builder()...build()`, with or without elements set: `putIfAbsent` raises UnsupportedOperationException | copy the given map into a modifiable `LinkedHashMap` before filling it | not executed; follows from Lombok's generated `build()` | TemplateFiles.BuiltConstructorThrows | TemplateFiles.ConstructedComplete |
| EtternaToOsu/src/main/java/com/ry/cli/ConversionConfig.java:466-467 | `mapToFloat0To10` rejects values below 1 while its message promises 0 to 10 | "0.5" is rejected | accept every value from 0 to 10 | not executed | ConverterFilters.Float0To10RejectsBelowOne | ConverterFilters.MapToFloat0To10Exact |
