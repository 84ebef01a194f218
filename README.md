# Listening-practice clip builder, modelled in Dafny

The repository turns a timestamped Japanese (or Spanish) transcript and the
matching audio into a set of short study clips. Four driver scripts share one
pipeline:

1. `parse_transcript` reads the transcript line by line. A timestamp-range line
   opens an entry, and the text lines after it are joined with spaces. The
   entry is then kept or dropped by the script's filters: filler texts,
   excluded time ranges, an "is English" letter ratio, a minimum length, or an
   opening cutoff.
2. `merge_segments` makes one greedy pass with an accumulator and merges
   neighbouring entries into study segments. The rules are a short-segment
   rule, a very-short rule, a tiny-gap rule and a question/vocative rule. A
   cap on the merged duration vetoes a merge, and in build_srs.py a short
   isolated filler is dropped.
3. `adjust_endpoints_with_audio` refines each segment's end, and in
   build_evangelion.py also its start. It scans normalised RMS energy frames
   for silence, with clamps and fixed fallbacks.
4. `split_audio_ffmpeg` names one clip per segment (`clip_{idx:03d}.ext`).
   `main` writes one manifest record per clip, with times printed by
   `seconds_to_time`.

`preview_segments.py` runs steps 1 and 2 with its own constants. `split_nier.py`
cuts a long game transcript and its audio into 27 chapters. It assigns each
entry to the half-open chapter window its start falls in, rebases the entry's
times to the chapter, and writes the chapter in the layout the parser reads.
It builds one ffmpeg command per chapter.

The model describes the shared logic once, with parameters. `Transcript.Format`,
`Merge.Rules` and `Endpoints.EndpointConfig` carry each script's constants, and
module `Scripts` instantiates them per script. The modules are:

- `Strings`: Python's `strip`, `split`, `join`, `int` and zero-padded format.
- `Clock`: the time conversions.
- `Filters`: the entry filters.
- `Transcript`: the parser.
- `Merge`: the merger.
- `Endpoints`: the silence searches and the in-place refinement of an
  `array<Segment>`.
- `Clips`: clip names and the manifest.
- `Chapters` and `NierTable`: split_nier.py.

Each loop over lines, entries, segments, clips or chapters is a method with
loop invariants, proved equal to a specification function. The lemmas about
that function state what the source promises. Counting generators,
comprehensions and the small scan of `is_excluded` are recursive functions
(`Filters.AsciiLetters`, `Filters.Letters`, `Filters.IsExcluded`,
`Chapters.StartTimes`, `Chapters.InWindowEntries`).

Behaviours of the source the model keeps:

- In build_evangelion.py, segment `i`'s start search reads the end of segment
  `i - 1` as the loop has already refined it, not the transcript end.
- `find_silence_after` scans `range(len(rms_norm) - min_silence_frames)`, so it
  never considers the last possible window, and a window of exactly
  `min_silence_frames` frames is never found. The model keeps this
  (`Endpoints.FirstQuietFrom` requires `i + m < |frames|`).
- split_nier.py has two spellings of the time conversion:
  - `time_to_seconds` tests three parts first.
  - `parse_timestamp` tests two parts first.

  They are modelled separately (`Clock.NierTimeToSeconds`, `Clock.TimeToSeconds`)
  and proved equal everywhere.

## Model

| member | source | states |
|---|---|---|
| Clock.TimestampAgreement | split_nier.py:46-69 | split_nier.py's `time_to_seconds` and `parse_timestamp` agree on every string. Two numeral parts give 60M+S, three give 3600H+60M+S, any other part count gives 0 |
| Clock.MinutesSecondsAgrees | build_srs.py:50-52 | the two-part conversion of build_srs.py, build_charlottes_web.py and preview_segments.py equals the general conversion on every two-part string |
| Clock.ThreePart | build_evangelion.py:48-54 | an "A:B:C" string of numerals reads as 3600A+60B+C |
| Clock.Trunc | build_evangelion.py:57 | `int(x)` truncates toward zero: the result is the integer part, below or above x depending on the sign |
| Clock.TwoPartRoundTrip | build_evangelion.py:56-59 | a padded "MM:SS" string splits into its two fields and reads back as 60M+S |
| Clock.SecondsToTimeRoundTrip | build_evangelion.py:56-59 | for t >= 0, `time_to_seconds(seconds_to_time(t))` is the integer part of t, so n gives back n |
| Clock.FfmpegFields | split_nier.py:55-60 | the hours, minutes and seconds of `seconds_to_ffmpeg` recompose s exactly, with minutes and seconds in [0, 60) |
| Clock.FfmpegRoundTrip | split_nier.py:55-60 | a `seconds_to_ffmpeg` string reads back as the seconds it was printed from |
| Strings.ZeroPadRoundTrip | build_evangelion.py:59 | a `{n:0Wd}` numeral is all digits and `int()` reads it back as n |
| Filters.IsExcluded | build_srs.py:65-69 | a start is excluded iff some range has lo <= t <= hi, bounds included |
| Filters.IsEnglishIff | build_evangelion.py:67-72 | `is_english` is false without letters; otherwise it holds iff 2 * ascii letters > letters |
| Filters.AsciiLettersAtMostLetters | build_evangelion.py:70-71 | the ASCII-letter count never exceeds the letter count, so the ratio is at most 1 |
| Filters.NoAsciiLettersNotEnglish | preview_segments.py:40-47 | a text without ASCII letters is never English |
| Transcript.TwoDigitIsClock | build_srs.py:94 | a `\d{2}:\d{2}` clock also matches the general clock pattern and reads the same |
| Transcript.TwoDigitHeaderIsFlexible | build_srs.py:107 | every two-digit timestamp line is a general timestamp line with the same times |
| Transcript.HeaderChars | build_evangelion.py:89 | a timestamp line consists of digits, colons and hyphens only |
| Transcript.CollectText | build_evangelion.py:95-101 | the inner loop stops at the first non-text line and has collected exactly the texts before it |
| Transcript.ParseTranscript | build_evangelion.py:77-114 | the index loop emits exactly the entries of the specification parser, in file order |
| Transcript.ParseAccFrom | build_evangelion.py:85-112 | the loop's accumulate-as-you-go order equals the entries found from line i on, appended to those already emitted |
| Transcript.ParsedEntries | build_srs.py:114-119 | every emitted entry passes the script's filters and has a one-line text that is not a timestamp line and, outside the arrow dialect, has no blank at either end (the text after `→` is not stripped again) |
| Transcript.JoinedText | build_charlottes_web.py:109 | joining well-formed text lines with single spaces gives a well-formed text |
| Merge.ShouldMerge | build_srs.py:144-158 | the merge proposal holds exactly when one of the script's rules holds: short-segment, very-short, tiny-gap or question/vocative |
| Merge.MergeSegments | build_srs.py:125-197 | the loop with `current` and `merged` returns exactly the specification merge |
| Merge.MergeAccKept | build_evangelion.py:128-162 | the loop's output order equals the emitted blocks' accumulators, in order |
| Merge.PartitionEntries | build_evangelion.py:116-162 | the blocks the merge builds are the input entries, each once and in order |
| Merge.PartitionDrops | build_srs.py:173-195 | a block is discarded only if it is a single listed text under a second; with the drop rule on every close, every such block is discarded |
| Merge.MergeGroupsAreBlocks | build_evangelion.py:143-146 | every emitted group starts at its first entry's start, ends at its last entry's end and holds its texts in order |
| Merge.MergeWithinCap | build_evangelion.py:142-153 | under the veto, every emitted group of two or more entries lasts at most the cap |
| Merge.MergeNeverIsolated | build_srs.py:173-195 | with the drop rule on every close, no emitted group is a lone listed text under a second, mid-stream or at the end |
| Merge.MergeConservesTexts | build_charlottes_web.py:123-175 | without a drop rule, the output texts are the input texts, each once and in order; empty input gives empty output and only empty input does |
| Merge.FinalizedBlocks | build_evangelion.py:165-170 | every finished segment stands for one block of consecutive input entries: it runs from the block's first start to its last end, and its text is the block's texts, in order, joined by " / " |
| Endpoints.NormalizedPeak | build_evangelion.py:201-204 | normalised by the window's own maximum, every frame is at most 1 and the loudest is 1 |
| Endpoints.FirstQuietFrom | build_evangelion.py:208-215 | the scan finds the smallest i < len - m whose m frames are all below the threshold, or, failing that, no such i |
| Endpoints.LastOnsetBelow | build_evangelion.py:252-258 | the downward scan finds the largest loud frame i >= m preceded by m quiet frames, or there is none |
| Endpoints.FindSilenceAfter | build_evangelion.py:172-217 | the clipping, normalisation and early-return scan return exactly the specified end |
| Endpoints.SilenceAfterBounds | build_evangelion.py:208-217 | every result is the fallback or lies at least offset + END_BUFFER past the start, and at least MIN_EXTENSION past it under the clamp |
| Endpoints.SilenceAfterShortWindow | build_charlottes_web.py:190-207 | an empty window, or one shorter than the minimal silence, gives the fallback |
| Endpoints.FindSilenceBefore | build_evangelion.py:219-263 | the window clipping and the downward scan return exactly the specified start |
| Endpoints.SilenceBeforeShortWindow | build_evangelion.py:227-236 | a window that is empty, starts before sample 0 or is shorter than the minimal silence returns `start_time` unchanged |
| Endpoints.SilenceBeforeSilentWindow | build_evangelion.py:243-248 | with no positive `global_rms_max` and a window whose loudest frame is 0, `start_time` is returned unchanged |
| Endpoints.SilenceBeforeBounds | build_evangelion.py:219-263 | every result is `start_time` itself or at least the previous end + 0.05 |
| Endpoints.RefineSegment | build_evangelion.py:275-287 | the loop body writes only segment i: start from the previous segment's current end, end bounded by the next segment's current start |
| Endpoints.AdjustEndpoints | build_evangelion.py:265-289 | after the in-place loop the array holds exactly the specified refinement of the original segments |
| Endpoints.AdjustPrefixStable | build_evangelion.py:274-287 | once refined, a segment is never rewritten by a later pass |
| Endpoints.AdjustPrefixAt | build_evangelion.py:274-287 | finished segment i is its refinement from finished segment i - 1's end and original segment i + 1's start |
| Endpoints.AdjustedSegment | build_evangelion.py:274-289 | each finished segment keeps its text; its end is searched from its own end up to the next original start; its start is searched from the previous refined end, or kept when there is no start search |
| Clips.ClipNameReads | build_evangelion.py:295 | the clip index can be read back from its name, between `clip_` and the first dot |
| Clips.ClipNameInjective | build_srs.py:284 | distinct indices give distinct clip names |
| Clips.NameClips | build_evangelion.py:291-297 | clip idx carries segment idx unchanged and the name for idx; no two clips share a file |
| Clips.BuildManifest | build_evangelion.py:360-367 | one record per clip, in order, each the clip's manifest record |
| Clips.RecordReadsBack | build_srs.py:334-341 | a record's start and end read back (through `time_to_seconds`) as the whole seconds of the segment's times; text and file are carried over |
| Chapters.StepwiseIsAscending | split_nier.py:16-44 | starts that increase from each to the next are ascending throughout |
| Chapters.LastStartAtMost | split_nier.py:140-153 | the chosen chapter starts at or before t and no later chapter does |
| Chapters.ExactlyOneChapter | split_nier.py:143-153 | with ascending starts, every time at or after the first start lies in exactly one half-open chapter window |
| Chapters.InWindowEntries | split_nier.py:150-153 | an entry is in a chapter's list iff it is an input entry whose start is in the window |
| Chapters.InWindowMultiplicity | split_nier.py:150-153 | a chapter holds each in-window entry as many times as the transcript does, and no out-of-window entry |
| Chapters.InWindowAppend | split_nier.py:150-153 | a chapter keeps the transcript's order: the window of a concatenation is the window of the first part followed by that of the second |
| Chapters.EntryInOneChapter | split_nier.py:140-153 | every entry at or after the first start is written to exactly one chapter's file |
| Chapters.RelClockReads | split_nier.py:160-163 | a non-negative rebased time prints as a clock the parser reads back as the same seconds |
| Chapters.HeaderLineReads | split_nier.py:162-164 | the timestamp line written for an entry classifies as that entry's times |
| Chapters.LayoutReads | split_nier.py:164 | a written file of blocks splits back into its timestamp, text and blank lines |
| Chapters.WriteChapter | split_nier.py:157-164 | the write loop produces the chapter's rebased entries, block by block |
| Chapters.WriteChapters | split_nier.py:143-164 | one file per chapter, holding that chapter's window of entries |
| Chapters.SplitTranscript | split_nier.py:131-168 | the files are, per chapter, its name and the rebased entries of its window from the parsed transcript |
| Chapters.StartTimesAre | split_nier.py:140 | table starts that read as given seconds make the chapter times those seconds |
| Chapters.ParseBlocksFrom | split_nier.py:80-102 | from block j of a written file on, the parser finds exactly blocks j onward |
| Chapters.BlocksRoundTrip | split_nier.py:71-104 | a file written in the chapter layout parses back entry for entry |
| Chapters.ChapterRoundTrip | split_nier.py:156-164 | a chapter's entries, written out, parse back as those entries shifted by the chapter start |
| Chapters.ChapterFileRoundTrip | split_nier.py:131-168 | each chapter file re-parses to that chapter's entries shifted by its start |
| Chapters.SplitAudio | split_nier.py:106-129 | one ffmpeg command per chapter, in table order |
| Chapters.AudioWindow | split_nier.py:113-124 | chapter i's audio starts at its start, and has a `-to` exactly when a next chapter exists, ending at that chapter's start |
| NierTable.ReadHms | split_nier.py:46-53 | an "H:MM:SS" string reads as hours, minutes and seconds |
| NierTable.ChapterTimes | split_nier.py:16-44 | every start in `CHAPTERS` reads as the listed seconds |
| NierTable.ChapterSecondsAscending | split_nier.py:16-44 | the 27 chapter starts begin at 0 and ascend |
| NierTable.NierStartTimes | split_nier.py:140 | `chapter_times` is the listed seconds |
| NierTable.NierAudioWindows | split_nier.py:113-124 | each chapter's command seeks to its start, and every chapter but the 27th stops at the next chapter's start |
| NierTable.NierEntryInOneChapter | split_nier.py:143-153 | every entry starting at or after 0:00:00 lands in exactly one chapter file |
| Scripts.EvangelionEntries | build_evangelion.py:105 | kept entries have text, are not English, are not fillers and start at or after 1:30 |
| Scripts.EvangelionMerge | build_evangelion.py:116-162 | every text is kept in order, and merged segments last at most 12 s |
| Scripts.EvangelionEnd | build_evangelion.py:172-217 | a refined end is 50 ms before the next start, 0.9 s after the last end, or at least 0.7 s after the transcript end |
| Scripts.SrsEntries | build_srs.py:114-119 | kept entries have text, are not English, are not fillers and start outside [0, 112] and [1344, 1400] |
| Scripts.IsolatedInstant | build_srs.py:173-175 | a listed text alone and lasting no time meets the drop-if-isolated condition |
| Scripts.SrsVetoKeeps | build_srs.py:160-171 | a vetoed merge of an isolated "はい" closes the accumulator and keeps it |
| Scripts.SrsIsolatedEmitted | build_srs.py:160-171 | as written, an isolated short "はい" followed by a too-long merge is emitted |
| Scripts.SrsNeverIsolated | build_srs.py:173-195 | with the drop test on every close, no emitted accumulator is a lone filler of `DROP_IF_ISOLATED` under a second |
| Scripts.SrsWithinCap | build_srs.py:160-164 | merged segments last at most 12 s, under the rules as written and with the drop test on every close |
| Scripts.SrsEnd | build_srs.py:206-259 | a refined end is 0.8 s after the transcript end (every fallback) or more than 0.5 s after it |
| Scripts.CharlotteEntries | build_charlottes_web.py:70-72 | kept entries have at least three stripped characters and are not fillers |
| Scripts.CharlotteMerge | build_charlottes_web.py:123-175 | every text is kept in order, and merged segments last at most 15 s |
| Scripts.CharlotteEnd | build_charlottes_web.py:185-226 | a refined end is the 0.5 s fallback or at least 0.33 s after the transcript end |
| Scripts.EndOnlyAdjust | build_srs.py:261-277 | in build_srs.py and build_charlottes_web.py, refinement keeps every start and text |
| Scripts.CharlottePipeline | build_charlottes_web.py:271-290 | parse, merge, finalize and refine fit together: one refined segment per merged group, keeping its start and its " / "-joined texts, ending at the 0.5 s fallback or at least 0.33 s after the group's end; the groups hold every kept text in order |
| Scripts.TotalCountTexts | preview_segments.py:134 | the `original_count`s add up to the number of texts in the groups |
| Scripts.PreviewCounts | preview_segments.py:95-150 | the `original_count`s add up to the number of input entries; empty input gives no preview, any other input at least one |
| Scripts.PreviewBlocks | preview_segments.py:128-147 | every preview line comes from one block of consecutive entries: start is the block's first start, end is its last end + 0.4, `original_count` is its size and the text is its texts joined by " / " |
| Scripts.PreviewEntries | preview_segments.py:84-89 | kept entries have text, are not English and start outside both excluded ranges; there is no drop set |
| Scripts.PreviewExceedsCap | preview_segments.py:115-127 | the short-segment rule ignores the 10 s cap: two entries 1 s apart make a 14 s preview |

## Left out

- `librosa.load` and `librosa.feature.rms` are a numeric library on floats. The
  energy frames of any sample range are an input function `Audio.rms`, and the
  global maximum is taken over the frames from sample 0 to the end.
- Float arithmetic: times and thresholds are exact reals. `int(t * sr)` is
  truncation toward zero of the exact product, not IEEE rounding.
- `seconds_to_ffmpeg_time` of the build scripts (`{:05.2f}` formatting) and the
  clip-cutting ffmpeg commands are out, because they are float formatting of
  arguments to an external program. Only the clip name is modelled.
- The ffmpeg `subprocess.run` calls, `os.makedirs`, file reads and writes,
  `json.dump` and every `print` are I/O. File contents are strings in and
  strings out.
- The `seg['audio_file'] = ...` dictionary update is modelled as a new `Clip`
  value pairing the segment with its file name, not as a change to the dict.
- Unicode `str.isalpha` on non-ASCII characters is the parameter `alpha`. ASCII
  letters are exactly A-Z and a-z.
- `int()` and the `\d` of the timestamp patterns are modelled on ASCII digits
  only. Python's `\d` and `int()` also accept other Unicode decimal digits (and
  `int()` a sign and surrounding blanks), so a full-width "１２:３４-１２:３５"
  line opens an entry in the source but is a text line in the model.
- Chapters.StartTimes: the chapter table must be readable. In the source a
  table start that `int()` rejects raises in `split_audio` when that chapter
  (or the one before it) is reached, after the earlier chapters' audio has
  been cut and before any transcript file is written.
- Endpoints.ValidAudio: the model requires a sample rate of at least 100 Hz.
  Below that, `hop_length = int(0.010 * sr)` is 0 and the source fails in
  `librosa.feature.rms` or divides by zero instead of returning a time.
- Chapters.ChapterFileRoundTrip: stated for transcripts in which no entry ends
  before it starts. A negative rebased end would print as a clock the parser
  does not read back.
- Chapters.ChapterRoundTrip: stated for entries that end at or after the chapter
  start, for the same reason.
- Merge.MergeConservesTexts: proved for rule sets without a drop rule
  (build_evangelion.py, build_charlottes_web.py, preview_segments.py). In
  build_srs.py the drop rule removes texts by design.
- The `main` functions' statistics and the preview printout are out, because
  they only print. Only the preview line's fields are modelled (`Scripts.Preview`).
- generate_breakdowns.py, generate_nier_breakdowns.py,
  generate_nier_translations.py, generate_spanish_translations.py and
  transcribe.py are not part of this model. They only wrap network and
  speech-recognition calls.
- Command-line handling of build_evangelion.py (episode number and paths) is
  left out.

## Findings

| source | as written | input that shows it | evidently intended | confidence | as-written member | corrected member |
|---|---|---|---|---|---|---|
| build_srs.py:160-171 | when a merge is proposed but the 12 s cap vetoes it, the accumulator is emitted without the drop-if-isolated test of lines 173-181 | entries (100, 100, "はい") and (101, 114, "X"): the merge is proposed (gap 1 s), then vetoed (14 s), so the lone 0 s "はい" is emitted | a single listed text under a second is never emitted, as the final accumulator's test at lines 190-195 also ensures | not executed | Scripts.SrsIsolatedEmitted | Scripts.SrsNeverIsolated |
