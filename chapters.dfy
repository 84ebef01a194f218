/** split_nier.py: the assignment of transcript entries to the
    half-open chapter intervals, the rebased per-chapter transcripts written in
    the layout `parse_transcript` reads, and the ffmpeg windows of the audio
    split. */
module Chapters {
  import opened Strings
  import opened Clock
  import opened Transcript

  // ---- chapter assignment -------------------------------------------------------

  /** Chapter starts in increasing order. */
  predicate Ascending(times: seq<int>) {
    forall j, k :: 0 <= j < k < |times| ==> times[j] < times[k]
  }

  predicate StepwiseAscending(times: seq<int>) {
    forall k :: 0 < k < |times| ==> times[k - 1] < times[k]
  }

  lemma {:induction false} StepwiseIsAscending(times: seq<int>)
    requires StepwiseAscending(times)
    ensures Ascending(times)
  {
    if |times| > 1 {
      var init := times[..|times| - 1];
      assert StepwiseAscending(init);
      StepwiseIsAscending(init);
      forall j, k | 0 <= j < k < |times| ensures times[j] < times[k] {
        if k < |times| - 1 {
          assert init[j] < init[k];
        } else if j < k - 1 {
          assert init[j] < init[k - 1];
        }
      }
    }
  }

  /** The end of a chapter: the next chapter's start, or `float('inf')` for the last. */
  function ChapterEnd(times: seq<int>, i: nat): Option<int>
    requires i < |times|
  {
    if i + 1 < |times| then Some(times[i + 1]) else None
  }

  /** `start >= chapter_start and start < chapter_end` */
  predicate InWindow(t: int, lo: int, hi: Option<int>) {
    lo <= t && (hi.Some? ==> t < hi.value)
  }

  predicate InChapter(times: seq<int>, i: nat, t: int)
    requires i < |times|
  {
    InWindow(t, times[i], ChapterEnd(times, i))
  }

  /** The last of the first `n` chapters that starts at or before `t`. */
  function LastStartAtMost(times: seq<int>, t: int, n: nat): (i: nat)
    requires 1 <= n <= |times| && times[0] <= t
    ensures i < n && times[i] <= t
    ensures forall j :: i < j < n ==> t < times[j]
  {
    if times[n - 1] <= t then n - 1 else LastStartAtMost(times, t, n - 1)
  }

  /** With ascending starts, a time at or after the first start lies in exactly
      one chapter: the last one that starts at or before it. */
  lemma ExactlyOneChapter(times: seq<int>, t: int)
    requires |times| > 0 && Ascending(times) && times[0] <= t
    ensures var c := LastStartAtMost(times, t, |times|);
      && InChapter(times, c, t)
      && forall i :: 0 <= i < |times| && InChapter(times, i, t) ==> i == c
  {
    var c := LastStartAtMost(times, t, |times|);
    forall i | 0 <= i < |times| && InChapter(times, i, t) ensures i == c {
      assert !(c < i);
    }
  }

  /** The chapter comprehension of `split_transcript`: the entries whose start lies
      in the window, in their order. */
  function InWindowEntries(es: seq<Entry>, lo: int, hi: Option<int>): (r: seq<Entry>)
    ensures |r| <= |es|
    ensures forall e :: e in r <==> e in es && InWindow(e.start, lo, hi)
  {
    if |es| == 0 then []
    else (if InWindow(es[0].start, lo, hi) then [es[0]] else []) + InWindowEntries(es[1..], lo, hi)
  }

  /** The comprehension keeps every in-window entry as often as the transcript
      holds it, and no other entry. */
  lemma {:induction false} InWindowMultiplicity(es: seq<Entry>, lo: int, hi: Option<int>, e: Entry)
    ensures multiset(InWindowEntries(es, lo, hi))[e] == if InWindow(e.start, lo, hi) then multiset(es)[e] else 0
  {
    if |es| > 0 {
      assert es == [es[0]] + es[1..];
      InWindowMultiplicity(es[1..], lo, hi, e);
    }
  }

  /** The comprehension keeps the transcript's order: the entries of a
      concatenation are those of its first part followed by those of its second. */
  lemma {:induction false} InWindowAppend(xs: seq<Entry>, ys: seq<Entry>, lo: int, hi: Option<int>)
    ensures InWindowEntries(xs + ys, lo, hi) == InWindowEntries(xs, lo, hi) + InWindowEntries(ys, lo, hi)
  {
    if |xs| == 0 {
      assert xs + ys == ys;
    } else {
      var head := if InWindow(xs[0].start, lo, hi) then [xs[0]] else [];
      assert (xs + ys)[0] == xs[0] && (xs + ys)[1..] == xs[1..] + ys;
      assert InWindowEntries(xs + ys, lo, hi) == head + InWindowEntries(xs[1..] + ys, lo, hi);
      InWindowAppend(xs[1..], ys, lo, hi);
      assert InWindowEntries(xs, lo, hi) == head + InWindowEntries(xs[1..], lo, hi);
    }
  }

  function ChapterEntries(times: seq<int>, i: nat, es: seq<Entry>): seq<Entry>
    requires i < |times|
  {
    InWindowEntries(es, times[i], ChapterEnd(times, i))
  }

  /** Every entry starting at or after the first chapter start is written to
      exactly one chapter file. */
  lemma EntryInOneChapter(times: seq<int>, es: seq<Entry>, e: Entry)
    requires |times| > 0 && Ascending(times)
    requires e in es && times[0] <= e.start
    ensures var c := LastStartAtMost(times, e.start, |times|);
      && e in ChapterEntries(times, c, es)
      && forall i :: 0 <= i < |times| && e in ChapterEntries(times, i, es) ==> i == c
  {
    ExactlyOneChapter(times, e.start);
  }

  // ---- the chapter transcript ----------------------------------------------------------

  /** `f"{rel // 60:02d}:{rel % 60:02d}"`: Python's floor division and remainder
      agree with Dafny's for the divisor 60. */
  function RelClock(rel: int): string {
    ZeroPad(rel / 60, 2) + ":" + ZeroPad(rel % 60, 2)
  }

  /** A chapter entry moved to chapter time: `rel_start = start - chapter_start`. */
  function Shift(e: Entry, base: int): Entry {
    Entry(e.start - base, e.end - base, e.text)
  }

  function Rebased(es: seq<Entry>, base: int): (r: seq<Entry>)
    ensures |r| == |es|
    ensures forall k :: 0 <= k < |es| ==> r[k] == Shift(es[k], base)
  {
    seq(|es|, k requires 0 <= k < |es| => Shift(es[k], base))
  }

  /** The timestamp line of an entry already in chapter time. */
  function HeaderLine(e: Entry): string {
    RelClock(e.start) + "-" + RelClock(e.end)
  }

  /** The text of a file of blocks, given the timestamp line and the text of each
      block: `f"{start_str}-{end_str}\n{text}\n\n"` per block. */
  function Layout(hs: seq<string>, ts: seq<string>): string
    requires |hs| == |ts|
  {
    var n := |hs|;
    if n == 0 then "" else Layout(hs[..n - 1], ts[..n - 1]) + hs[n - 1] + "\n" + ts[n - 1] + "\n\n"
  }

  lemma LayoutSnoc(hs: seq<string>, ts: seq<string>, h: string, t: string)
    requires |hs| == |ts|
    ensures Layout(hs + [h], ts + [t]) == Layout(hs, ts) + (h + "\n" + t + "\n\n")
  {
    assert (hs + [h])[..|hs|] == hs;
    assert (ts + [t])[..|ts|] == ts;
  }

  function Headers(rs: seq<Entry>): (hs: seq<string>)
    ensures |hs| == |rs| && forall k :: 0 <= k < |rs| ==> hs[k] == HeaderLine(rs[k])
  {
    seq(|rs|, k requires 0 <= k < |rs| => HeaderLine(rs[k]))
  }

  function EntryTexts(rs: seq<Entry>): (ts: seq<string>)
    ensures |ts| == |rs| && forall k :: 0 <= k < |rs| ==> ts[k] == rs[k].text
  {
    seq(|rs|, k requires 0 <= k < |rs| => rs[k].text)
  }

  /** The blocks of a sequence of entries already in chapter time, in order. */
  function Blocks(rs: seq<Entry>): string {
    Layout(Headers(rs), EntryTexts(rs))
  }

  /** The content of a chapter file: its entries in chapter time, block by block. */
  function ChapterText(es: seq<Entry>, base: int): string {
    Blocks(Rebased(es, base))
  }

  /** Writing one more entry appends its block. */
  lemma WriteStep(es: seq<Entry>, base: int, k: nat)
    requires k < |es|
    ensures var rel := Shift(es[k], base);
      Blocks(Rebased(es[..k + 1], base)) ==
        Blocks(Rebased(es[..k], base)) + (HeaderLine(rel) + "\n" + rel.text + "\n\n")
  {
    var rel := Shift(es[k], base);
    var written := Rebased(es[..k], base);
    assert Rebased(es[..k + 1], base) == written + [rel];
    assert Headers(written + [rel]) == Headers(written) + [HeaderLine(rel)];
    assert EntryTexts(written + [rel]) == EntryTexts(written) + [rel.text];
    LayoutSnoc(Headers(written), EntryTexts(written), HeaderLine(rel), rel.text);
  }

  /** The loop writing a chapter file, one `f.write` per entry. */
  method WriteChapter(es: seq<Entry>, base: int) returns (content: string)
    ensures content == ChapterText(es, base)
  {
    content := "";
    for k := 0 to |es|
      invariant content == Blocks(Rebased(es[..k], base))
    {
      var rel := Shift(es[k], base);
      var startStr := RelClock(rel.start);
      var endStr := RelClock(rel.end);
      WriteStep(es, base, k);
      content := content + (startStr + "-" + endStr + "\n" + rel.text + "\n\n");
    }
    assert es[..|es|] == es;
  }

  /** The transcript dialect of split_nier.py: both clock forms and no filter but
      non-empty text. */
  const NierFormat: Format := Format(Flexible, false, Filter({}, 0, [], None, false))

  /** The starts of a chapter table, as split_nier.py's `time_to_seconds` reads them. */
  predicate ReadableTimes(chapters: seq<(string, string)>) {
    forall i :: 0 <= i < |chapters| ==> NierTimeToSeconds(chapters[i].0).Some?
  }

  function StartTimes(chapters: seq<(string, string)>): (times: seq<int>)
    requires ReadableTimes(chapters)
    ensures |times| == |chapters|
    ensures forall i :: 0 <= i < |chapters| ==> times[i] == NierTimeToSeconds(chapters[i].0).value
  {
    if |chapters| == 0 then []
    else StartTimes(chapters[..|chapters| - 1]) + [NierTimeToSeconds(chapters[|chapters| - 1].0).value]
  }

  /** The starts of a table whose every start reads as the given seconds. */
  lemma StartTimesAre(chapters: seq<(string, string)>, times: seq<int>)
    requires |times| == |chapters|
    requires forall i :: 0 <= i < |chapters| ==> TimeToSeconds(chapters[i].0) == Some(times[i])
    ensures ReadableTimes(chapters) && StartTimes(chapters) == times
  {
    forall i | 0 <= i < |chapters| ensures NierTimeToSeconds(chapters[i].0) == Some(times[i]) {
      TimestampAgreement(chapters[i].0);
    }
  }

  const TextSuffix: string := ".txt"

  /** The files `split_transcript` writes: per chapter, its name with ".txt" and
      its rebased entries. */
  function ChapterFile(chapters: seq<(string, string)>, i: nat, es: seq<Entry>): (string, string)
    requires ReadableTimes(chapters) && i < |chapters|
  {
    var times := StartTimes(chapters);
    (chapters[i].1 + TextSuffix, ChapterText(ChapterEntries(times, i, es), times[i]))
  }

  /** The chapter loop of `split_transcript`: one file per chapter, holding the
      entries whose start lies in its window. */
  method WriteChapters(segments: seq<Entry>, chapters: seq<(string, string)>)
    returns (files: seq<(string, string)>)
    requires ReadableTimes(chapters)
    ensures |files| == |chapters|
    ensures forall i :: 0 <= i < |chapters| ==> files[i] == ChapterFile(chapters, i, segments)
  {
    var chapterTimes := StartTimes(chapters);
    files := [];
    for i := 0 to |chapterTimes|
      invariant |files| == i
      invariant forall k :: 0 <= k < i ==> files[k] == ChapterFile(chapters, k, segments)
    {
      var chapterStart := chapterTimes[i];
      var chapterEnd := None;
      if i + 1 < |chapterTimes| {
        chapterEnd := Some(chapterTimes[i + 1]);
      }
      var chapterSegments := InWindowEntries(segments, chapterStart, chapterEnd);
      assert chapterSegments == ChapterEntries(chapterTimes, i, segments);
      var text := WriteChapter(chapterSegments, chapterStart);
      var file := (chapters[i].1 + TextSuffix, text);
      assert file == ChapterFile(chapters, i, segments);
      files := files + [file];
    }
  }

  /** `split_transcript`: parse the transcript, then write one file per chapter. */
  method SplitTranscript(content: string, alpha: char -> bool, chapters: seq<(string, string)>)
    returns (files: seq<(string, string)>)
    requires ReadableTimes(chapters)
    ensures |files| == |chapters|
    ensures forall i :: 0 <= i < |chapters| ==>
      files[i] == ChapterFile(chapters, i, Parse(NierFormat, alpha, content))
  {
    var segments := ParseTranscript(NierFormat, alpha, content);
    files := WriteChapters(segments, chapters);
  }

  // ---- reading a chapter file back -----------------------------------------------

  /** A clock string of the general pattern worth `v` seconds, made of digits
      and colons and starting and ending with a digit. */
  predicate ClockText(c: string, v: int) {
    && IsClock(c) && TimeToSeconds(c) == Some(v)
    && |c| > 0 && IsDigit(c[0]) && IsDigit(c[|c| - 1])
    && forall k :: 0 <= k < |c| ==> IsDigit(c[k]) || c[k] == ':'
  }

  /** A non-negative offset prints as a clock the transcript parser reads back as
      the same number of seconds. */
  lemma RelClockReads(rel: int)
    requires rel >= 0
    ensures ClockText(RelClock(rel), rel)
  {
    var m, s := rel / 60, rel % 60;
    TwoPartRoundTrip(m, s);
    ZeroPadRoundTrip(m, 2);
    ZeroPadRoundTrip(s, 2);
    var a, b := ZeroPad(m, 2), ZeroPad(s, 2);
    var c := a + ":" + b;
    assert c == RelClock(rel);
    forall k | 0 <= k < |c| ensures IsDigit(c[k]) || c[k] == ':' {
      if k < |a| {
        assert c[k] == a[k];
      } else if k > |a| {
        assert c[k] == b[k - |a| - 1];
      }
    }
  }

  lemma ClockTextExcludes(c: string, v: int)
    requires ClockText(c, v)
    ensures '-' !in c && '\n' !in c
  {
  }

  lemma SplitRange(x: string, y: string)
    requires '-' !in x && '-' !in y
    ensures Split(x + "-" + y, '-') == [x, y]
  {
    assert [x, y][1..] == [y];
    assert x + "-" + y == Join("-", [x, y]);
    SplitJoin([x, y], '-');
  }

  lemma ConcatExcludes(a: string, b: string, c: char)
    requires c !in a && c !in b
    ensures c !in a + b
  {
    assert forall k :: |a| <= k < |a + b| ==> (a + b)[k] == b[k - |a|];
  }

  /** A line of two clocks joined by a hyphen has no blank at either end, so
      cleaning leaves it as it is. */
  lemma RangeLineClean(x: string, y: string, a: int, b: int)
    requires ClockText(x, a) && ClockText(y, b)
    ensures Clean(NierFormat, x + "-" + y) == x + "-" + y
  {
    var h := x + "-" + y;
    assert h[0] == x[0] && h[|h| - 1] == y[|y| - 1];
    DigitNotSpace(h[0]);
    DigitNotSpace(h[|h| - 1]);
    StripNoop(h);
  }

  /** A cleaned line that splits at its one hyphen into two clocks is a stamp. */
  lemma FlexibleStamp(h: string, x: string, y: string, a: int, b: int)
    requires Clean(NierFormat, h) == h && Split(h, '-') == [x, y]
    requires IsClock(x) && TimeToSeconds(x) == Some(a)
    requires IsClock(y) && TimeToSeconds(y) == Some(b)
    ensures Classify(NierFormat, h) == Stamp(a, b)
  {
    assert Header(Flexible, h) == Some((a, b));
  }

  /** Two clocks joined by a hyphen form a timestamp line of the general pattern. */
  lemma RangeLineReads(x: string, y: string, a: int, b: int)
    requires ClockText(x, a) && ClockText(y, b)
    ensures Classify(NierFormat, x + "-" + y) == Stamp(a, b)
    ensures '\n' !in x + "-" + y
    ensures IsDigit((x + "-" + y)[0])
  {
    ClockTextExcludes(x, a);
    ClockTextExcludes(y, b);
    SplitRange(x, y);
    RangeLineClean(x, y, a, b);
    FlexibleStamp(x + "-" + y, x, y, a, b);
    ConcatExcludes(x, "-", '\n');
    ConcatExcludes(x + "-", y, '\n');
  }

  /** The timestamp line of an entry at non-negative chapter times reads back as
      those times. */
  lemma HeaderLineReads(e: Entry)
    requires e.start >= 0 && e.end >= 0
    ensures Classify(NierFormat, HeaderLine(e)) == Stamp(e.start, e.end)
    ensures '\n' !in HeaderLine(e)
    ensures |HeaderLine(e)| > 0 && IsDigit(HeaderLine(e)[0])
  {
    RelClockReads(e.start);
    RelClockReads(e.end);
    RangeLineReads(RelClock(e.start), RelClock(e.end), e.start, e.end);
  }

  lemma TextLineReads(t: string)
    requires WellFormedText(NierFormat, t)
    ensures Classify(NierFormat, t) == Text(t)
  {
    StripNoop(t);
    assert Clean(NierFormat, t) == t;
  }

  lemma BlankLineReads(line: string)
    requires |line| == 0
    ensures Classify(NierFormat, line) == Blank
  {
    assert TrimStart(line) == line;
    assert Strip(line) == line;
    assert Clean(NierFormat, line) == line;
    assert Split(line, '-') == [line];
    assert Header(Flexible, line) == None;
  }

  /** The lines of a non-empty file of blocks: per block its timestamp line and
      its text, with one blank line between blocks. */
  function Interleave(hs: seq<string>, ts: seq<string>): (r: seq<string>)
    requires |hs| == |ts| >= 1
    ensures |r| == 3 * |hs| - 1
  {
    var n := |hs|;
    if n == 1 then [hs[0], ts[0]]
    else Interleave(hs[..n - 1], ts[..n - 1]) + ["", hs[n - 1], ts[n - 1]]
  }

  lemma {:induction false} InterleaveAt(hs: seq<string>, ts: seq<string>, k: nat)
    requires |hs| == |ts| && k < |hs|
    ensures Interleave(hs, ts)[3 * k] == hs[k]
    ensures Interleave(hs, ts)[3 * k + 1] == ts[k]
    ensures k < |hs| - 1 ==> Interleave(hs, ts)[3 * k + 2] == ""
  {
    var n := |hs|;
    if n > 1 {
      var hs', ts' := hs[..n - 1], ts[..n - 1];
      assert Interleave(hs, ts) == Interleave(hs', ts') + ["", hs[n - 1], ts[n - 1]];
      if k < n - 1 {
        InterleaveAt(hs', ts', k);
        assert hs'[k] == hs[k] && ts'[k] == ts[k];
      }
    }
  }

  lemma {:induction false} LayoutLines(hs: seq<string>, ts: seq<string>)
    requires |hs| == |ts| >= 1
    ensures Layout(hs, ts) == Join("\n", Interleave(hs, ts)) + "\n\n"
  {
    var n := |hs|;
    var h, t := hs[n - 1], ts[n - 1];
    var last := [h, t];
    assert last[1..] == [t];
    assert Join("\n", last) == h + "\n" + t;
    var hs', ts' := hs[..n - 1], ts[..n - 1];
    if n == 1 {
      assert Layout(hs', ts') == "";
    } else {
      LayoutLines(hs', ts');
      var prefix := Interleave(hs', ts');
      var tail := ["", h, t];
      assert tail[1..] == last;
      assert Join("\n", tail) == "" + "\n" + Join("\n", last);
      JoinAppend("\n", prefix, tail);
      assert Interleave(hs, ts) == prefix + tail;
    }
  }

  /** A file of blocks whose lines hold no newline, starting and ending with a
      non-blank, splits back into its lines. */
  lemma LayoutReads(hs: seq<string>, ts: seq<string>)
    requires |hs| == |ts| >= 1
    requires forall k :: 0 <= k < |hs| ==> '\n' !in hs[k] && '\n' !in ts[k]
    requires |hs[0]| > 0 && !IsSpace(hs[0][0])
    requires |ts[|ts| - 1]| > 0 && !IsSpace(ts[|ts| - 1][|ts[|ts| - 1]| - 1])
    ensures Lines(Layout(hs, ts)) == Interleave(hs, ts)
  {
    var n := |hs|;
    var lines := Interleave(hs, ts);
    var joined := Join("\n", lines);
    LayoutLines(hs, ts);
    InterleaveAt(hs, ts, 0);
    InterleaveAt(hs, ts, n - 1);
    assert joined == lines[0] + "\n" + Join("\n", lines[1..]);
    assert joined[0] == hs[0][0];
    JoinLast("\n", lines);
    StripTrailing(joined, "\n\n");
    forall k | 0 <= k < |lines| ensures '\n' !in lines[k] {
      InterleaveAt(hs, ts, k / 3);
    }
    SplitJoin(lines, '\n');
  }

  /** One step of the parser at a timestamp line followed by one text line and
      then a blank line or the end of the file: the entry is found and kept, and
      the scan goes on after the blank line. */
  lemma ParseBlockStep(f: Filter, alpha: char -> bool, kinds: seq<Line>, i: nat, r: Entry)
    requires i + 2 <= |kinds|
    requires kinds[i] == Stamp(r.start, r.end) && kinds[i + 1] == Text(r.text)
    requires i + 2 < |kinds| ==> kinds[i + 2] == Blank
    requires Keep(f, alpha, r.start, r.text)
    ensures i + 2 == |kinds| ==> ParseFrom(f, alpha, kinds, i) == [r]
    ensures i + 2 < |kinds| ==> ParseFrom(f, alpha, kinds, i) == [r] + ParseFrom(f, alpha, kinds, i + 3)
  {
    assert BlockEnd(kinds, i + 1) == BlockEnd(kinds, i + 2) == i + 2;
    var texts := Texts(kinds, i + 1, i + 2);
    assert texts == [r.text];
    StampStep(f, alpha, kinds, i, [], r.text);
    assert Emitted(f, alpha, r.start, r.end, r.text) == [r];
    if i + 2 == |kinds| {
      assert [r] + [] == [r];
    }
  }

  lemma DropFirst(rs: seq<Entry>, j: nat)
    requires j < |rs|
    ensures rs[j..] == [rs[j]] + rs[j + 1..]
    ensures j == |rs| - 1 ==> rs[j..] == [rs[j]]
  {
  }

  /** The lines of block `k` of a file of blocks, classified: a timestamp line,
      one text line that passes the filter, then a blank line unless it is the
      last block. */
  predicate BlockAt(f: Filter, alpha: char -> bool, kinds: seq<Line>, rs: seq<Entry>, k: nat)
    requires k < |rs| && |kinds| == 3 * |rs| - 1
  {
    && kinds[3 * k] == Stamp(rs[k].start, rs[k].end)
    && kinds[3 * k + 1] == Text(rs[k].text)
    && (k < |rs| - 1 ==> kinds[3 * k + 2] == Blank)
    && Keep(f, alpha, rs[k].start, rs[k].text)
  }

  /** The parser step at block `j` of a file of blocks. */
  lemma BlockStepAt(f: Filter, alpha: char -> bool, kinds: seq<Line>, rs: seq<Entry>, j: nat)
    requires j < |rs| && |kinds| == 3 * |rs| - 1
    requires BlockAt(f, alpha, kinds, rs, j)
    ensures j == |rs| - 1 ==> ParseFrom(f, alpha, kinds, 3 * j) == [rs[j]]
    ensures j < |rs| - 1 ==> ParseFrom(f, alpha, kinds, 3 * j) == [rs[j]] + ParseFrom(f, alpha, kinds, 3 * (j + 1))
  {
    assert 3 * (j + 1) == 3 * j + 3;
    ParseBlockStep(f, alpha, kinds, 3 * j, rs[j]);
  }

  /** Re-reading a file of blocks: from the timestamp line of block `j` on, the
      parser finds exactly the blocks `j ..`. */
  lemma {:induction false} ParseBlocksFrom(f: Filter, alpha: char -> bool, kinds: seq<Line>, rs: seq<Entry>, j: nat)
    requires j < |rs| && |kinds| == 3 * |rs| - 1
    requires forall k :: 0 <= k < |rs| ==> BlockAt(f, alpha, kinds, rs, k)
    ensures ParseFrom(f, alpha, kinds, 3 * j) == rs[j..]
    decreases |rs| - j
  {
    DropFirst(rs, j);
    BlockStepAt(f, alpha, kinds, rs, j);
    if j < |rs| - 1 {
      ParseBlocksFrom(f, alpha, kinds, rs, j + 1);
    }
  }

  /** What a chapter file can hold: times at or after the chapter start and a
      well-formed text. */
  predicate Printable(e: Entry) {
    e.start >= 0 && e.end >= 0 && WellFormedText(NierFormat, e.text)
  }

  lemma EmptyLines(content: string)
    requires |content| == 0
    ensures Lines(content) == [content]
  {
    assert TrimStart(content) == content;
    assert Strip(content) == content;
    assert Split(content, '\n') == [content];
  }

  lemma BlankKinds(line: string)
    requires Classify(NierFormat, line) == Blank
    ensures Classified(NierFormat, [line]) == [Blank]
  {
    ClassifiedAt(NierFormat, [line], 0);
  }

  lemma ParseBlank(f: Filter, alpha: char -> bool, kinds: seq<Line>)
    requires kinds == [Blank]
    ensures ParseFrom(f, alpha, kinds, 0) == []
  {
    assert ParseFrom(f, alpha, kinds, 1) == [];
  }

  /** An empty chapter file reads back as no entries. */
  lemma EmptyLayoutReads(alpha: char -> bool, content: string)
    requires |content| == 0
    ensures Parse(NierFormat, alpha, content) == []
  {
    EmptyLines(content);
    BlankLineReads(content);
    BlankKinds(content);
    ParseBlank(NierFormat.filter, alpha, Classified(NierFormat, [content]));
  }

  lemma StampLineAt(lines: seq<string>, i: nat, r: Entry)
    requires i < |lines| && lines[i] == HeaderLine(r) && r.start >= 0 && r.end >= 0
    ensures Classified(NierFormat, lines)[i] == Stamp(r.start, r.end)
  {
    ClassifiedAt(NierFormat, lines, i);
    HeaderLineReads(r);
  }

  lemma TextLineAt(lines: seq<string>, i: nat)
    requires i < |lines| && WellFormedText(NierFormat, lines[i])
    ensures Classified(NierFormat, lines)[i] == Text(lines[i])
  {
    ClassifiedAt(NierFormat, lines, i);
    TextLineReads(lines[i]);
  }

  lemma BlankLineAt(lines: seq<string>, i: nat)
    requires i < |lines| && |lines[i]| == 0
    ensures Classified(NierFormat, lines)[i] == Blank
  {
    ClassifiedAt(NierFormat, lines, i);
    BlankLineReads(lines[i]);
  }

  /** The filter of split_nier.py keeps every non-empty text. */
  lemma NierKeeps(alpha: char -> bool, start: int, text: string)
    requires text != ""
    ensures Keep(NierFormat.filter, alpha, start, text)
  {
  }

  /** Block `k` of a written chapter file classifies as its entry's timestamp and
      text. */
  lemma BlockReads(lines: seq<string>, rs: seq<Entry>, alpha: char -> bool, k: nat)
    requires k < |rs| && |lines| == 3 * |rs| - 1 && Printable(rs[k])
    requires lines[3 * k] == HeaderLine(rs[k]) && lines[3 * k + 1] == rs[k].text
    requires k < |rs| - 1 ==> lines[3 * k + 2] == ""
    ensures BlockAt(NierFormat.filter, alpha, Classified(NierFormat, lines), rs, k)
  {
    var r := rs[k];
    StampLineAt(lines, 3 * k, r);
    TextLineAt(lines, 3 * k + 1);
    NierKeeps(alpha, r.start, r.text);
    if k < |rs| - 1 {
      BlankLineAt(lines, 3 * k + 2);
    }
  }

  /** The lines of a written chapter file are its blocks' lines. */
  lemma BlocksSplit(rs: seq<Entry>)
    requires |rs| >= 1
    requires forall j :: 0 <= j < |rs| ==> Printable(rs[j])
    ensures Lines(Blocks(rs)) == Interleave(Headers(rs), EntryTexts(rs))
  {
    var hs, ts := Headers(rs), EntryTexts(rs);
    forall k | 0 <= k < |rs| ensures '\n' !in hs[k] && '\n' !in ts[k] {
      assert Printable(rs[k]);
      HeaderLineReads(rs[k]);
    }
    assert Printable(rs[0]) && Printable(rs[|rs| - 1]);
    HeaderLineReads(rs[0]);
    DigitNotSpace(hs[0][0]);
    LayoutReads(hs, ts);
  }

  /** The layout a chapter file is written in is one `parse_transcript` reads back
      entry for entry. */
  lemma BlocksRoundTrip(rs: seq<Entry>, alpha: char -> bool)
    requires forall k :: 0 <= k < |rs| ==> Printable(rs[k])
    ensures Parse(NierFormat, alpha, Blocks(rs)) == rs
  {
    if |rs| == 0 {
      EmptyLayoutReads(alpha, Blocks(rs));
    } else {
      BlocksSplit(rs);
      var hs, ts := Headers(rs), EntryTexts(rs);
      var lines := Interleave(hs, ts);
      var kinds := Classified(NierFormat, lines);
      forall k | 0 <= k < |rs| ensures BlockAt(NierFormat.filter, alpha, kinds, rs, k) {
        InterleaveAt(hs, ts, k);
        BlockReads(lines, rs, alpha, k);
      }
      ParseBlocksFrom(NierFormat.filter, alpha, kinds, rs, 0);
      assert rs[0..] == rs;
    }
  }

  /** A chapter's entries, written out, read back as the same entries in chapter
      time, provided none ends before the chapter starts. */
  lemma ChapterRoundTrip(es: seq<Entry>, base: int, alpha: char -> bool)
    requires forall e :: e in es ==> base <= e.start && base <= e.end && WellFormedText(NierFormat, e.text)
    ensures Parse(NierFormat, alpha, ChapterText(es, base)) == Rebased(es, base)
  {
    var rs := Rebased(es, base);
    forall k | 0 <= k < |rs| ensures Printable(rs[k]) {
      assert es[k] in es;
    }
    BlocksRoundTrip(rs, alpha);
  }

  /** Each chapter file `split_transcript` writes reads back, through the same
      parser, as the chapter's entries shifted to chapter time (for transcripts
      in which no entry ends before it starts). */
  lemma ChapterFileRoundTrip(content: string, alpha: char -> bool, chapters: seq<(string, string)>, i: nat)
    requires ReadableTimes(chapters) && i < |chapters|
    requires forall e :: e in Parse(NierFormat, alpha, content) ==> e.start <= e.end
    ensures var times := StartTimes(chapters);
      var es := ChapterEntries(times, i, Parse(NierFormat, alpha, content));
      Parse(NierFormat, alpha, ChapterFile(chapters, i, Parse(NierFormat, alpha, content)).1) == Rebased(es, times[i])
  {
    var parsed := Parse(NierFormat, alpha, content);
    var times := StartTimes(chapters);
    var es := ChapterEntries(times, i, parsed);
    ParsedEntries(NierFormat, alpha, content);
    ChapterRoundTrip(es, times[i], alpha);
  }

  // ---- the audio split ---------------------------------------------------------------

  const AudioSuffix: string := ".mp3"

  /** The ffmpeg argument list of one chapter: seek to the start, stop at the end
      when there is one (and it is not 0, as `if end_sec:` tests), copy the
      streams. */
  function FfmpegCommand(audioFile: string, start: int, end: Option<int>, output: string): seq<string> {
    ["ffmpeg", "-y", "-i", audioFile, "-ss", SecondsToFfmpeg(start)]
    + (if end.Some? && end.value != 0 then ["-to", SecondsToFfmpeg(end.value)] else [])
    + ["-c", "copy", output]
  }

  function ChapterCommand(chapters: seq<(string, string)>, i: nat, audioFile: string): seq<string>
    requires ReadableTimes(chapters) && i < |chapters|
  {
    var times := StartTimes(chapters);
    FfmpegCommand(audioFile, times[i], ChapterEnd(times, i), chapters[i].1 + AudioSuffix)
  }

  /** `split_audio`: one ffmpeg command per chapter, in table order. */
  method SplitAudio(chapters: seq<(string, string)>, audioFile: string) returns (cmds: seq<seq<string>>)
    requires ReadableTimes(chapters)
    ensures |cmds| == |chapters|
    ensures forall i :: 0 <= i < |chapters| ==> cmds[i] == ChapterCommand(chapters, i, audioFile)
  {
    var times := StartTimes(chapters);
    cmds := [];
    for i := 0 to |chapters|
      invariant |cmds| == i
      invariant forall k :: 0 <= k < i ==> cmds[k] == ChapterCommand(chapters, k, audioFile)
    {
      var startSec := times[i];
      var endSec := None;
      if i + 1 < |chapters| {
        endSec := Some(times[i + 1]);
      }
      var outputFile := chapters[i].1 + AudioSuffix;
      var cmd := FfmpegCommand(audioFile, startSec, endSec, outputFile);
      assert cmd == ChapterCommand(chapters, i, audioFile);
      cmds := cmds + [cmd];
    }
  }

  lemma CommandShape(audioFile: string, start: int, end: Option<int>, output: string)
    ensures var cmd := FfmpegCommand(audioFile, start, end, output);
      var cut := end.Some? && end.value != 0;
      && |cmd| == (if cut then 11 else 9)
      && cmd[5] == SecondsToFfmpeg(start)
      && (cut ==> cmd[6] == "-to" && cmd[7] == SecondsToFfmpeg(end.value))
      && cmd[|cmd| - 1] == output
  {
  }

  /** With ascending, non-negative chapter starts, the audio of chapter `i` is cut
      at the window the transcript split uses: ffmpeg seeks to a position that
      reads back as the chapter start, and is told where to stop exactly when a
      next chapter exists, at a position that reads back as that chapter's start. */
  lemma AudioWindow(chapters: seq<(string, string)>, i: nat, audioFile: string)
    requires ReadableTimes(chapters) && i < |chapters|
    requires Ascending(StartTimes(chapters)) && StartTimes(chapters)[0] >= 0
    ensures var times := StartTimes(chapters);
      var cmd := ChapterCommand(chapters, i, audioFile);
      && TimeToSeconds(cmd[5]) == Some(times[i])
      && (|cmd| == 11 <==> i + 1 < |chapters|)
      && (i + 1 < |chapters| ==> cmd[6] == "-to" && TimeToSeconds(cmd[7]) == Some(times[i + 1]))
      && cmd[|cmd| - 1] == chapters[i].1 + AudioSuffix
  {
    var times := StartTimes(chapters);
    var end := ChapterEnd(times, i);
    CommandShape(audioFile, times[i], end, chapters[i].1 + AudioSuffix);
    if i > 0 {
      assert times[0] < times[i];
    }
    FfmpegRoundTrip(times[i]);
    if i + 1 < |chapters| {
      assert times[0] < times[i + 1];
      FfmpegRoundTrip(times[i + 1]);
    }
  }
}
