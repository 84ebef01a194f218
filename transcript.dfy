/** `parse_transcript` of the five scripts: a line-oriented recogniser. A line that
    is a timestamp range opens an entry; the following lines up to the next
    timestamp or blank line are joined with single spaces into its text; the entry
    is kept when it passes the script's filters. */
module Transcript {
  import opened Strings
  import opened Clock
  import opened Filters

  /** One raw transcript entry, times in whole seconds. */
  datatype Entry = Entry(start: int, end: int, text: string)

  /** `^(\d{2}:\d{2})-(\d{2}:\d{2})$` (build_srs.py, build_charlottes_web.py,
      preview_segments.py) or `^(\d+:\d+(?::\d+)?)-(\d+:\d+(?::\d+)?)$`
      (build_evangelion.py, split_nier.py). */
  datatype Pattern = TwoDigit | Flexible

  /** The filters a script applies to a finished entry. An empty drop set, a
      `minChars` of 0, no excluded ranges, no cutoff and `rejectEnglish == false`
      each switch one filter off. */
  datatype Filter = Filter(
    dropTexts: set<string>,
    minChars: nat,
    excluded: seq<(int, int)>,
    skipBefore: Option<int>,
    rejectEnglish: bool)

  /** A script's transcript dialect: its timestamp pattern, whether a
      line-number prefix ending in an arrow is removed, and its filters. */
  datatype Format = Format(pattern: Pattern, stripArrow: bool, filter: Filter)

  const Arrow: char := '\U{2192}'

  // ---- the timestamp recogniser ---------------------------------------------

  /** `\d{2}:\d{2}` */
  predicate IsTwoDigitClock(s: string) {
    |s| == 5 && IsDigit(s[0]) && IsDigit(s[1]) && s[2] == ':' && IsDigit(s[3]) && IsDigit(s[4])
  }

  /** `\d+:\d+(?::\d+)?` */
  predicate IsClock(s: string) {
    var parts := Split(s, ':');
    (|parts| == 2 || |parts| == 3) && forall k :: 0 <= k < |parts| ==> IsNumeral(parts[k])
  }

  lemma TwoDigitClockValue(s: string)
    requires IsTwoDigitClock(s)
    ensures Split(s, ':') == [s[..2], s[3..]]
    ensures MinutesSeconds(s) == Some(ParseNat(s[..2]) * 60 + ParseNat(s[3..]))
  {
    assert s == Join([':'], [s[..2], s[3..]]);
    SplitJoin([s[..2], s[3..]], ':');
  }

  /** A two-digit clock is also a clock of the general pattern, read the same way. */
  lemma TwoDigitIsClock(s: string)
    requires IsTwoDigitClock(s)
    ensures IsClock(s) && TimeToSeconds(s) == MinutesSeconds(s)
  {
    TwoDigitClockValue(s);
  }

  /** The seconds of a recognised clock string, converted as the script does. */
  function ClockValue(pattern: Pattern, s: string): int
    requires pattern == TwoDigit ==> IsTwoDigitClock(s)
    requires pattern == Flexible ==> IsClock(s)
  {
    if pattern == TwoDigit then
      TwoDigitClockValue(s);
      MinutesSeconds(s).value
    else
      TimeToSeconds(s).value
  }

  /** The timestamp-range recogniser: the start and end seconds of a range line, or
      `None` for any other line. */
  function Header(pattern: Pattern, line: string): Option<(int, int)> {
    match pattern
    case TwoDigit =>
      if |line| == 11 && IsTwoDigitClock(line[..5]) && line[5] == '-' && IsTwoDigitClock(line[6..])
      then Some((ClockValue(TwoDigit, line[..5]), ClockValue(TwoDigit, line[6..])))
      else None
    case Flexible =>
      var parts := Split(line, '-');
      if |parts| == 2 && IsClock(parts[0]) && IsClock(parts[1])
      then Some((ClockValue(Flexible, parts[0]), ClockValue(Flexible, parts[1])))
      else None
  }

  /** Characters a timestamp range is made of. */
  predicate IsClockChar(c: char) {
    IsDigit(c) || c == ':' || c == '-'
  }

  lemma {:induction false} SplitRejoin(s: string, c: char)
    ensures Join([c], Split(s, c)) == s
    decreases |s|
  {
    if c in s {
      var k := IndexOf(s, c);
      var rest := Split(s[k + 1..], c);
      var parts := [s[..k]] + rest;
      assert Split(s, c) == parts;
      assert parts[1..] == rest;
      assert Join([c], parts) == s[..k] + [c] + Join([c], rest);
      SplitRejoin(s[k + 1..], c);
      assert s == s[..k] + [c] + s[k + 1..];
    }
  }

  lemma {:induction false} JoinOfClockChars(sep: string, parts: seq<string>)
    requires forall k :: 0 <= k < |sep| ==> IsClockChar(sep[k])
    requires forall p, k :: p in parts && 0 <= k < |p| ==> IsClockChar(p[k])
    ensures forall k :: 0 <= k < |Join(sep, parts)| ==> IsClockChar(Join(sep, parts)[k])
  {
    if |parts| > 1 {
      JoinOfClockChars(sep, parts[1..]);
      var j := Join(sep, parts);
      assert j == parts[0] + sep + Join(sep, parts[1..]);
      assert parts[0] in parts;
    }
  }

  lemma ClockIsClockChars(s: string)
    requires IsClock(s)
    ensures forall k :: 0 <= k < |s| ==> IsClockChar(s[k])
  {
    SplitRejoin(s, ':');
    var parts := Split(s, ':');
    forall p, k | p in parts && 0 <= k < |p| ensures IsClockChar(p[k]) {
      var i :| 0 <= i < |parts| && parts[i] == p;
    }
    JoinOfClockChars([':'], parts);
  }

  /** A timestamp line consists of digits, colons and hyphens only; in particular it
      holds no space. */
  lemma HeaderChars(pattern: Pattern, line: string)
    requires Header(pattern, line).Some?
    ensures forall k :: 0 <= k < |line| ==> IsClockChar(line[k])
  {
    if pattern == Flexible {
      var parts := Split(line, '-');
      SplitRejoin(line, '-');
      ClockIsClockChars(parts[0]);
      ClockIsClockChars(parts[1]);
      JoinOfClockChars("-", parts);
    } else {
      assert forall k :: 0 <= k < 5 ==> line[k] == line[..5][k];
      assert forall k :: 6 <= k < 11 ==> line[k] == line[6..][k - 6];
    }
  }

  /** Every two-digit timestamp line is also a line of the general pattern, with
      the same times. */
  lemma TwoDigitHeaderIsFlexible(line: string)
    requires Header(TwoDigit, line).Some?
    ensures Header(Flexible, line) == Header(TwoDigit, line)
  {
    var a, b := line[..5], line[6..];
    assert line == Join("-", [a, b]);
    SplitJoin([a, b], '-');
    TwoDigitIsClock(a);
    TwoDigitIsClock(b);
  }

  // ---- the line scanner -------------------------------------------------------

  /** `content.strip().split('\n')` */
  function Lines(content: string): seq<string> {
    Split(Strip(content), '\n')
  }

  /** `line.strip()`, then, in the arrow dialect, everything after the first arrow
      (not stripped again). */
  function Clean(fmt: Format, raw: string): string {
    var line := Strip(raw);
    if fmt.stripArrow && Arrow in line then AfterFirst(line, Arrow) else line
  }

  /** What a line is to the scanner once cleaned: a timestamp range, a blank line
      (both end an entry's text), or a line of text. */
  datatype Line = Stamp(start: int, end: int) | Blank | Text(text: string)

  function Classify(fmt: Format, raw: string): Line {
    var line := Clean(fmt, raw);
    match Header(fmt.pattern, line)
    case Some((s, e)) => Stamp(s, e)
    case None => if line == "" then Blank else Text(line)
  }

  /** `f` applied to every line. */
  function MapLines(f: string -> Line, lines: seq<string>): (kinds: seq<Line>)
    ensures |kinds| == |lines|
  {
    if |lines| == 0 then [] else [f(lines[0])] + MapLines(f, lines[1..])
  }

  lemma {:induction false} MapLinesAt(f: string -> Line, lines: seq<string>, i: nat)
    requires i < |lines|
    ensures MapLines(f, lines)[i] == f(lines[i])
  {
    if i > 0 {
      MapLinesAt(f, lines[1..], i - 1);
      assert lines[1..][i - 1] == lines[i];
    }
  }

  /** Every line of the file, classified. */
  function Classified(fmt: Format, lines: seq<string>): (kinds: seq<Line>)
    ensures |kinds| == |lines|
  {
    MapLines(raw => Classify(fmt, raw), lines)
  }

  lemma ClassifiedAt(fmt: Format, lines: seq<string>, i: nat)
    requires i < |lines|
    ensures Classified(fmt, lines)[i] == Classify(fmt, lines[i])
  {
    MapLinesAt(raw => Classify(fmt, raw), lines, i);
  }

  /** Line `i`, stripped (and its arrow prefix removed) and matched against the
      timestamp pattern. */
  method ClassifyLine(fmt: Format, lines: seq<string>, i: nat, ghost kinds: seq<Line>) returns (kind: Line)
    requires i < |lines| && kinds == Classified(fmt, lines)
    ensures kind == kinds[i]
  {
    var line := Clean(fmt, lines[i]);
    var header := Header(fmt.pattern, line);
    if header.Some? {
      kind := Stamp(header.value.0, header.value.1);
    } else if line == "" {
      kind := Blank;
    } else {
      kind := Text(line);
    }
    ClassifiedAt(fmt, lines, i);
  }

  /** The index of the first non-text line at or after `j` (or the number of lines). */
  function BlockEnd(kinds: seq<Line>, j: nat): (k: nat)
    requires j <= |kinds|
    ensures j <= k <= |kinds|
    ensures forall t :: j <= t < k ==> kinds[t].Text?
    ensures k < |kinds| ==> !kinds[k].Text?
    decreases |kinds| - j
  {
    if j == |kinds| || !kinds[j].Text? then j else BlockEnd(kinds, j + 1)
  }

  /** The texts of lines `j .. k-1`. */
  function Texts(kinds: seq<Line>, j: nat, k: nat): (r: seq<string>)
    requires j <= k <= |kinds|
    requires forall t :: j <= t < k ==> kinds[t].Text?
    ensures |r| == k - j
    ensures forall t :: 0 <= t < k - j ==> r[t] == kinds[j + t].text
    decreases k
  {
    if k == j then [] else Texts(kinds, j, k - 1) + [kinds[k - 1].text]
  }

  /** The emission test of the scripts' `if text and not ...:` line. */
  predicate Keep(f: Filter, alpha: char -> bool, start: int, text: string) {
    && text != ""
    && !(f.rejectEnglish && IsEnglish(text, alpha))
    && !ShouldDrop(f.dropTexts, f.minChars, text)
    && !IsExcluded(f.excluded, start)
    && (f.skipBefore.Some? ==> start >= f.skipBefore.value)
  }

  /** The entries found from line `i` on: at a timestamp, the text lines up to the
      next non-text line are joined with spaces and the entry is kept if it
      passes the filter; any other line is skipped. */
  function ParseFrom(f: Filter, alpha: char -> bool, kinds: seq<Line>, i: nat): seq<Entry>
    requires i <= |kinds|
    decreases |kinds| - i
  {
    if i == |kinds| then []
    else
      match kinds[i]
      case Stamp(s, e) =>
        var k := BlockEnd(kinds, i + 1);
        var text := Join(" ", Texts(kinds, i + 1, k));
        (if Keep(f, alpha, s, text) then [Entry(s, e, text)] else []) + ParseFrom(f, alpha, kinds, k)
      case _ => ParseFrom(f, alpha, kinds, i + 1)
  }

  function Parse(fmt: Format, alpha: char -> bool, content: string): seq<Entry> {
    ParseFrom(fmt.filter, alpha, Classified(fmt, Lines(content)), 0)
  }

  /** `ParseFrom` in the order the loop of `parse_transcript` produces it: the
      entries found from line `i` on, appended to those already in `acc`. */
  function ParseAcc(f: Filter, alpha: char -> bool, kinds: seq<Line>, i: nat, acc: seq<Entry>): seq<Entry>
    requires i <= |kinds|
    decreases |kinds| - i
  {
    if i == |kinds| then acc
    else
      match kinds[i]
      case Stamp(s, e) =>
        var k := BlockEnd(kinds, i + 1);
        var text := Join(" ", Texts(kinds, i + 1, k));
        ParseAcc(f, alpha, kinds, k, if Keep(f, alpha, s, text) then acc + [Entry(s, e, text)] else acc)
      case _ => ParseAcc(f, alpha, kinds, i + 1, acc)
  }

  /** The emitted part of one entry: the entry if it passes the filter. */
  function Emitted(f: Filter, alpha: char -> bool, s: int, e: int, text: string): seq<Entry> {
    if Keep(f, alpha, s, text) then [Entry(s, e, text)] else []
  }

  /** One step of each of the two definitions at a timestamp line. */
  lemma StampStep(f: Filter, alpha: char -> bool, kinds: seq<Line>, i: nat, acc: seq<Entry>, text: string)
    requires i < |kinds| && kinds[i].Stamp?
    requires text == Join(" ", Texts(kinds, i + 1, BlockEnd(kinds, i + 1)))
    ensures ParseFrom(f, alpha, kinds, i) ==
      Emitted(f, alpha, kinds[i].start, kinds[i].end, text) + ParseFrom(f, alpha, kinds, BlockEnd(kinds, i + 1))
    ensures ParseAcc(f, alpha, kinds, i, acc) ==
      ParseAcc(f, alpha, kinds, BlockEnd(kinds, i + 1), acc + Emitted(f, alpha, kinds[i].start, kinds[i].end, text))
  {
    assert acc + [] == acc;
  }

  lemma ConcatAssoc(a: seq<Entry>, b: seq<Entry>, c: seq<Entry>)
    ensures (a + b) + c == a + (b + c)
  {
  }

  lemma {:induction false} ParseAccFrom(f: Filter, alpha: char -> bool, kinds: seq<Line>, i: nat, acc: seq<Entry>)
    requires i <= |kinds|
    ensures ParseAcc(f, alpha, kinds, i, acc) == acc + ParseFrom(f, alpha, kinds, i)
    decreases |kinds| - i
  {
    if i == |kinds| {
      assert acc + [] == acc;
    } else if kinds[i].Stamp? {
      var k := BlockEnd(kinds, i + 1);
      var text := Join(" ", Texts(kinds, i + 1, k));
      var emitted := Emitted(f, alpha, kinds[i].start, kinds[i].end, text);
      StampStep(f, alpha, kinds, i, acc, text);
      ParseAccFrom(f, alpha, kinds, k, acc + emitted);
      ConcatAssoc(acc, emitted, ParseFrom(f, alpha, kinds, k));
    } else {
      ParseAccFrom(f, alpha, kinds, i + 1, acc);
    }
  }

  /** The inner loop of `parse_transcript`: from line `first` on, collect the
      text lines up to the next timestamp or blank line. */
  method CollectText(fmt: Format, lines: seq<string>, first: nat, ghost kinds: seq<Line>)
    returns (textLines: seq<string>, next: nat)
    requires first <= |lines| && kinds == Classified(fmt, lines)
    ensures next == BlockEnd(kinds, first)
    ensures textLines == Texts(kinds, first, next)
  {
    next := first;
    textLines := [];
    while next < |lines|
      invariant first <= next <= |lines|
      invariant BlockEnd(kinds, first) == BlockEnd(kinds, next)
      invariant textLines == Texts(kinds, first, next)
      decreases |lines| - next
    {
      var textKind := ClassifyLine(fmt, lines, next, kinds);
      if !textKind.Text? {
        CollectStop(kinds, first, next);
        break;
      }
      CollectStep(kinds, first, next);
      textLines := textLines + [textKind.text];
      next := next + 1;
    }
  }

  /** A text line extends the run of text lines by its text. */
  lemma CollectStep(kinds: seq<Line>, first: nat, next: nat)
    requires first <= next < |kinds| && kinds[next].Text?
    requires BlockEnd(kinds, first) == BlockEnd(kinds, next)
    ensures BlockEnd(kinds, first) == BlockEnd(kinds, next + 1)
    ensures next + 1 <= BlockEnd(kinds, first)
    ensures Texts(kinds, first, next + 1) == Texts(kinds, first, next) + [kinds[next].text]
  {
  }

  /** A line that is not text ends the run. */
  lemma CollectStop(kinds: seq<Line>, first: nat, next: nat)
    requires first <= next < |kinds| && !kinds[next].Text?
    requires BlockEnd(kinds, first) == BlockEnd(kinds, next)
    ensures next == BlockEnd(kinds, first)
  {
  }

  /** `parse_transcript` on the file's content: the index loop over the lines. */
  method ParseTranscript(fmt: Format, alpha: char -> bool, content: string) returns (segments: seq<Entry>)
    ensures segments == Parse(fmt, alpha, content)
  {
    var lines := Split(Strip(content), '\n');
    ghost var kinds := Classified(fmt, lines);
    segments := [];
    var i := 0;
    while i < |lines|
      invariant 0 <= i <= |lines|
      invariant ParseAcc(fmt.filter, alpha, kinds, i, segments) == ParseAcc(fmt.filter, alpha, kinds, 0, [])
      decreases |lines| - i
    {
      var kind := ClassifyLine(fmt, lines, i, kinds);
      if kind.Stamp? {
        var textLines, next := CollectText(fmt, lines, i + 1, kinds);
        var text := Join(" ", textLines);
        if Keep(fmt.filter, alpha, kind.start, text) {
          segments := segments + [Entry(kind.start, kind.end, text)];
        }
        i := next;
      } else {
        i := i + 1;
      }
    }
    ParseAccFrom(fmt.filter, alpha, kinds, 0, []);
    assert [] + ParseFrom(fmt.filter, alpha, kinds, 0) == ParseFrom(fmt.filter, alpha, kinds, 0);
  }

  // ---- what the parser guarantees about its entries ---------------------------

  /** The shape of an entry's text: non-empty, on one line, not itself a timestamp
      line, and (without the arrow dialect) with no blank at either end. */
  predicate WellFormedText(fmt: Format, t: string) {
    && t != ""
    && '\n' !in t
    && Header(fmt.pattern, t).None?
    && (!fmt.stripArrow ==> !IsSpace(t[0]) && !IsSpace(t[|t| - 1]))
  }

  lemma SliceExcludes(s: string, i: nat, j: nat, c: char)
    requires i <= j <= |s| && c !in s
    ensures c !in s[i..j]
  {
    assert forall k :: 0 <= k < j - i ==> s[i..j][k] == s[i + k];
  }

  lemma CleanNoNewline(fmt: Format, raw: string)
    requires '\n' !in raw
    ensures '\n' !in Clean(fmt, raw)
  {
    var s := TrimStart(raw);
    SliceExcludes(raw, |raw| - |s|, |raw|, '\n');
    var l := TrimEnd(s);
    SliceExcludes(s, 0, |l|, '\n');
    assert l == Strip(raw);
    if fmt.stripArrow && Arrow in l {
      var r := AfterFirst(l, Arrow);
      SliceExcludes(l, |l| - |r|, |l|, '\n');
    }
  }

  /** A line of text of a line without a newline is well formed on its own. */
  lemma ClassifyText(fmt: Format, raw: string)
    requires '\n' !in raw && Classify(fmt, raw).Text?
    ensures WellFormedText(fmt, Classify(fmt, raw).text)
  {
    CleanNoNewline(fmt, raw);
    StripEnds(raw);
  }

  /** A text holding a space is never a timestamp line. */
  lemma SpacedNotHeader(pattern: Pattern, t: string, k: nat)
    requires k < |t| && t[k] == ' '
    ensures Header(pattern, t).None?
  {
    if Header(pattern, t).Some? {
      HeaderChars(pattern, t);
    }
  }

  /** Joining well-formed texts with spaces gives a well-formed text. */
  lemma JoinedText(fmt: Format, parts: seq<string>)
    requires |parts| >= 1
    requires forall t :: 0 <= t < |parts| ==> WellFormedText(fmt, parts[t])
    ensures WellFormedText(fmt, Join(" ", parts))
  {
    var text := Join(" ", parts);
    JoinEnds(" ", parts);
    JoinExcludes(" ", parts, '\n');
    if |parts| > 1 {
      assert text == parts[0] + " " + Join(" ", parts[1..]);
      SpacedNotHeader(fmt.pattern, text, |parts[0]|);
    }
  }

  /** Every entry found from line `i` on passes the filter and, when every text
      line is well formed, has a well-formed text. */
  lemma {:induction false} ParseFromEntries(fmt: Format, alpha: char -> bool, kinds: seq<Line>, i: nat)
    requires i <= |kinds|
    requires forall t :: 0 <= t < |kinds| && kinds[t].Text? ==> WellFormedText(fmt, kinds[t].text)
    ensures forall e :: e in ParseFrom(fmt.filter, alpha, kinds, i) ==>
      Keep(fmt.filter, alpha, e.start, e.text) && WellFormedText(fmt, e.text)
    decreases |kinds| - i
  {
    if i < |kinds| {
      match kinds[i]
      case Stamp(s, e) =>
        var k := BlockEnd(kinds, i + 1);
        ParseFromEntries(fmt, alpha, kinds, k);
        if k > i + 1 {
          JoinedText(fmt, Texts(kinds, i + 1, k));
        }
      case _ =>
        ParseFromEntries(fmt, alpha, kinds, i + 1);
    }
  }

  /** `parse_transcript` emits only entries that pass the script's filters
      (non-empty text, not English, not a filler, not excluded, not before the
      cutoff, as the script has them), each of one line of text that is not a
      timestamp. */
  lemma ParsedEntries(fmt: Format, alpha: char -> bool, content: string)
    ensures forall e :: e in Parse(fmt, alpha, content) ==>
      Keep(fmt.filter, alpha, e.start, e.text) && WellFormedText(fmt, e.text)
  {
    var lines := Lines(content);
    var kinds := Classified(fmt, lines);
    forall t | 0 <= t < |kinds| && kinds[t].Text? ensures WellFormedText(fmt, kinds[t].text) {
      ClassifiedAt(fmt, lines, t);
      ClassifyText(fmt, lines[t]);
    }
    ParseFromEntries(fmt, alpha, kinds, 0);
  }
}
