/** The constants of the four segment-building scripts (build_evangelion.py,
    build_srs.py, build_charlottes_web.py, preview_segments.py), and what the
    shared model promises for each of them. */
module Scripts {
  import opened Strings
  import opened Filters
  import opened Transcript
  import opened Merge
  import opened Endpoints
  import opened Clips

  // ---- build_evangelion.py ------------------------------------------------------

  const EvangelionDrop: set<string> := {"うん", "ああ", "はぁ", "えっ"}

  /** Flexible timestamps, no line-number prefix; drop set, English filter and
      the 1:30 opening cutoff. */
  const EvangelionFormat: Format :=
    Format(Flexible, false, Filter(EvangelionDrop, 0, [], Some(90), true))

  const EvangelionRules: Rules := Rules(3.0, 1.5, 12.0, false, false, {}, {}, true, false)

  const EvangelionEndpoints: EndpointConfig := EndpointConfig(
    AfterConfig(0.0, 2.0, 0.15, 0.15, 0.35, Some(0.7), 0.9, true),
    Some(BeforeConfig(1.0, 0.15, 0.15, 0.10, 0.15)),
    true)

  const EvangelionClipExt: string := "mp3"

  /** Every entry build_evangelion.py keeps has text, is not English, is not a
      filler and starts at or after 1:30. */
  lemma EvangelionEntries(alpha: char -> bool, content: string)
    ensures forall e :: e in Parse(EvangelionFormat, alpha, content) ==>
      && e.text != ""
      && !IsEnglish(e.text, alpha)
      && Strip(e.text) !in EvangelionDrop
      && e.start >= 90
  {
    ParsedEntries(EvangelionFormat, alpha, content);
  }

  /** build_evangelion.py's merge keeps every text in order and caps merged
      segments at 12 seconds. */
  lemma EvangelionMerge(es: seq<Entry>)
    ensures AllTexts(Merge.Merge(EvangelionRules, es)) == TextsOf(es)
    ensures forall g :: g in Merge.Merge(EvangelionRules, es) && |g.texts| >= 2 ==> Duration(g) <= 12
  {
    MergeConservesTexts(EvangelionRules, es);
    MergeWithinCap(EvangelionRules, es);
  }

  /** A refined end either is the fallback (50 ms before the next segment, or
      0.9 s after the end of the last one) or lies at least 0.7 s after the
      transcript end. */
  lemma EvangelionEnd(a: Audio, startTime: real, next: Option<real>, globalMax: Option<real>)
    requires ValidAudio(a)
    ensures var t := SilenceAfter(EvangelionEndpoints.after, a, startTime, next, globalMax);
      || (next.Some? && t == next.value - 0.05)
      || (next.None? && t == startTime + 0.9)
      || t >= startTime + 0.7
  {
    SilenceAfterBounds(EvangelionEndpoints.after, a, startTime, next, globalMax);
  }

  // ---- build_srs.py -------------------------------------------------------------

  const SrsDrop: set<string> := {"目標に前段命中!", "せーの!", "はぁ", "じゃ", "父さん", "頼む"}
  const SrsExcluded: seq<(int, int)> := [(0, 112), (1344, 1400)]
  const SrsVocatives: set<string> := {"イカリシンジ君", "シンジ君", "レイ", "冬月", "副司令"}
  const SrsIsolated: set<string> := {"はい", "そう", "そうね"}

  /** Two-digit timestamps behind a line-number arrow; drop set, excluded ranges
      and the English filter. */
  const SrsFormat: Format := Format(TwoDigit, true, Filter(SrsDrop, 0, SrsExcluded, None, true))

  /** The merge rules as written: a merge vetoed by the cap emits the accumulator
      without the drop-if-isolated test. */
  const SrsRulesAsWritten: Rules :=
    Rules(3.0, 1.5, 12.0, true, true, SrsVocatives, SrsIsolated, true, false)

  /** The merge rules as intended: the drop-if-isolated test on every close. */
  const SrsRules: Rules :=
    Rules(3.0, 1.5, 12.0, true, true, SrsVocatives, SrsIsolated, true, true)

  const SrsEndpoints: EndpointConfig := EndpointConfig(
    AfterConfig(0.5, 2.5, 0.15, 0.15, 0.03, None, 0.8, false), None, false)

  const SrsClipExt: string := "m4a"

  /** Every entry build_srs.py keeps has text, is not English, is not a filler
      and starts outside both excluded ranges (bounds included). */
  lemma SrsEntries(alpha: char -> bool, content: string)
    ensures forall e :: e in Parse(SrsFormat, alpha, content) ==>
      && e.text != ""
      && !IsEnglish(e.text, alpha)
      && Strip(e.text) !in SrsDrop
      && !(0 <= e.start <= 112) && !(1344 <= e.start <= 1400)
  {
    ParsedEntries(SrsFormat, alpha, content);
    forall e | e in Parse(SrsFormat, alpha, content) ensures !(0 <= e.start <= 112) && !(1344 <= e.start <= 1400) {
      assert !IsExcluded(SrsExcluded, e.start);
      assert SrsExcluded[0] == (0, 112) && SrsExcluded[1] == (1344, 1400);
    }
  }

  /** A listed text with no blank at either end, alone and lasting no time,
      meets the drop-if-isolated condition. */
  lemma IsolatedInstant(r: Rules, t: string, at: int)
    requires t in r.isolated && |t| > 0 && !IsSpace(t[0]) && !IsSpace(t[|t| - 1])
    ensures Isolated(r, Group(at, at, [t]))
  {
    StripNoop(t);
  }

  lemma SrsHaiIsolated()
    ensures Isolated(SrsRulesAsWritten, Group(100, 100, ["はい"]))
  {
    var t := "はい";
    assert t in SrsIsolated;
    assert !IsSpace(t[0]) && !IsSpace(t[1]);
    IsolatedInstant(SrsRulesAsWritten, t, 100);
  }

  /** A merge of it with an entry a second later is proposed, and the cap vetoes
      it, which as written closes the accumulator and keeps it. */
  lemma SrsVetoKeeps()
    ensures Decide(SrsRulesAsWritten, Group(100, 100, ["はい"]), Entry(101, 114, "X")) == Close(true)
  {
    var r := SrsRulesAsWritten;
    var g := Group(100, 100, ["はい"]);
    var e := Entry(101, 114, "X");
    assert Duration(g) == 0 && (e.start - g.end) as real == 1.0;
    assert Proposed(r, g, e);
    assert ((e.end - g.start) as real) > r.cap;
    assert !r.dropIsolatedOnVeto;
  }

  /** As written, a short isolated "はい" whose merge with the next entry the cap
      vetoes is emitted on its own. */
  lemma SrsIsolatedEmitted()
    ensures var es := [Entry(100, 100, "はい"), Entry(101, 114, "X")];
      var g := Group(100, 100, ["はい"]);
      g in Merge.Merge(SrsRulesAsWritten, es) && Isolated(SrsRulesAsWritten, g)
  {
    var r := SrsRulesAsWritten;
    var e0, e1 := Entry(100, 100, "はい"), Entry(101, 114, "X");
    var g := Group(100, 100, ["はい"]);
    SrsHaiIsolated();
    SrsVetoKeeps();
    assert Summary([e0]) == g;
    var tail := PartitionFrom(r, [e1], []);
    assert PartitionFrom(r, [e0], [e1]) == [([e0], true)] + tail by {
      assert [e1][1..] == [];
    }
    var parts := [([e0], true)] + tail;
    assert parts[1..] == tail;
    assert Kept(parts) == [g] + Kept(tail);
  }

  /** With the drop test on every close, no emitted accumulator is a single short
      listed text, mid-stream or at the end. */
  lemma SrsNeverIsolated(es: seq<Entry>)
    ensures forall g :: g in Merge.Merge(SrsRules, es) ==>
      !(|g.texts| == 1 && Strip(g.texts[0]) in SrsIsolated && Duration(g) < 1)
  {
    MergeNeverIsolated(SrsRules, es);
  }

  /** build_srs.py caps merged segments at 12 seconds, as written and with the
      drop test on every close alike. */
  lemma SrsWithinCap(es: seq<Entry>)
    ensures forall g :: g in Merge.Merge(SrsRulesAsWritten, es) && |g.texts| >= 2 ==> Duration(g) <= 12
    ensures forall g :: g in Merge.Merge(SrsRules, es) && |g.texts| >= 2 ==> Duration(g) <= 12
  {
    MergeWithinCap(SrsRulesAsWritten, es);
    MergeWithinCap(SrsRules, es);
  }

  /** A refined end is 0.8 s after the transcript end (every fallback, whether or
      not a next segment exists) or more than 0.5 s after it. */
  lemma SrsEnd(a: Audio, startTime: real, next: Option<real>)
    requires ValidAudio(a)
    ensures var t := SilenceAfter(SrsEndpoints.after, a, startTime, next, None);
      t == startTime + 0.8 || t > startTime + 0.5
  {
    SilenceAfterBounds(SrsEndpoints.after, a, startTime, next, None);
  }

  // ---- build_charlottes_web.py --------------------------------------------------

  const CharlotteDrop: set<string> := {
    "Y.", "Eso.", "Por.", "Comillas.", "Dijo.", "El juego.", "Tío.", "Agatín.", "Side.",
    "Lado.", "Mediante.", "Dijo el.", "Ganso.", "Él.", "A él.", "Dándole.", "Cabriole."
  }

  /** Two-digit timestamps behind a line-number arrow; drop set and a three
      character minimum, no English filter. */
  const CharlotteFormat: Format := Format(TwoDigit, true, Filter(CharlotteDrop, 3, [], None, false))

  const CharlotteRules: Rules := Rules(3.0, 1.5, 15.0, true, false, {}, {}, true, false)

  const CharlotteEndpoints: EndpointConfig := EndpointConfig(
    AfterConfig(0.3, 2.0, 0.12, 0.12, 0.03, None, 0.5, false), None, false)

  const CharlotteClipExt: string := "mp3"

  /** Every kept entry has at least three characters once stripped and is not a
      listed filler. */
  lemma CharlotteEntries(alpha: char -> bool, content: string)
    ensures forall e :: e in Parse(CharlotteFormat, alpha, content) ==>
      |Strip(e.text)| >= 3 && Strip(e.text) !in CharlotteDrop
  {
    ParsedEntries(CharlotteFormat, alpha, content);
  }

  /** build_charlottes_web.py's merge keeps every text in order and caps merged
      segments at 15 seconds. */
  lemma CharlotteMerge(es: seq<Entry>)
    ensures AllTexts(Merge.Merge(CharlotteRules, es)) == TextsOf(es)
    ensures forall g :: g in Merge.Merge(CharlotteRules, es) && |g.texts| >= 2 ==> Duration(g) <= 15
  {
    MergeConservesTexts(CharlotteRules, es);
    MergeWithinCap(CharlotteRules, es);
  }

  /** A refined end is the 0.5 s fallback or at least 0.33 s after the transcript
      end (the 0.3 s extension plus the 30 ms buffer). */
  lemma CharlotteEnd(a: Audio, startTime: real, next: Option<real>)
    requires ValidAudio(a)
    ensures var t := SilenceAfter(CharlotteEndpoints.after, a, startTime, next, None);
      t == startTime + 0.5 || t >= startTime + 0.33
  {
    SilenceAfterBounds(CharlotteEndpoints.after, a, startTime, next, None);
  }

  /** In build_srs.py and build_charlottes_web.py the refinement loop rewrites
      only the ends: every segment keeps its start and its text. */
  lemma EndOnlyAdjust(c: EndpointConfig, a: Audio, s: seq<Segment>, i: nat)
    requires c == SrsEndpoints || c == CharlotteEndpoints
    requires ValidAudio(a) && i < |s|
    ensures ValidConfig(c)
    ensures var r := Adjusted(c, a, s);
      |r| == |s| && r[i].start == s[i].start && r[i].text == s[i].text
  {
    AdjustedSegment(c, a, s, i);
  }

  /** The stages of build_charlottes_web.py fit together: the endpoint loop runs
      on the finished groups of the parsed transcript, one segment per group.
      Each refined segment keeps its group's start and its texts joined by
      " / ", and ends at the 0.5 s fallback or at least 0.33 s after the
      group's end; the groups hold every kept transcript text, in order. */
  lemma CharlottePipeline(alpha: char -> bool, content: string, a: Audio, i: nat)
    requires ValidAudio(a)
    requires i < |Merge.Merge(CharlotteRules, Parse(CharlotteFormat, alpha, content))|
    ensures ValidConfig(CharlotteEndpoints)
    ensures var es := Parse(CharlotteFormat, alpha, content);
      var gs := Merge.Merge(CharlotteRules, es);
      var r := Adjusted(CharlotteEndpoints, a, Finalized(gs));
      && AllTexts(gs) == TextsOf(es)
      && |r| == |gs|
      && r[i].start == gs[i].start as real
      && r[i].text == Join(" / ", gs[i].texts)
      && (r[i].end == gs[i].end as real + 0.5 || r[i].end >= gs[i].end as real + 0.33)
  {
    var es := Parse(CharlotteFormat, alpha, content);
    var gs := Merge.Merge(CharlotteRules, es);
    var s := Finalized(gs);
    CharlotteMerge(es);
    AdjustedSegment(CharlotteEndpoints, a, s, i);
    CharlotteEnd(a, s[i].end, if i + 1 < |s| then Some(s[i + 1].start) else None);
  }

  // ---- preview_segments.py ------------------------------------------------------

  /** Two-digit timestamps behind a line-number arrow; excluded ranges and the
      English filter, no drop set. */
  const PreviewFormat: Format := Format(TwoDigit, true, Filter({}, 0, SrsExcluded, None, true))

  /** Only the tiny-gap rule looks at the 10 second cap; a proposed merge is never
      vetoed. */
  const PreviewRules: Rules := Rules(3.0, 1.5, 10.0, false, false, {}, {}, false, false)

  const EndBuffer: real := 0.4

  /** A preview line: the group's times with `END_BUFFER` added to the end, its
      joined texts and `original_count`. */
  datatype Preview = Preview(start: real, end: real, text: string, originalCount: nat)

  function PreviewOf(g: Group): (p: Preview)
    ensures p.start == g.start as real && p.end == g.end as real + EndBuffer
    ensures p.originalCount == |g.texts|
  {
    Preview(g.start as real, g.end as real + EndBuffer, Join(" / ", g.texts), |g.texts|)
  }

  /** `merge_segments` of preview_segments.py. */
  function PreviewMerge(es: seq<Entry>): (ps: seq<Preview>)
    ensures |ps| == |Merge.Merge(PreviewRules, es)|
  {
    var gs := Merge.Merge(PreviewRules, es);
    seq(|gs|, k requires 0 <= k < |gs| => PreviewOf(gs[k]))
  }

  function TotalCount(ps: seq<Preview>): nat {
    if |ps| == 0 then 0 else ps[0].originalCount + TotalCount(ps[1..])
  }

  lemma {:induction false} TotalCountTexts(gs: seq<Group>)
    ensures TotalCount(seq(|gs|, k requires 0 <= k < |gs| => PreviewOf(gs[k]))) == |AllTexts(gs)|
  {
    if |gs| > 0 {
      var ps := seq(|gs|, k requires 0 <= k < |gs| => PreviewOf(gs[k]));
      var rest := gs[1..];
      assert ps[1..] == seq(|rest|, k requires 0 <= k < |rest| => PreviewOf(rest[k]));
      TotalCountTexts(rest);
    }
  }

  /** Every input entry is counted once: the `original_count`s add up to the
      number of entries, empty input gives no preview and any other input at
      least one. */
  lemma PreviewCounts(es: seq<Entry>)
    ensures TotalCount(PreviewMerge(es)) == |es|
    ensures |es| == 0 <==> |PreviewMerge(es)| == 0
  {
    MergeConservesTexts(PreviewRules, es);
    TotalCountTexts(Merge.Merge(PreviewRules, es));
  }

  /** A preview line summarises one block of consecutive entries. */
  predicate PreviewOfBlock(p: Preview, block: seq<Entry>) {
    && |block| > 0
    && p.start == block[0].start as real
    && p.end == block[|block| - 1].end as real + EndBuffer
    && p.originalCount == |block|
    && p.text == Join(" / ", TextsOf(block))
  }

  /** Every preview line runs from its block's first start to its last end plus
      `END_BUFFER`, counts the block's entries and joins its texts by " / ". */
  lemma PreviewBlocks(es: seq<Entry>)
    ensures var ps := PreviewMerge(es);
      forall k :: 0 <= k < |ps| ==> exists p :: p in Partition(PreviewRules, es) && PreviewOfBlock(ps[k], p.0)
  {
    var gs := Merge.Merge(PreviewRules, es);
    var ps := PreviewMerge(es);
    MergeGroupsAreBlocks(PreviewRules, es);
    forall k | 0 <= k < |ps| ensures exists p :: p in Partition(PreviewRules, es) && PreviewOfBlock(ps[k], p.0)
    {
      assert gs[k] in gs;
      var p :| p in Partition(PreviewRules, es) && |p.0| > 0 && gs[k] == Summary(p.0);
      assert ps[k] == PreviewOf(Summary(p.0));
    }
  }

  /** Kept preview entries have text, are not English and start outside both
      excluded ranges; there is no drop set. */
  lemma PreviewEntries(alpha: char -> bool, content: string)
    ensures forall e :: e in Parse(PreviewFormat, alpha, content) ==>
      && e.text != ""
      && !IsEnglish(e.text, alpha)
      && !(0 <= e.start <= 112) && !(1344 <= e.start <= 1400)
  {
    ParsedEntries(PreviewFormat, alpha, content);
    forall e | e in Parse(PreviewFormat, alpha, content) ensures !(0 <= e.start <= 112) && !(1344 <= e.start <= 1400) {
      assert !IsExcluded(SrsExcluded, e.start);
      assert SrsExcluded[0] == (0, 112) && SrsExcluded[1] == (1344, 1400);
    }
  }

  /** The short-segment rule merges without looking at the cap: two entries 1 s
      apart make a 14 second preview under a 10 second cap. */
  lemma PreviewExceedsCap()
    ensures var ps := PreviewMerge([Entry(0, 2, "a"), Entry(3, 14, "b")]);
      |ps| == 1 && ps[0].originalCount == 2 && ps[0].end - ps[0].start > 10.0
  {
    var r := PreviewRules;
    var e0, e1 := Entry(0, 2, "a"), Entry(3, 14, "b");
    var es := [e0, e1];
    var g := Group(0, 14, ["a", "b"]);
    assert Summary([e0]) == Group(0, 2, ["a"]);
    assert Decide(r, Group(0, 2, ["a"]), e1) == Extend;
    assert [e0] + [e1] == es;
    assert PartitionFrom(r, es, []) == [(es, true)];
    assert PartitionFrom(r, [e0], [e1]) == PartitionFrom(r, es, []) by {
      assert [e1][1..] == [];
    }
    assert Summary(es) == g;
    var parts := [(es, true)];
    assert parts[1..] == [];
    assert Kept(parts) == [g];
  }
}
