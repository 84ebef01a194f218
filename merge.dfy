/** `merge_segments` of the four build and preview scripts: one left-to-right pass
    that grows an accumulator `current` while the merge rules propose merging the
    next entry and the duration cap does not veto it, and otherwise closes
    `current` (emitting it, unless the drop-if-isolated rule discards it) and
    starts a new one. The variant rules of each script are switched by `Rules`. */
module Merge {
  import opened Strings
  import opened Transcript

  /** The merge rules of one script. Thresholds are in seconds. */
  datatype Rules = Rules(
    minSegment: real,         // MIN_SEGMENT_DURATION
    maxGap: real,             // MAX_GAP_TO_MERGE
    cap: real,                // MAX_MERGED_DURATION
    veryShort: bool,          // the `gap <= 3.0 and current_duration < 1.0` rule
    question: bool,           // the question / vocative rule
    vocatives: set<string>,   // the names of the vocative rule
    isolated: set<string>,    // DROP_IF_ISOLATED (empty: no drop rule)
    vetoOverCap: bool,        // a proposed merge is vetoed above the cap
    dropIsolatedOnVeto: bool) // the drop rule is also applied when a merge is vetoed

  /** The accumulator `current`: start and end of the entries merged so far and
      their texts. */
  datatype Group = Group(start: int, end: int, texts: seq<string>)

  function Duration(g: Group): int {
    g.end - g.start
  }

  /** `current['texts'][-1].strip() if current['texts'] else ""` */
  function LastText(g: Group): string {
    if |g.texts| > 0 then Strip(g.texts[|g.texts| - 1]) else ""
  }

  /** A text the question / vocative rule continues after: it ends with a question
      mark or with the particle `か`, or it is a listed name. */
  predicate Continues(r: Rules, t: string) {
    EndsWith(t, '?') || EndsWith(t, 'か') || t in r.vocatives
  }

  /** `should_merge` of the script: the short-segment rule, the very-short rule,
      the tiny-gap rule and the question / vocative rule. */
  predicate Proposed(r: Rules, g: Group, e: Entry) {
    var d := Duration(g) as real;
    var gap := (e.start - g.end) as real;
    var potential := (e.end - g.start) as real;
    || (d < r.minSegment && (gap <= r.maxGap || (r.veryShort && gap <= 3.0 && d < 1.0)))
    || (d >= r.minSegment && gap <= 0.5 && potential <= r.cap)
    || (r.question && gap <= 2.0 && Continues(r, LastText(g)))
  }

  /** The drop-if-isolated condition: a single text, listed, lasting under a second. */
  predicate Isolated(r: Rules, g: Group) {
    |g.texts| == 1 && Strip(g.texts[0]) in r.isolated && (Duration(g) as real) < 1.0
  }

  /** What one step does with `current`: extend it by the entry, or close it and
      say whether it is emitted. */
  datatype Action = Extend | Close(keep: bool)

  function Decide(r: Rules, g: Group, e: Entry): Action {
    if Proposed(r, g, e) then
      if !r.vetoOverCap || ((e.end - g.start) as real) <= r.cap then Extend
      else Close(!(r.dropIsolatedOnVeto && Isolated(r, g)))
    else
      Close(!Isolated(r, g))
  }

  // ---- the specification: a partition of the entries into blocks -------------

  function TextsOf(es: seq<Entry>): (r: seq<string>)
    ensures |r| == |es|
    ensures forall k :: 0 <= k < |es| ==> r[k] == es[k].text
  {
    seq(|es|, k requires 0 <= k < |es| => es[k].text)
  }

  lemma TextsOfConcat(a: seq<Entry>, b: seq<Entry>)
    ensures TextsOf(a + b) == TextsOf(a) + TextsOf(b)
  {
  }

  /** The accumulator built from a block of consecutive entries. */
  function Summary(block: seq<Entry>): Group
    requires |block| > 0
  {
    Group(block[0].start, block[|block| - 1].end, TextsOf(block))
  }

  /** The blocks `merge_segments` builds, from the current block on, each with
      whether it is emitted. */
  function PartitionFrom(r: Rules, block: seq<Entry>, rest: seq<Entry>): (parts: seq<(seq<Entry>, bool)>)
    requires |block| > 0
    ensures forall k :: 0 <= k < |parts| ==> |parts[k].0| > 0
    decreases |rest|
  {
    if |rest| == 0 then [(block, !Isolated(r, Summary(block)))]
    else
      match Decide(r, Summary(block), rest[0])
      case Extend => PartitionFrom(r, block + [rest[0]], rest[1..])
      case Close(keep) => [(block, keep)] + PartitionFrom(r, [rest[0]], rest[1..])
  }

  function Partition(r: Rules, es: seq<Entry>): (parts: seq<(seq<Entry>, bool)>)
    ensures forall k :: 0 <= k < |parts| ==> |parts[k].0| > 0
  {
    if |es| == 0 then [] else PartitionFrom(r, [es[0]], es[1..])
  }

  /** The accumulators of the emitted blocks, in order. */
  function Kept(parts: seq<(seq<Entry>, bool)>): seq<Group>
    requires forall k :: 0 <= k < |parts| ==> |parts[k].0| > 0
  {
    if |parts| == 0 then []
    else (if parts[0].1 then [Summary(parts[0].0)] else []) + Kept(parts[1..])
  }

  /** The result of `merge_segments` (before `finalize_segment`). */
  function Merge(r: Rules, es: seq<Entry>): seq<Group> {
    Kept(Partition(r, es))
  }

  /** All entries of the blocks, in order. */
  function Entries(parts: seq<(seq<Entry>, bool)>): seq<Entry> {
    if |parts| == 0 then [] else parts[0].0 + Entries(parts[1..])
  }

  /** All texts of the groups, in order. */
  function AllTexts(gs: seq<Group>): seq<string> {
    if |gs| == 0 then [] else gs[0].texts + AllTexts(gs[1..])
  }

  // ---- the loop ---------------------------------------------------------------

  /** `Merge` in the order the loop produces it: the groups emitted from the
      current block on, appended to those in `merged`. */
  function MergeAcc(r: Rules, merged: seq<Group>, block: seq<Entry>, rest: seq<Entry>): seq<Group>
    requires |block| > 0
    decreases |rest|
  {
    if |rest| == 0 then merged + (if Isolated(r, Summary(block)) then [] else [Summary(block)])
    else
      match Decide(r, Summary(block), rest[0])
      case Extend => MergeAcc(r, merged, block + [rest[0]], rest[1..])
      case Close(keep) => MergeAcc(r, merged + (if keep then [Summary(block)] else []), [rest[0]], rest[1..])
  }

  lemma ConcatAssoc(a: seq<Group>, b: seq<Group>, c: seq<Group>)
    ensures (a + b) + c == a + (b + c)
  {
  }

  lemma {:induction false} MergeAccKept(r: Rules, merged: seq<Group>, block: seq<Entry>, rest: seq<Entry>)
    requires |block| > 0
    ensures MergeAcc(r, merged, block, rest) == merged + Kept(PartitionFrom(r, block, rest))
    decreases |rest|
  {
    if |rest| == 0 {
      var parts := PartitionFrom(r, block, rest);
      assert Kept(parts) == (if parts[0].1 then [Summary(parts[0].0)] else []) + Kept(parts[1..]);
      assert parts[1..] == [];
    } else {
      match Decide(r, Summary(block), rest[0])
      case Extend =>
        MergeAccKept(r, merged, block + [rest[0]], rest[1..]);
      case Close(keep) =>
        var emitted := if keep then [Summary(block)] else [];
        var tail := PartitionFrom(r, [rest[0]], rest[1..]);
        MergeAccKept(r, merged + emitted, [rest[0]], rest[1..]);
        var parts := [(block, keep)] + tail;
        assert parts[1..] == tail;
        assert Kept(parts) == emitted + Kept(tail);
        ConcatAssoc(merged, emitted, Kept(tail));
    }
  }

  lemma SummaryExtend(block: seq<Entry>, e: Entry)
    requires |block| > 0
    ensures Summary(block + [e]) == Group(Summary(block).start, e.end, Summary(block).texts + [e.text])
  {
    assert TextsOf(block + [e]) == TextsOf(block) + [e.text];
  }

  /** The `should_merge` decision of one step of `merge_segments`. */
  method ShouldMerge(r: Rules, current: Group, seg: Entry) returns (shouldMerge: bool)
    ensures shouldMerge == Proposed(r, current, seg)
  {
    var currentDuration := current.end - current.start;
    var gap := seg.start - current.end;
    var currentText := if |current.texts| > 0 then Strip(current.texts[|current.texts| - 1]) else "";

    shouldMerge := false;
    if (currentDuration as real) < r.minSegment {
      if (gap as real) <= r.maxGap {
        shouldMerge := true;
      } else if r.veryShort && (gap as real) <= 3.0 && (currentDuration as real) < 1.0 {
        shouldMerge := true;
      }
    } else if (gap as real) <= 0.5 {
      var potentialDuration := seg.end - current.start;
      if (potentialDuration as real) <= r.cap {
        shouldMerge := true;
      }
    }
    if r.question && (gap as real) <= 2.0 {
      if EndsWith(currentText, '?') || EndsWith(currentText, 'か') {
        shouldMerge := true;
      }
      if currentText in r.vocatives {
        shouldMerge := true;
      }
    }
  }

  /** One step of `MergeAcc` that extends the current block. */
  lemma AccExtend(r: Rules, merged: seq<Group>, block: seq<Entry>, rest: seq<Entry>)
    requires |block| > 0 && |rest| > 0 && Decide(r, Summary(block), rest[0]) == Extend
    ensures MergeAcc(r, merged, block, rest) == MergeAcc(r, merged, block + [rest[0]], rest[1..])
  {
  }

  /** One step of `MergeAcc` that closes the current block. */
  lemma AccClose(r: Rules, merged: seq<Group>, block: seq<Entry>, rest: seq<Entry>, keep: bool)
    requires |block| > 0 && |rest| > 0 && Decide(r, Summary(block), rest[0]) == Close(keep)
    ensures MergeAcc(r, merged, block, rest) ==
      MergeAcc(r, merged + (if keep then [Summary(block)] else []), [rest[0]], rest[1..])
  {
  }

  /** `merge_segments`: the loop over the entries with the accumulator `current`
      and the output list `merged`. */
  method MergeSegments(r: Rules, segments: seq<Entry>) returns (merged: seq<Group>)
    ensures merged == Merge(r, segments)
  {
    if |segments| == 0 {
      return [];
    }
    merged := [];
    var current := Group(segments[0].start, segments[0].end, [segments[0].text]);
    ghost var block := [segments[0]];
    ghost var total := MergeAcc(r, [], [segments[0]], segments[1..]);
    assert current == Summary(block);
    for i := 1 to |segments|
      invariant |block| > 0 && current == Summary(block)
      invariant MergeAcc(r, merged, block, segments[i..]) == total
    {
      var seg := segments[i];
      ghost var rest := segments[i..];
      assert rest[0] == seg && rest[1..] == segments[i + 1..];
      var shouldMerge := ShouldMerge(r, current, seg);
      if shouldMerge {
        var potentialDuration := seg.end - current.start;
        if !r.vetoOverCap || (potentialDuration as real) <= r.cap {
          AccExtend(r, merged, block, rest);
          SummaryExtend(block, seg);
          current := Group(current.start, seg.end, current.texts + [seg.text]);
          block := block + [seg];
        } else {
          ghost var keep := !(r.dropIsolatedOnVeto && Isolated(r, current));
          ghost var next := merged + (if keep then [current] else []);
          AccClose(r, merged, block, rest, keep);
          if !(r.dropIsolatedOnVeto && Isolated(r, current)) {
            merged := merged + [current];
          } else {
            assert merged + [] == merged;
          }
          assert merged == next;
          current := Group(seg.start, seg.end, [seg.text]);
          block := [seg];
        }
      } else {
        AccClose(r, merged, block, rest, !Isolated(r, current));
        if |current.texts| == 1 && Strip(current.texts[0]) in r.isolated {
          var duration := current.end - current.start;
          if (duration as real) < 1.0 {
            assert merged + [] == merged;
            current := Group(seg.start, seg.end, [seg.text]);
            block := [seg];
            continue;
          }
        }
        merged := merged + [current];
        current := Group(seg.start, seg.end, [seg.text]);
        block := [seg];
      }
    }

    assert segments[|segments|..] == [];
    if |current.texts| == 1 && Strip(current.texts[0]) in r.isolated {
      var duration := current.end - current.start;
      if (duration as real) >= 1.0 {
        merged := merged + [current];
      }
    } else {
      merged := merged + [current];
    }
    MergeAccKept(r, [], [segments[0]], segments[1..]);
    assert [] + Kept(PartitionFrom(r, [segments[0]], segments[1..])) == Merge(r, segments);
  }

  // ---- what the merger guarantees ---------------------------------------------

  /** The blocks are the input entries, each exactly once and in order. */
  lemma {:induction false} PartitionFromEntries(r: Rules, block: seq<Entry>, rest: seq<Entry>)
    requires |block| > 0
    ensures Entries(PartitionFrom(r, block, rest)) == block + rest
    decreases |rest|
  {
    var parts := PartitionFrom(r, block, rest);
    if |rest| == 0 {
      assert parts[1..] == [];
    } else {
      match Decide(r, Summary(block), rest[0])
      case Extend =>
        PartitionFromEntries(r, block + [rest[0]], rest[1..]);
        assert block + [rest[0]] + rest[1..] == block + rest;
      case Close(keep) =>
        PartitionFromEntries(r, [rest[0]], rest[1..]);
        assert parts[1..] == PartitionFrom(r, [rest[0]], rest[1..]);
        assert [rest[0]] + rest[1..] == rest;
    }
  }

  lemma PartitionEntries(r: Rules, es: seq<Entry>)
    ensures Entries(Partition(r, es)) == es
  {
    if |es| > 0 {
      PartitionFromEntries(r, [es[0]], es[1..]);
      assert [es[0]] + es[1..] == es;
    }
  }

  /** The flag of a block agrees with the drop-if-isolated condition: only a block
      that meets it is discarded, and with the drop rule also applied on a veto,
      every block that meets it is. */
  predicate FlagSound(r: Rules, p: (seq<Entry>, bool)) {
    && |p.0| > 0
    && (!p.1 ==> Isolated(r, Summary(p.0)))
    && (r.dropIsolatedOnVeto ==> (p.1 <==> !Isolated(r, Summary(p.0))))
  }

  lemma {:induction false} PartitionFromDrops(r: Rules, block: seq<Entry>, rest: seq<Entry>)
    requires |block| > 0
    ensures forall p :: p in PartitionFrom(r, block, rest) ==> FlagSound(r, p)
    decreases |rest|
  {
    if |rest| > 0 {
      match Decide(r, Summary(block), rest[0])
      case Extend =>
        PartitionFromDrops(r, block + [rest[0]], rest[1..]);
      case Close(keep) =>
        assert FlagSound(r, (block, keep));
        PartitionFromDrops(r, [rest[0]], rest[1..]);
    }
  }

  /** Under a cap, a block of two or more entries spans at most the cap: every
      extension was checked against it. */
  predicate WithinCap(r: Rules, block: seq<Entry>) {
    |block| > 0 && (|block| >= 2 ==> ((block[|block| - 1].end - block[0].start) as real) <= r.cap)
  }

  lemma {:induction false} PartitionFromCap(r: Rules, block: seq<Entry>, rest: seq<Entry>)
    requires r.vetoOverCap && WithinCap(r, block)
    ensures forall p :: p in PartitionFrom(r, block, rest) ==> WithinCap(r, p.0)
    decreases |rest|
  {
    if |rest| > 0 {
      match Decide(r, Summary(block), rest[0])
      case Extend =>
        var next := block + [rest[0]];
        assert Proposed(r, Summary(block), rest[0]);
        assert ((rest[0].end - block[0].start) as real) <= r.cap;
        assert next[0] == block[0] && next[|next| - 1] == rest[0];
        PartitionFromCap(r, next, rest[1..]);
      case Close(keep) =>
        PartitionFromCap(r, [rest[0]], rest[1..]);
    }
  }

  /** Each emitted group is the accumulator of a block whose flag is set. */
  lemma {:induction false} KeptFrom(parts: seq<(seq<Entry>, bool)>, g: Group)
    requires forall k :: 0 <= k < |parts| ==> |parts[k].0| > 0
    requires g in Kept(parts)
    ensures exists p :: p in parts && p.1 && |p.0| > 0 && g == Summary(p.0)
  {
    if parts[0].1 && g == Summary(parts[0].0) {
      assert parts[0] in parts;
    } else {
      KeptFrom(parts[1..], g);
      var p :| p in parts[1..] && p.1 && |p.0| > 0 && g == Summary(p.0);
      assert p in parts;
    }
  }

  /** A property of every emitted block's accumulator holds of every emitted group. */
  lemma KeptSatisfy(parts: seq<(seq<Entry>, bool)>, P: Group -> bool)
    requires forall k :: 0 <= k < |parts| ==> |parts[k].0| > 0
    requires forall p :: p in parts && p.1 ==> |p.0| > 0 && P(Summary(p.0))
    ensures forall g :: g in Kept(parts) ==> P(g)
  {
    forall g | g in Kept(parts) ensures P(g) {
      KeptFrom(parts, g);
    }
  }

  /** Every emitted group is the accumulator of one of the blocks: it starts at its
      block's first entry, ends at its last entry and holds its texts in order. */
  lemma MergeGroupsAreBlocks(r: Rules, es: seq<Entry>)
    ensures forall g :: g in Merge(r, es) ==>
      exists p :: p in Partition(r, es) && |p.0| > 0 && g == Summary(p.0)
  {
    forall g | g in Merge(r, es)
      ensures exists p :: p in Partition(r, es) && |p.0| > 0 && g == Summary(p.0)
    {
      KeptFrom(Partition(r, es), g);
    }
  }

  lemma PartitionDrops(r: Rules, es: seq<Entry>)
    ensures forall p :: p in Partition(r, es) ==> FlagSound(r, p)
  {
    if |es| > 0 {
      PartitionFromDrops(r, [es[0]], es[1..]);
    }
  }

  /** With the drop rule applied on every close, no emitted group meets the
      drop-if-isolated condition, including the last one. */
  lemma MergeNeverIsolated(r: Rules, es: seq<Entry>)
    requires r.dropIsolatedOnVeto
    ensures forall g :: g in Merge(r, es) ==> !Isolated(r, g)
  {
    var parts := Partition(r, es);
    PartitionDrops(r, es);
    var P := (g: Group) => !Isolated(r, g);
    forall p | p in parts && p.1 ensures |p.0| > 0 && P(Summary(p.0)) {
      assert FlagSound(r, p);
    }
    KeptSatisfy(parts, P);
  }

  /** Under a cap, every emitted group of two or more entries lasts at most the cap. */
  lemma MergeWithinCap(r: Rules, es: seq<Entry>)
    requires r.vetoOverCap
    ensures forall g :: g in Merge(r, es) ==> |g.texts| >= 2 ==> (Duration(g) as real) <= r.cap
  {
    var parts := Partition(r, es);
    if |es| > 0 {
      PartitionFromCap(r, [es[0]], es[1..]);
    }
    var P := (g: Group) => |g.texts| >= 2 ==> (Duration(g) as real) <= r.cap;
    forall p | p in parts && p.1 ensures |p.0| > 0 && P(Summary(p.0)) {
      assert WithinCap(r, p.0);
    }
    KeptSatisfy(parts, P);
  }

  /** Without a drop rule, every block is emitted. */
  lemma {:induction false} KeptAll(parts: seq<(seq<Entry>, bool)>)
    requires forall k :: 0 <= k < |parts| ==> |parts[k].0| > 0 && parts[k].1
    ensures AllTexts(Kept(parts)) == TextsOf(Entries(parts))
  {
    if |parts| > 0 {
      KeptAll(parts[1..]);
      var g := Summary(parts[0].0);
      assert Kept(parts) == [g] + Kept(parts[1..]);
      assert AllTexts([g] + Kept(parts[1..])) == g.texts + AllTexts(Kept(parts[1..]));
      TextsOfConcat(parts[0].0, Entries(parts[1..]));
    }
  }

  /** Without a drop rule, the texts of the emitted groups are the input texts,
      each once and in order: nothing is lost, duplicated or reordered. */
  lemma MergeConservesTexts(r: Rules, es: seq<Entry>)
    requires r.isolated == {}
    ensures AllTexts(Merge(r, es)) == TextsOf(es)
    ensures |es| == 0 <==> |Merge(r, es)| == 0
  {
    var parts := Partition(r, es);
    PartitionDrops(r, es);
    forall k | 0 <= k < |parts| ensures parts[k].1 {
      assert parts[k] in parts && FlagSound(r, parts[k]);
    }
    PartitionEntries(r, es);
    KeptAll(parts);
    if |Merge(r, es)| == 0 {
      assert AllTexts(Merge(r, es)) == [];
    }
  }

  // ---- finalize_segment ---------------------------------------------------------

  /** A merged segment: times in (fractional) seconds, texts joined by " / ". */
  datatype Segment = Segment(start: real, end: real, text: string)

  /** `finalize_segment`: the accumulator with its texts joined by " / ". */
  function Finalize(g: Group): (s: Segment)
    ensures s.start == g.start as real && s.end == g.end as real
    ensures |g.texts| == 1 ==> s.text == g.texts[0]
  {
    Segment(g.start as real, g.end as real, Join(" / ", g.texts))
  }

  /** The merged groups, each finalized, in order. */
  function Finalized(gs: seq<Group>): (ss: seq<Segment>)
    ensures |ss| == |gs| && forall k :: 0 <= k < |gs| ==> ss[k] == Finalize(gs[k])
  {
    seq(|gs|, k requires 0 <= k < |gs| => Finalize(gs[k]))
  }

  /** A finished segment of a block of entries: from the block's first start to
      its last end, with the block's texts, in order, joined by " / ". */
  predicate SegmentOf(s: Segment, block: seq<Entry>) {
    && |block| > 0
    && s.start == block[0].start as real
    && s.end == block[|block| - 1].end as real
    && s.text == Join(" / ", TextsOf(block))
  }

  /** Every finished segment stands for one block of consecutive input entries:
      it starts at the block's first entry, ends at its last entry, and its text
      is the block's texts, in order, joined by " / ". */
  lemma FinalizedBlocks(r: Rules, es: seq<Entry>)
    ensures var ss := Finalized(Merge(r, es));
      forall k :: 0 <= k < |ss| ==> exists p :: p in Partition(r, es) && SegmentOf(ss[k], p.0)
  {
    var gs := Merge(r, es);
    var ss := Finalized(gs);
    MergeGroupsAreBlocks(r, es);
    forall k | 0 <= k < |ss|
      ensures exists p :: p in Partition(r, es) && SegmentOf(ss[k], p.0)
    {
      assert gs[k] in gs;
      var p :| p in Partition(r, es) && |p.0| > 0 && gs[k] == Summary(p.0);
      assert ss[k] == Finalize(Summary(p.0));
    }
  }
}
