/** The audio endpoint search of the build scripts: `find_silence_after` (the first
    run of quiet frames after a segment's end), `find_silence_before` (the last
    loud frame preceded by quiet frames, before a segment's start, in
    build_evangelion.py only) and `adjust_endpoints_with_audio`, which rewrites the
    segment list in place. The RMS energy of the audio is an input: the model
    only scans the frames, clips the search window and applies the clamps and
    fallbacks. */
module Endpoints {
  import opened Strings
  import opened Clock
  import opened Merge

  /** The loaded audio: its sample rate, its number of samples, and the RMS
      frames (25 ms frames, 10 ms hop) of the samples in [lo, hi). */
  datatype Audio = Audio(sr: int, length: nat, rms: (int, int) -> seq<real>)

  /** A hop of `int(0.010 * sr)` samples must be at least one sample. */
  predicate ValidAudio(a: Audio) {
    a.sr >= 100
  }

  function MinInt(x: int, y: int): int {
    if x <= y then x else y
  }

  function MaxReal(x: real, y: real): real {
    if x >= y then x else y
  }

  /** `int(t * sr)` */
  function SampleIndex(t: real, sr: int): int {
    Trunc(t * sr as real)
  }

  /** `hop_length = int(0.010 * sr)` */
  function Hop(sr: int): (h: int)
    requires sr >= 100
    ensures h >= 1
  {
    Trunc(0.010 * sr as real)
  }

  /** `min_silence_frames = int(MIN_SILENCE_DURATION * sr / hop_length)` */
  function MinFrames(minSilence: real, sr: int): nat
    requires sr >= 100 && minSilence >= 0.0
  {
    Trunc(minSilence * sr as real / Hop(sr) as real)
  }

  /** Where Python's slice `audio[i:]` or `audio[:i]` cuts a list of `n` samples:
      a negative index counts from the end, and the bound is clipped to [0, n]. */
  function SliceBound(i: int, n: nat): (b: nat)
    ensures b <= n
    ensures 0 <= i <= n ==> b == i
  {
    if i < 0 then (if i + n < 0 then 0 else i + n) else if i > n then n else i
  }

  /** `len(audio[i:j])` */
  function SliceLength(i: int, j: int, n: nat): nat {
    var lo, hi := SliceBound(i, n), SliceBound(j, n);
    if lo <= hi then hi - lo else 0
  }

  // ---- normalisation --------------------------------------------------------------

  /** `rms.max()` (0 on no frames). */
  function SeqMax(s: seq<real>): (m: real)
    ensures forall k :: 0 <= k < |s| ==> s[k] <= m
    ensures |s| > 0 ==> exists k :: 0 <= k < |s| && s[k] == m
  {
    if |s| == 0 then 0.0
    else if |s| == 1 then s[0]
    else
      var m := SeqMax(s[1..]);
      assert forall k :: 1 <= k < |s| ==> s[k] == s[1..][k - 1];
      if s[0] >= m then s[0] else m
  }

  /** The divisor of the normalisation: `global_rms_max` when it is given and
      positive, otherwise the maximum of the window's own frames. A divisor that
      is not positive sends the search to its fallback. */
  function Scale(globalMax: Option<real>, rms: seq<real>): real {
    if globalMax.Some? && globalMax.value > 0.0 then globalMax.value else SeqMax(rms)
  }

  /** `rms / d` */
  function Normalized(rms: seq<real>, d: real): (r: seq<real>)
    requires d > 0.0
    ensures |r| == |rms| && forall k :: 0 <= k < |rms| ==> r[k] == rms[k] / d
  {
    seq(|rms|, k requires 0 <= k < |rms| => rms[k] / d)
  }

  lemma DivAtMostOne(x: real, d: real)
    requires d > 0.0 && x <= d
    ensures x / d <= 1.0
  {
    assert x / d * d == x;
  }

  lemma DivSelf(d: real)
    requires d > 0.0
    ensures d / d == 1.0
  {
  }

  /** Under the window's own maximum, every frame has energy at most 1 and the
      loudest one exactly 1. */
  lemma NormalizedPeak(rms: seq<real>)
    requires SeqMax(rms) > 0.0
    ensures var r := Normalized(rms, SeqMax(rms));
      (forall k :: 0 <= k < |r| ==> r[k] <= 1.0) && exists k :: 0 <= k < |r| && r[k] == 1.0
  {
    var m := SeqMax(rms);
    var r := Normalized(rms, m);
    forall k | 0 <= k < |r| ensures r[k] <= 1.0 {
      DivAtMostOne(rms[k], m);
    }
    var k :| 0 <= k < |rms| && rms[k] == m;
    DivSelf(m);
    assert r[k] == m / m;
  }

  // ---- the frame scans --------------------------------------------------------------

  /** `np.all(rms_norm[i:i+m] < threshold)` */
  predicate QuietRun(frames: seq<real>, threshold: real, i: int, m: nat)
    requires 0 <= i && i + m <= |frames|
  {
    forall k :: i <= k < i + m ==> frames[k] < threshold
  }

  /** The first `i` from `from` on with `i < len(frames) - m` that starts a quiet run. */
  function FirstQuietFrom(frames: seq<real>, threshold: real, m: nat, from: nat): (r: Option<nat>)
    ensures r.Some? ==> from <= r.value && r.value + m < |frames| && QuietRun(frames, threshold, r.value, m)
    ensures r.Some? ==> forall j :: from <= j < r.value ==> !QuietRun(frames, threshold, j, m)
    ensures r.None? ==> forall j :: from <= j && j + m < |frames| ==> !QuietRun(frames, threshold, j, m)
    decreases |frames| - from
  {
    if from + m >= |frames| then None
    else if QuietRun(frames, threshold, from, m) then Some(from)
    else FirstQuietFrom(frames, threshold, m, from + 1)
  }

  /** The frame `find_silence_after` stops at: the smallest `i` in
      `range(len(frames) - m)` whose `m` frames from `i` on are all quiet. */
  function FirstQuiet(frames: seq<real>, threshold: real, m: nat): Option<nat> {
    FirstQuietFrom(frames, threshold, m, 0)
  }

  /** A loud frame `i >= m` whose `m` predecessors are all quiet. */
  predicate Onset(frames: seq<real>, threshold: real, i: int, m: nat) {
    m <= i < |frames| && frames[i] >= threshold && QuietRun(frames, threshold, i - m, m)
  }

  /** The largest onset below `below`. */
  function LastOnsetBelow(frames: seq<real>, threshold: real, m: nat, below: int): (r: Option<nat>)
    requires below <= |frames|
    ensures r.Some? ==> m <= r.value < below && Onset(frames, threshold, r.value, m)
    ensures r.Some? ==> forall j :: r.value < j < below ==> !Onset(frames, threshold, j, m)
    ensures r.None? ==> forall j :: m <= j < below ==> !Onset(frames, threshold, j, m)
    decreases below
  {
    if below <= m then None
    else if Onset(frames, threshold, below - 1, m) then Some(below - 1)
    else LastOnsetBelow(frames, threshold, m, below - 1)
  }

  /** The frame `find_silence_before` stops at: scanning `range(len(frames) - 1,
      m - 1, -1)`, the last loud frame with a quiet run of `m` frames before it. */
  function LastOnset(frames: seq<real>, threshold: real, m: nat): Option<nat> {
    LastOnsetBelow(frames, threshold, m, |frames|)
  }

  // ---- find_silence_after -------------------------------------------------------------

  /** The constants of one script's `find_silence_after`. */
  datatype AfterConfig = AfterConfig(
    offset: real,          // the search starts at start_time + offset (MIN_EXTENSION, or 0)
    window: real,          // SEARCH_WINDOW, passed as max_search_time
    threshold: real,       // SILENCE_THRESHOLD
    minSilence: real,      // MIN_SILENCE_DURATION
    endBuffer: real,       // added after the start of the silence (END_BUFFER, or 0.03)
    clamp: Option<real>,   // a result floor of start_time + MIN_EXTENSION (build_evangelion.py)
    fallback: real,        // FALLBACK_BUFFER
    fallbackToNext: bool)  // a next segment makes the fallback next_start - 0.05 (build_evangelion.py)

  /** The result when no silence is found. */
  function AfterFallback(c: AfterConfig, startTime: real, next: Option<real>): real {
    if c.fallbackToNext && next.Some? then next.value - 0.05 else startTime + c.fallback
  }

  /** The result for the quiet run at frame `i` of a search started at `searchStart`. */
  function AfterFound(c: AfterConfig, sr: int, startTime: real, searchStart: real, i: nat): real
    requires sr >= 100
  {
    var result := searchStart + ((i * Hop(sr)) as real / sr as real) + c.endBuffer;
    if c.clamp.Some? then MaxReal(result, startTime + c.clamp.value) else result
  }

  /** The sample window `find_silence_after` searches: from the search start, at
      most `window` seconds, never past `next_start - 0.05` and the audio's end. */
  function AfterWindow(c: AfterConfig, a: Audio, startTime: real, next: Option<real>): (int, int) {
    var searchStart := startTime + c.offset;
    var endSample := SampleIndex(searchStart + c.window, a.sr);
    var endSample := if next.Some? then MinInt(endSample, SampleIndex(next.value - 0.05, a.sr)) else endSample;
    (SampleIndex(searchStart, a.sr), MinInt(endSample, a.length))
  }

  /** What `find_silence_after` returns. */
  function SilenceAfter(c: AfterConfig, a: Audio, startTime: real, next: Option<real>, globalMax: Option<real>): real
    requires ValidAudio(a) && c.minSilence >= 0.0
  {
    var (lo, hi) := AfterWindow(c, a, startTime, next);
    if lo >= hi || SliceLength(lo, hi, a.length) < SampleIndex(c.minSilence, a.sr) then
      AfterFallback(c, startTime, next)
    else
      var rms := a.rms(SliceBound(lo, a.length), SliceBound(hi, a.length));
      var d := Scale(globalMax, rms);
      if d <= 0.0 then AfterFallback(c, startTime, next)
      else
        QuietResult(c, a.sr, startTime, next, FirstQuiet(Normalized(rms, d), c.threshold, MinFrames(c.minSilence, a.sr)))
  }

  /** The result of the scan: past the start of the quiet run found, or the
      fallback when there is none. */
  function QuietResult(c: AfterConfig, sr: int, startTime: real, next: Option<real>, found: Option<nat>): real
    requires sr >= 100
  {
    match found
    case None => AfterFallback(c, startTime, next)
    case Some(i) => AfterFound(c, sr, startTime, startTime + c.offset, i)
  }

  /** Past the early exits, `find_silence_after` returns what the scan of the
      normalised frames gives. */
  lemma SilenceAfterScan(c: AfterConfig, a: Audio, startTime: real, next: Option<real>, globalMax: Option<real>,
                         lo: int, hi: int, d: real)
    requires ValidAudio(a) && c.minSilence >= 0.0
    requires (lo, hi) == AfterWindow(c, a, startTime, next)
    requires !(lo >= hi || SliceLength(lo, hi, a.length) < SampleIndex(c.minSilence, a.sr))
    requires d == Scale(globalMax, a.rms(SliceBound(lo, a.length), SliceBound(hi, a.length))) && d > 0.0
    ensures SilenceAfter(c, a, startTime, next, globalMax) ==
      QuietResult(c, a.sr, startTime, next,
                  FirstQuiet(Normalized(a.rms(SliceBound(lo, a.length), SliceBound(hi, a.length)), d),
                             c.threshold, MinFrames(c.minSilence, a.sr)))
  {
  }

  /** `find_silence_after`: clips the window, normalises its frames and scans them
      for the first quiet run, returning early when it finds one. */
  method FindSilenceAfter(c: AfterConfig, a: Audio, startTime: real, next: Option<real>, globalMax: Option<real>)
    returns (t: real)
    requires ValidAudio(a) && c.minSilence >= 0.0
    ensures t == SilenceAfter(c, a, startTime, next, globalMax)
  {
    var searchStart := startTime + c.offset;
    var startSample := SampleIndex(searchStart, a.sr);
    var endSample := SampleIndex(searchStart + c.window, a.sr);
    if next.Some? {
      var maxEndSample := SampleIndex(next.value - 0.05, a.sr);
      endSample := MinInt(endSample, maxEndSample);
    }
    endSample := MinInt(endSample, a.length);
    var fallbackEnd := AfterFallback(c, startTime, next);
    if startSample >= endSample {
      return fallbackEnd;
    }
    if SliceLength(startSample, endSample, a.length) < SampleIndex(c.minSilence, a.sr) {
      return fallbackEnd;
    }
    var rms := a.rms(SliceBound(startSample, a.length), SliceBound(endSample, a.length));
    var d := Scale(globalMax, rms);
    if d <= 0.0 {
      return fallbackEnd;
    }
    var rmsNorm := Normalized(rms, d);
    var minSilenceFrames := MinFrames(c.minSilence, a.sr);
    SilenceAfterScan(c, a, startTime, next, globalMax, startSample, endSample, d);
    var i := 0;
    while i + minSilenceFrames < |rmsNorm|
      invariant 0 <= i
      invariant FirstQuietFrom(rmsNorm, c.threshold, minSilenceFrames, i) ==
                FirstQuiet(rmsNorm, c.threshold, minSilenceFrames)
      decreases |rmsNorm| - i
    {
      if QuietRun(rmsNorm, c.threshold, i, minSilenceFrames) {
        return AfterFound(c, a.sr, startTime, searchStart, i);
      }
      i := i + 1;
    }
    return fallbackEnd;
  }

  /** Every result is the fallback, or lies at least `offset + endBuffer` past the
      start time and, under a clamp, at least the clamp past it. */
  lemma SilenceAfterBounds(c: AfterConfig, a: Audio, startTime: real, next: Option<real>, globalMax: Option<real>)
    requires ValidAudio(a) && c.minSilence >= 0.0
    ensures var t := SilenceAfter(c, a, startTime, next, globalMax);
      || t == AfterFallback(c, startTime, next)
      || (&& t >= startTime + c.offset + c.endBuffer
          && (c.clamp.Some? ==> t >= startTime + c.clamp.value))
  {
    var (lo, hi) := AfterWindow(c, a, startTime, next);
    if !(lo >= hi || SliceLength(lo, hi, a.length) < SampleIndex(c.minSilence, a.sr)) {
      var rms := a.rms(SliceBound(lo, a.length), SliceBound(hi, a.length));
      var d := Scale(globalMax, rms);
      if d > 0.0 {
        var found := FirstQuiet(Normalized(rms, d), c.threshold, MinFrames(c.minSilence, a.sr));
        if found.Some? {
          var i := found.value;
          var h := Hop(a.sr);
          assert (i * h) as real >= 0.0;
          assert (i * h) as real / a.sr as real >= 0.0;
        }
      }
    }
  }

  /** A window shorter than the minimal silence, or empty, gives the fallback. */
  lemma SilenceAfterShortWindow(c: AfterConfig, a: Audio, startTime: real, next: Option<real>, globalMax: Option<real>)
    requires ValidAudio(a) && c.minSilence >= 0.0
    requires var (lo, hi) := AfterWindow(c, a, startTime, next);
      lo >= hi || SliceLength(lo, hi, a.length) < SampleIndex(c.minSilence, a.sr)
    ensures SilenceAfter(c, a, startTime, next, globalMax) == AfterFallback(c, startTime, next)
  {
  }

  // ---- find_silence_before --------------------------------------------------------------

  /** The constants of build_evangelion.py's `find_silence_before`. */
  datatype BeforeConfig = BeforeConfig(
    window: real,       // START_SEARCH_WINDOW
    threshold: real,    // SILENCE_THRESHOLD
    minSilence: real,   // MIN_SILENCE_DURATION
    startBuffer: real,  // START_BUFFER, taken off the onset
    backoff: real)      // the fallback start_time - 0.15

  /** `earliest_time`: 0, or 50 ms after the previous segment's end. */
  function Earliest(prevEnd: Option<real>): real {
    if prevEnd.Some? then prevEnd.value + 0.05 else 0.0
  }

  /** The start of the search window: at most `window` seconds before the start,
      and not before `earliest_time`. */
  function BeforeSearchStart(c: BeforeConfig, startTime: real, prevEnd: Option<real>): real {
    MaxReal(Earliest(prevEnd), startTime - c.window)
  }

  /** The result for the onset at frame `i`, `START_BUFFER` before it. */
  function BeforeFound(c: BeforeConfig, sr: int, searchStart: real, earliest: real, i: nat): real
    requires sr >= 100
  {
    MaxReal(earliest, searchStart + ((i * Hop(sr)) as real / sr as real) - c.startBuffer)
  }

  /** What `find_silence_before` returns. */
  function SilenceBefore(c: BeforeConfig, a: Audio, startTime: real, prevEnd: Option<real>, globalMax: Option<real>): real
    requires ValidAudio(a) && c.minSilence >= 0.0
  {
    var searchStart := BeforeSearchStart(c, startTime, prevEnd);
    var lo, hi := SampleIndex(searchStart, a.sr), SampleIndex(startTime, a.sr);
    if lo >= hi || lo < 0 || SliceLength(lo, hi, a.length) < SampleIndex(c.minSilence, a.sr) then
      startTime
    else
      var rms := a.rms(SliceBound(lo, a.length), SliceBound(hi, a.length));
      var d := Scale(globalMax, rms);
      if d <= 0.0 then startTime
      else
        OnsetResult(c, a.sr, startTime, searchStart, Earliest(prevEnd),
                    LastOnset(Normalized(rms, d), c.threshold, MinFrames(c.minSilence, a.sr)))
  }

  /** The result of the scan: `START_BUFFER` before the onset found, or the
      fallback `start_time - 0.15`, never before `earliest_time`. */
  function OnsetResult(c: BeforeConfig, sr: int, startTime: real, searchStart: real, earliest: real, found: Option<nat>): real
    requires sr >= 100
  {
    match found
    case None => MaxReal(earliest, startTime - c.backoff)
    case Some(i) => BeforeFound(c, sr, searchStart, earliest, i)
  }

  /** Past the early exits, `find_silence_before` returns what the scan of the
      normalised frames gives. */
  lemma SilenceBeforeScan(c: BeforeConfig, a: Audio, startTime: real, prevEnd: Option<real>, globalMax: Option<real>,
                          lo: int, hi: int, d: real)
    requires ValidAudio(a) && c.minSilence >= 0.0
    requires lo == SampleIndex(BeforeSearchStart(c, startTime, prevEnd), a.sr) && hi == SampleIndex(startTime, a.sr)
    requires !(lo >= hi || lo < 0 || SliceLength(lo, hi, a.length) < SampleIndex(c.minSilence, a.sr))
    requires d == Scale(globalMax, a.rms(SliceBound(lo, a.length), SliceBound(hi, a.length))) && d > 0.0
    ensures SilenceBefore(c, a, startTime, prevEnd, globalMax) ==
      OnsetResult(c, a.sr, startTime, BeforeSearchStart(c, startTime, prevEnd), Earliest(prevEnd),
                  LastOnset(Normalized(a.rms(SliceBound(lo, a.length), SliceBound(hi, a.length)), d),
                            c.threshold, MinFrames(c.minSilence, a.sr)))
  {
  }

  /** `find_silence_before`: clips the window to at most `window` seconds before
      the start and not before `earliest_time`, then scans the frames from the
      last one down for an onset. */
  method FindSilenceBefore(c: BeforeConfig, a: Audio, startTime: real, prevEnd: Option<real>, globalMax: Option<real>)
    returns (t: real)
    requires ValidAudio(a) && c.minSilence >= 0.0
    ensures t == SilenceBefore(c, a, startTime, prevEnd, globalMax)
  {
    var earliestTime := 0.0;
    if prevEnd.Some? {
      earliestTime := prevEnd.value + 0.05;
    }
    assert earliestTime == Earliest(prevEnd);
    var searchStart := MaxReal(earliestTime, startTime - c.window);
    assert searchStart == BeforeSearchStart(c, startTime, prevEnd);
    var searchEnd := startTime;
    var startSample := SampleIndex(searchStart, a.sr);
    var endSample := SampleIndex(searchEnd, a.sr);
    if startSample >= endSample || startSample < 0 {
      return startTime;
    }
    if SliceLength(startSample, endSample, a.length) < SampleIndex(c.minSilence, a.sr) {
      return startTime;
    }
    var rms := a.rms(SliceBound(startSample, a.length), SliceBound(endSample, a.length));
    var d := Scale(globalMax, rms);
    if d <= 0.0 {
      return startTime;
    }
    var rmsNorm := Normalized(rms, d);
    var minSilenceFrames: int := MinFrames(c.minSilence, a.sr);
    SilenceBeforeScan(c, a, startTime, prevEnd, globalMax, startSample, endSample, d);
    var i := |rmsNorm| - 1;
    while i > minSilenceFrames - 1
      invariant i < |rmsNorm|
      invariant LastOnsetBelow(rmsNorm, c.threshold, minSilenceFrames, i + 1) ==
                LastOnset(rmsNorm, c.threshold, minSilenceFrames)
      decreases i
    {
      if i >= minSilenceFrames {
        var currentLoud := rmsNorm[i] >= c.threshold;
        var silenceBefore := QuietRun(rmsNorm, c.threshold, i - minSilenceFrames, minSilenceFrames);
        if currentLoud && silenceBefore {
          return BeforeFound(c, a.sr, searchStart, earliestTime, i);
        }
      }
      i := i - 1;
    }
    return MaxReal(earliestTime, startTime - c.backoff);
  }

  /** An empty window, a window starting before the audio, or one shorter than the
      minimal silence keeps the start. */
  lemma SilenceBeforeShortWindow(c: BeforeConfig, a: Audio, startTime: real, prevEnd: Option<real>, globalMax: Option<real>)
    requires ValidAudio(a) && c.minSilence >= 0.0
    requires var lo, hi := SampleIndex(BeforeSearchStart(c, startTime, prevEnd), a.sr), SampleIndex(startTime, a.sr);
      lo >= hi || lo < 0 || SliceLength(lo, hi, a.length) < SampleIndex(c.minSilence, a.sr)
    ensures SilenceBefore(c, a, startTime, prevEnd, globalMax) == startTime
  {
  }

  /** A silent window keeps the start: no positive `global_rms_max` is given and
      the window's loudest frame is 0. */
  lemma SilenceBeforeSilentWindow(c: BeforeConfig, a: Audio, startTime: real, prevEnd: Option<real>, globalMax: Option<real>)
    requires ValidAudio(a) && c.minSilence >= 0.0
    requires globalMax.None? || globalMax.value <= 0.0
    requires var lo, hi := SampleIndex(BeforeSearchStart(c, startTime, prevEnd), a.sr), SampleIndex(startTime, a.sr);
      && 0 <= lo < hi && SliceLength(lo, hi, a.length) >= SampleIndex(c.minSilence, a.sr)
      && SeqMax(a.rms(SliceBound(lo, a.length), SliceBound(hi, a.length))) <= 0.0
    ensures SilenceBefore(c, a, startTime, prevEnd, globalMax) == startTime
  {
  }

  /** Every result is the start itself or at least `earliest_time`, so a refined
      start never reaches back into the previous segment's end plus 50 ms. */
  lemma SilenceBeforeBounds(c: BeforeConfig, a: Audio, startTime: real, prevEnd: Option<real>, globalMax: Option<real>)
    requires ValidAudio(a) && c.minSilence >= 0.0
    ensures var t := SilenceBefore(c, a, startTime, prevEnd, globalMax);
      t == startTime || t >= Earliest(prevEnd)
  {
  }

  // ---- adjust_endpoints_with_audio ----------------------------------------------------------

  /** One script's endpoint refinement: the end search, the start search when the
      script has one, and whether the global RMS maximum is passed down. */
  datatype EndpointConfig = EndpointConfig(after: AfterConfig, before: Option<BeforeConfig>, globalNorm: bool)

  predicate ValidConfig(c: EndpointConfig) {
    c.after.minSilence >= 0.0 && (c.before.Some? ==> c.before.value.minSilence >= 0.0)
  }

  /** `global_rms_max`, computed once over the whole audio when the script passes it. */
  function GlobalMax(c: EndpointConfig, a: Audio): Option<real> {
    if c.globalNorm then Some(SeqMax(a.rms(0, a.length))) else None
  }

  /** The start time of segment `i` after the loop: refined when the script
      searches before starts, from the already refined end of the previous segment. */
  function NewStart(c: EndpointConfig, a: Audio, seg: Segment, prevEnd: Option<real>): real
    requires ValidAudio(a) && ValidConfig(c)
  {
    if c.before.Some? then SilenceBefore(c.before.value, a, seg.start, prevEnd, GlobalMax(c, a)) else seg.start
  }

  /** The per-segment step of the loop: the segment, the previous segment's end
      and the next segment's start as the loop reads them, to the segment after. */
  type Step = (Segment, Option<real>, Option<real>) -> Segment

  /** The first `n` segments after the loop: segment `i` reads the refined end of
      segment `i - 1` and the original start of segment `i + 1`. */
  function AdjustPrefix(step: Step, s: seq<Segment>, n: nat): (r: seq<Segment>)
    requires n <= |s|
    ensures |r| == n
  {
    if n == 0 then []
    else
      var p := AdjustPrefix(step, s, n - 1);
      var i := n - 1;
      var prevEnd := if i > 0 then Some(p[i - 1].end) else None;
      var next := if i + 1 < |s| then Some(s[i + 1].start) else None;
      p + [step(s[i], prevEnd, next)]
  }

  /** One segment after its pass of the loop. */
  function Refine(c: EndpointConfig, a: Audio, seg: Segment, prevEnd: Option<real>, next: Option<real>): Segment
    requires ValidAudio(a) && ValidConfig(c)
  {
    Segment(NewStart(c, a, seg, prevEnd), SilenceAfter(c.after, a, seg.end, next, GlobalMax(c, a)), seg.text)
  }

  function Refiner(c: EndpointConfig, a: Audio): Step
    requires ValidAudio(a) && ValidConfig(c)
  {
    (seg, prevEnd, next) => Refine(c, a, seg, prevEnd, next)
  }

  function Adjusted(c: EndpointConfig, a: Audio, s: seq<Segment>): seq<Segment>
    requires ValidAudio(a) && ValidConfig(c)
  {
    AdjustPrefix(Refiner(c, a), s, |s|)
  }

  /** One step of the loop: the prefix grows by the segment refined from the
      previous refined end and the next original start. */
  lemma AdjustStep(step: Step, s: seq<Segment>, i: nat, prevEnd: Option<real>, next: Option<real>, r: Segment)
    requires i < |s|
    requires prevEnd == if i > 0 then Some(AdjustPrefix(step, s, i)[i - 1].end) else None
    requires next == if i + 1 < |s| then Some(s[i + 1].start) else None
    requires r == step(s[i], prevEnd, next)
    ensures forall k :: 0 <= k < i ==> AdjustPrefix(step, s, i + 1)[k] == AdjustPrefix(step, s, i)[k]
    ensures AdjustPrefix(step, s, i + 1)[i] == r
  {
  }

  /** The body of the loop for segment `i`: the start search (if any) writes
      `start_sec` from the previous segment's end, then the end search writes
      `end_sec` bounded by the next segment's start. */
  method RefineSegment(c: EndpointConfig, a: Audio, segments: array<Segment>, i: nat, globalMax: Option<real>)
    requires ValidAudio(a) && ValidConfig(c) && i < segments.Length && globalMax == GlobalMax(c, a)
    modifies segments
    ensures segments[i] == Refine(c, a, old(segments[i]),
                                  if i > 0 then Some(old(segments[i - 1]).end) else None,
                                  if i + 1 < segments.Length then Some(old(segments[i + 1]).start) else None)
    ensures forall k :: 0 <= k < segments.Length && k != i ==> segments[k] == old(segments[k])
  {
    var seg := segments[i];
    var prevEnd := None;
    if i > 0 {
      prevEnd := Some(segments[i - 1].end);
    }
    if c.before.Some? {
      var newStart := FindSilenceBefore(c.before.value, a, seg.start, prevEnd, globalMax);
      segments[i] := seg.(start := newStart);
    }
    var transcriptEnd := segments[i].end;
    var nextStart := None;
    if i < segments.Length - 1 {
      nextStart := Some(segments[i + 1].start);
    }
    var newEnd := FindSilenceAfter(c.after, a, transcriptEnd, nextStart, globalMax);
    segments[i] := segments[i].(end := newEnd);
  }

  /** `adjust_endpoints_with_audio`: the segments refined one by one in index
      order. */
  method AdjustEndpoints(c: EndpointConfig, a: Audio, segments: array<Segment>)
    requires ValidAudio(a) && ValidConfig(c)
    modifies segments
    ensures segments[..] == Adjusted(c, a, old(segments[..]))
  {
    ghost var s := segments[..];
    var globalMax := None;
    if c.globalNorm {
      globalMax := Some(SeqMax(a.rms(0, a.length)));
    }
    assert globalMax == GlobalMax(c, a);
    for i := 0 to segments.Length
      invariant forall k :: 0 <= k < i ==> segments[k] == AdjustPrefix(Refiner(c, a), s, i)[k]
      invariant forall k :: i <= k < segments.Length ==> segments[k] == s[k]
    {
      ghost var prevEnd := if i > 0 then Some(segments[i - 1].end) else None;
      ghost var next := if i + 1 < segments.Length then Some(segments[i + 1].start) else None;
      RefineSegment(c, a, segments, i, globalMax);
      assert segments[i] == Refiner(c, a)(s[i], prevEnd, next);
      AdjustStep(Refiner(c, a), s, i, prevEnd, next, segments[i]);
    }
    assert segments[..] == Adjusted(c, a, s);
  }

  /** A segment after the loop keeps its place once computed: the prefix of `n`
      segments extends that of `k` segments for every `k <= n`. */
  lemma {:induction false} AdjustPrefixStable(step: Step, s: seq<Segment>, k: nat, n: nat)
    requires k <= n <= |s|
    ensures AdjustPrefix(step, s, n)[..k] == AdjustPrefix(step, s, k)
    decreases n
  {
    if k < n {
      AdjustPrefixStable(step, s, k, n - 1);
      var q := AdjustPrefix(step, s, n);
      assert q[..n - 1] == AdjustPrefix(step, s, n - 1);
      assert q[..k] == q[..n - 1][..k];
    }
  }

  /** Segment `i` of the finished list is the step applied to segment `i`, the
      finished end of segment `i - 1` and the original start of segment `i + 1`. */
  lemma AdjustPrefixAt(step: Step, s: seq<Segment>, i: nat)
    requires i < |s|
    ensures var r := AdjustPrefix(step, s, |s|);
      r[i] == step(s[i], if i > 0 then Some(r[i - 1].end) else None, if i + 1 < |s| then Some(s[i + 1].start) else None)
  {
    var r := AdjustPrefix(step, s, |s|);
    AdjustPrefixStable(step, s, i + 1, |s|);
    var q := AdjustPrefix(step, s, i + 1);
    assert r[i] == r[..i + 1][i] == q[i];
    if i > 0 {
      AdjustPrefixStable(step, s, i, |s|);
      AdjustPrefixStable(step, s, i, i + 1);
      assert r[i - 1] == r[..i][i - 1] == AdjustPrefix(step, s, i)[i - 1];
      assert q[i - 1] == q[..i][i - 1] == AdjustPrefix(step, s, i)[i - 1];
    }
  }

  /** What the loop leaves in each segment: the text untouched; the end searched
      from the segment's own end with the next segment's original start as the
      bound; the start searched from its own start, bounded by the previous
      segment's refined end, or unchanged in a script without a start search. */
  lemma AdjustedSegment(c: EndpointConfig, a: Audio, s: seq<Segment>, i: nat)
    requires ValidAudio(a) && ValidConfig(c) && i < |s|
    ensures var r := Adjusted(c, a, s);
      && |r| == |s|
      && r[i].text == s[i].text
      && r[i].end == SilenceAfter(c.after, a, s[i].end, if i + 1 < |s| then Some(s[i + 1].start) else None, GlobalMax(c, a))
      && r[i].start == NewStart(c, a, s[i], if i > 0 then Some(r[i - 1].end) else None)
      && (c.before.None? ==> r[i].start == s[i].start)
  {
    AdjustPrefixAt(Refiner(c, a), s, i);
  }
}
