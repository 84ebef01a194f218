/** Naming the clips of the merged segments and the manifest records written for
    them (`split_audio_ffmpeg` and the output loop of `main` in the build scripts). */
module Clips {
  import opened Strings
  import opened Clock
  import opened Merge

  const ClipPrefix: string := "clip_"

  /** `f"clip_{idx:03d}.{ext}"` */
  function ClipName(idx: nat, ext: string): string {
    ClipPrefix + ZeroPad(idx, 3) + "." + ext
  }

  /** The clip number can be read back from its name: the digits between the
      prefix and the first dot. */
  lemma ClipNameReads(idx: nat, ext: string)
    ensures var name := ClipName(idx, ext);
      && |name| > |ClipPrefix| && name[..|ClipPrefix|] == ClipPrefix
      && '.' in name[|ClipPrefix|..]
      && var digits := name[|ClipPrefix|..][..IndexOf(name[|ClipPrefix|..], '.')];
      IsNumeral(digits) && ParseNat(digits) == idx
  {
    var d := ZeroPad(idx, 3);
    ZeroPadRoundTrip(idx, 3);
    var name := ClipName(idx, ext);
    assert name == ClipPrefix + (d + ['.'] + ext);
    var rest := name[|ClipPrefix|..];
    assert rest == d + ['.'] + ext;
    assert '.' !in d by {
      forall k | 0 <= k < |d| ensures d[k] != '.' {
        assert IsDigit(d[k]);
      }
    }
    IndexOfConcat(d, '.', ext);
    assert rest[..|d|] == d;
  }

  /** Distinct indices give distinct clip names, so no clip overwrites another. */
  lemma ClipNameInjective(i: nat, j: nat, ext: string)
    requires ClipName(i, ext) == ClipName(j, ext)
    ensures i == j
  {
    ClipNameReads(i, ext);
    ClipNameReads(j, ext);
  }

  /** A segment with the clip file it was cut into (`seg['audio_file']`). */
  datatype Clip = Clip(seg: Segment, audioFile: string)

  /** The naming loop of `split_audio_ffmpeg`: clip `idx` of the list is named
      after its position; every segment keeps its times and text. */
  method NameClips(segments: seq<Segment>, ext: string) returns (clips: seq<Clip>)
    ensures |clips| == |segments|
    ensures forall i :: 0 <= i < |segments| ==> clips[i].seg == segments[i]
    ensures forall i :: 0 <= i < |segments| ==> clips[i].audioFile == ClipName(i, ext)
    ensures forall i, j :: 0 <= i < |clips| && 0 <= j < |clips| && clips[i].audioFile == clips[j].audioFile ==> i == j
  {
    clips := [];
    for idx := 0 to |segments|
      invariant |clips| == idx
      invariant forall i :: 0 <= i < idx ==> clips[i] == Clip(segments[i], ClipName(i, ext))
    {
      var clipFilename := ClipName(idx, ext);
      clips := clips + [Clip(segments[idx], clipFilename)];
    }
    forall i, j | 0 <= i < |clips| && 0 <= j < |clips| && clips[i].audioFile == clips[j].audioFile
      ensures i == j
    {
      ClipNameInjective(i, j, ext);
    }
  }

  /** One JSON record of the manifest. */
  datatype Record = Record(start: string, end: string, text: string, audioFile: string)

  /** `{'start': seconds_to_time(start), 'end': seconds_to_time(int(end)), ...}` */
  function ManifestRecord(c: Clip): Record {
    Record(SecondsToTime(c.seg.start), SecondsToTime(Trunc(c.seg.end) as real), c.seg.text, c.audioFile)
  }

  /** The output loop of `main`: one record per clip, in order. */
  method BuildManifest(clips: seq<Clip>) returns (output: seq<Record>)
    ensures |output| == |clips|
    ensures forall i :: 0 <= i < |clips| ==> output[i] == ManifestRecord(clips[i])
  {
    output := [];
    for i := 0 to |clips|
      invariant |output| == i
      invariant forall k :: 0 <= k < i ==> output[k] == ManifestRecord(clips[k])
    {
      output := output + [ManifestRecord(clips[i])];
    }
  }

  /** A record's times read back (by `time_to_seconds`) as the whole seconds of
      the segment's start and end: truncating the end first changes nothing. The
      text and clip file are carried over unchanged. */
  lemma RecordReadsBack(c: Clip)
    requires c.seg.start >= 0.0 && c.seg.end >= 0.0
    ensures var r := ManifestRecord(c);
      && TimeToSeconds(r.start) == Some(Trunc(c.seg.start))
      && TimeToSeconds(r.end) == Some(Trunc(c.seg.end))
      && r.text == c.seg.text && r.audioFile == c.audioFile
  {
    SecondsToTimeRoundTrip(c.seg.start);
    var n := Trunc(c.seg.end);
    assert Trunc(n as real) == n;
    SecondsToTimeRoundTrip(n as real);
  }
}
