/** Clock-time conversions shared by the scripts: `time_to_seconds` and
    `parse_timestamp` ("M:S" or "H:M:S" to seconds), the two-part variant of the
    MM:SS scripts, `seconds_to_time` ("MM:SS") and `split_nier.py`'s integer
    `seconds_to_ffmpeg` ("HH:MM:SS"). */
module Clock {
  import opened Strings

  /** Python's `int(s)`, restricted to decimal numerals; `None` stands for the
      `ValueError` it raises on anything else. */
  function ParseInt(s: string): (r: Option<int>)
    ensures r.Some? <==> IsNumeral(s)
    ensures r.Some? ==> r.value >= 0
  {
    if IsNumeral(s) then Some(ParseNat(s)) else None
  }

  /** `time_to_seconds` of build_evangelion.py and `parse_timestamp` of
      split_nier.py: "M:S" -> 60M+S, "H:M:S" -> 3600H+60M+S, any other number of
      parts -> 0. */
  function TimeToSeconds(s: string): Option<int> {
    var parts := Split(s, ':');
    if |parts| == 2 then
      match (ParseInt(parts[0]), ParseInt(parts[1]))
      case (Some(m), Some(sec)) => Some(m * 60 + sec)
      case _ => None
    else if |parts| == 3 then
      match (ParseInt(parts[0]), ParseInt(parts[1]), ParseInt(parts[2]))
      case (Some(h), Some(m), Some(sec)) => Some(h * 3600 + m * 60 + sec)
      case _ => None
    else
      Some(0)
  }

  /** `time_to_seconds` of split_nier.py, which tests the three-part case before
      the two-part one. */
  function NierTimeToSeconds(ts: string): Option<int> {
    var parts := Split(ts, ':');
    if |parts| == 3 then
      match (ParseInt(parts[0]), ParseInt(parts[1]), ParseInt(parts[2]))
      case (Some(h), Some(m), Some(sec)) => Some(h * 3600 + m * 60 + sec)
      case _ => None
    else if |parts| == 2 then
      match (ParseInt(parts[0]), ParseInt(parts[1]))
      case (Some(m), Some(sec)) => Some(m * 60 + sec)
      case _ => None
    else
      Some(0)
  }

  /** The two spellings of the conversion agree on every input, and each one
      gives exactly the three cases of the source. */
  lemma TimestampAgreement(ts: string)
    ensures NierTimeToSeconds(ts) == TimeToSeconds(ts)
    ensures var parts := Split(ts, ':');
      && (|parts| == 2 && IsNumeral(parts[0]) && IsNumeral(parts[1]) ==>
            TimeToSeconds(ts) == Some(ParseNat(parts[0]) * 60 + ParseNat(parts[1])))
      && (|parts| == 3 && IsNumeral(parts[0]) && IsNumeral(parts[1]) && IsNumeral(parts[2]) ==>
            TimeToSeconds(ts) == Some(ParseNat(parts[0]) * 3600 + ParseNat(parts[1]) * 60 + ParseNat(parts[2])))
      && (|parts| != 2 && |parts| != 3 ==> TimeToSeconds(ts) == Some(0))
  {
  }

  /** `time_to_seconds` of build_srs.py, build_charlottes_web.py and
      preview_segments.py: `int(parts[0]) * 60 + int(parts[1])` with no check of
      the number of parts (`None` also stands for the `IndexError` on one part). */
  function MinutesSeconds(s: string): Option<int> {
    var parts := Split(s, ':');
    if |parts| < 2 then None
    else
      match (ParseInt(parts[0]), ParseInt(parts[1]))
      case (Some(m), Some(sec)) => Some(m * 60 + sec)
      case _ => None
  }

  /** On the "MM:SS" strings those scripts feed it, the two-part conversion is the
      general one. */
  lemma MinutesSecondsAgrees(s: string)
    requires |Split(s, ':')| == 2
    ensures MinutesSeconds(s) == TimeToSeconds(s)
  {
  }

  /** Reading an "A:B:C" string of three numerals. */
  lemma ThreePart(a: string, b: string, c: string)
    requires IsNumeral(a) && IsNumeral(b) && IsNumeral(c)
    ensures TimeToSeconds(a + ":" + b + ":" + c) == Some(ParseNat(a) * 3600 + ParseNat(b) * 60 + ParseNat(c))
  {
    assert ':' !in a && ':' !in b && ':' !in c;
    assert Join([':'], [b, c]) == b + ":" + c;
    assert Join([':'], [a, b, c]) == a + ":" + (b + ":" + c);
    assert a + ":" + (b + ":" + c) == a + ":" + b + ":" + c;
    SplitJoin([a, b, c], ':');
  }

  /** Python's `int(x)` on a float: truncation toward zero. */
  function Trunc(x: real): (n: int)
    ensures x >= 0.0 ==> n >= 0 && n as real <= x < n as real + 1.0
    ensures x < 0.0 ==> n <= 0 && n as real - 1.0 < x <= n as real
  {
    if x >= 0.0 then x.Floor else -((-x).Floor)
  }

  /** `seconds_to_time`: `int(seconds)` split into minutes and seconds, printed
      `{m:02d}:{s:02d}`. */
  function SecondsToTime(seconds: real): string {
    var n := Trunc(seconds);
    ZeroPad(n / 60, 2) + ":" + ZeroPad(n % 60, 2)
  }

  /** A two-part clock string gives back the number of seconds it was printed from. */
  lemma TwoPartRoundTrip(a: nat, b: nat)
    ensures Split(ZeroPad(a, 2) + ":" + ZeroPad(b, 2), ':') == [ZeroPad(a, 2), ZeroPad(b, 2)]
    ensures TimeToSeconds(ZeroPad(a, 2) + ":" + ZeroPad(b, 2)) == Some(a * 60 + b)
  {
    ZeroPadRoundTrip(a, 2);
    ZeroPadRoundTrip(b, 2);
    var pa, pb := ZeroPad(a, 2), ZeroPad(b, 2);
    assert ':' !in pa && ':' !in pb;
    assert Join([':'], [pa, pb]) == pa + ":" + pb;
    SplitJoin([pa, pb], ':');
  }

  /** For n >= 0, `time_to_seconds(seconds_to_time(n)) == n`; on a real time the
      round trip yields its integer part. */
  lemma SecondsToTimeRoundTrip(t: real)
    requires t >= 0.0
    ensures TimeToSeconds(SecondsToTime(t)) == Some(Trunc(t))
    ensures Split(SecondsToTime(t), ':') == [ZeroPad(Trunc(t) / 60, 2), ZeroPad(Trunc(t) % 60, 2)]
  {
    var n := Trunc(t);
    TwoPartRoundTrip(n / 60, n % 60);
  }

  /** `seconds_to_ffmpeg` of split_nier.py on integer seconds: hours, minutes of
      the hour and seconds of the minute, each `{:02d}`. */
  function SecondsToFfmpeg(s: int): string {
    ZeroPad(s / 3600, 2) + ":" + ZeroPad((s % 3600) / 60, 2) + ":" + ZeroPad(s % 60, 2)
  }

  /** The three fields of `seconds_to_ffmpeg` recompose the input exactly, minutes
      and seconds both in [0, 60). Python's `//` and `%` agree with Dafny's for a
      positive divisor, so this holds for every integer. */
  lemma FfmpegFields(s: int)
    ensures 3600 * (s / 3600) + 60 * ((s % 3600) / 60) + s % 60 == s
    ensures 0 <= (s % 3600) / 60 < 60 && 0 <= s % 60 < 60
  {
    var h, r := s / 3600, s % 3600;
    assert s == 3600 * h + r && 0 <= r < 3600;
    var m, q := r / 60, r % 60;
    assert r == 60 * m + q && 0 <= q < 60;
    assert s == 60 * (60 * h + m) + q;
    assert s % 60 == q;
  }

  /** Reading a `seconds_to_ffmpeg` string back with `time_to_seconds` gives the
      seconds it was printed from. */
  lemma FfmpegRoundTrip(s: nat)
    ensures TimeToSeconds(SecondsToFfmpeg(s)) == Some(s)
  {
    FfmpegFields(s);
    var h, m, r := s / 3600, (s % 3600) / 60, s % 60;
    ZeroPadRoundTrip(h, 2);
    ZeroPadRoundTrip(m, 2);
    ZeroPadRoundTrip(r, 2);
    ThreePart(ZeroPad(h, 2), ZeroPad(m, 2), ZeroPad(r, 2));
  }
}
