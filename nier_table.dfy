/** The chapter table of split_nier.py and what `time_to_seconds` makes of it. */
module NierTable {
  import opened Strings
  import opened Clock
  import opened Transcript
  import opened Chapters

  /** `CHAPTERS`: start time and name of each chapter. */
  const ChapterList: seq<(string, string)> := [
    ("0:00:00", "00_opening"),
    ("0:13:50", "01_黒ノ病"),
    ("0:27:24", "02_白ノ書"),
    ("0:41:50", "03_謎ノ女"),
    ("0:57:13", "04_山ノ兄弟"),
    ("1:17:00", "05_誰が為ノ手紙"),
    ("1:27:42", "06_復讐ノ果て"),
    ("1:43:18", "07_仮面ノ掟"),
    ("1:55:45", "08_迷子ノ王"),
    ("2:08:25", "09_森ノ言葉"),
    ("2:50:54", "10_洋館ノ主"),
    ("3:09:44", "11_マオウ襲来"),
    ("3:41:50", "12_5年後"),
    ("3:48:07", "13_スノウホワイト"),
    ("4:04:40", "14_眠り姫ノ目覚め"),
    ("5:11:33", "15_青イ鳥"),
    ("5:27:15", "16_守るロボット"),
    ("5:49:53", "17_神樹"),
    ("6:06:21", "18_疑いに消える村"),
    ("6:41:57", "19_砂漠ノ狼"),
    ("6:57:31", "20_最後ノ旅立ち"),
    ("7:10:19", "21_最期ノ挨拶"),
    ("7:46:05", "22_Aエンド"),
    ("8:06:42", "23_Bエンド"),
    ("8:11:00", "24_Cエンド"),
    ("8:21:52", "25_Dエンド"),
    ("8:28:15", "26_Eエンド")
  ]

  /** The chapter starts in seconds, as `time_to_seconds` reads them. */
  const ChapterSeconds: seq<int> := [
    0, 830, 1644, 2510, 3433, 4620, 5262, 6198, 6945, 7705, 10254, 11384, 13310,
    13687, 14680, 18693, 19635, 20993, 21981, 24117, 25051, 25819, 27965, 29202,
    29460, 30112, 30495
  ]

  lemma ParseTwoDigits(a: char, b: char)
    requires IsDigit(a) && IsDigit(b)
    ensures ParseNat([a, b]) == 10 * DigitValue(a) + DigitValue(b)
  {
    assert [a, b][..1] == [a];
    assert [a][..0] == [];
    assert ParseNat([a]) == DigitValue(a);
  }

  /** A "H:MM:SS" string of single-digit hours. */
  predicate IsHms(t: string) {
    && |t| == 7 && IsDigit(t[0]) && t[1] == ':' && IsDigit(t[2]) && IsDigit(t[3])
    && t[4] == ':' && IsDigit(t[5]) && IsDigit(t[6])
  }

  function HmsValue(t: string): int
    requires IsHms(t)
  {
    DigitValue(t[0]) * 3600 + (10 * DigitValue(t[2]) + DigitValue(t[3])) * 60 + 10 * DigitValue(t[5]) + DigitValue(t[6])
  }

  /** `time_to_seconds` reads a "H:MM:SS" string as hours, minutes and seconds. */
  lemma ReadHms(t: string)
    requires IsHms(t)
    ensures TimeToSeconds(t) == Some(HmsValue(t))
  {
    ParseTwoDigits(t[2], t[3]);
    ParseTwoDigits(t[5], t[6]);
    assert [t[0]][..0] == [];
    assert t == [t[0]] + ":" + [t[2], t[3]] + ":" + [t[5], t[6]];
    ThreePart([t[0]], [t[2], t[3]], [t[5], t[6]]);
  }

  /** The starts of `CHAPTERS` are "H:MM:SS" strings of the listed values, seven at a time. */
  lemma ChapterShapesA()
    ensures forall i :: 0 <= i < 7 ==> IsHms(ChapterList[i].0) && HmsValue(ChapterList[i].0) == ChapterSeconds[i]
  {
  }

  lemma ChapterShapesB()
    ensures forall i :: 7 <= i < 14 ==> IsHms(ChapterList[i].0) && HmsValue(ChapterList[i].0) == ChapterSeconds[i]
  {
  }

  lemma ChapterShapesC()
    ensures forall i :: 14 <= i < 21 ==> IsHms(ChapterList[i].0) && HmsValue(ChapterList[i].0) == ChapterSeconds[i]
  {
  }

  lemma ChapterShapesD()
    ensures forall i :: 21 <= i < 27 ==> IsHms(ChapterList[i].0) && HmsValue(ChapterList[i].0) == ChapterSeconds[i]
  {
  }

  /** `chapter_times`: every start of `CHAPTERS` reads as the listed number of
      seconds. */
  lemma ChapterTimes()
    ensures |ChapterSeconds| == |ChapterList|
    ensures forall i :: 0 <= i < |ChapterList| ==> TimeToSeconds(ChapterList[i].0) == Some(ChapterSeconds[i])
  {
    ChapterShapesA();
    ChapterShapesB();
    ChapterShapesC();
    ChapterShapesD();
    forall i | 0 <= i < |ChapterList| ensures TimeToSeconds(ChapterList[i].0) == Some(ChapterSeconds[i]) {
      ReadHms(ChapterList[i].0);
    }
  }

  /** `CHAPTERS` starts at 0 and ascends. */
  lemma ChapterSecondsAscending()
    ensures |ChapterSeconds| == 27 && ChapterSeconds[0] == 0 && Ascending(ChapterSeconds)
  {
    assert StepwiseAscending(ChapterSeconds);
    StepwiseIsAscending(ChapterSeconds);
  }

  /** Every start of `CHAPTERS` is readable, and together they are `ChapterSeconds`. */
  lemma NierStartTimes()
    ensures ReadableTimes(ChapterList) && StartTimes(ChapterList) == ChapterSeconds
  {
    ChapterTimes();
    StartTimesAre(ChapterList, ChapterSeconds);
  }

  /** Each chapter's audio command seeks to its start, and every chapter but the
      last is told to stop where the next one begins. */
  lemma NierAudioWindows(audioFile: string, i: nat)
    requires i < |ChapterList|
    ensures ReadableTimes(ChapterList)
    ensures var cmd := ChapterCommand(ChapterList, i, audioFile);
      && TimeToSeconds(cmd[5]) == Some(ChapterSeconds[i])
      && (|cmd| == 11 <==> i < 26)
      && (i < 26 ==> cmd[6] == "-to" && TimeToSeconds(cmd[7]) == Some(ChapterSeconds[i + 1]))
  {
    NierStartTimes();
    ChapterSecondsAscending();
    AudioWindow(ChapterList, i, audioFile);
  }

  /** Every transcript entry starting at or after 0:00:00 lands in the text file
      of exactly one chapter. */
  lemma NierEntryInOneChapter(es: seq<Entry>, e: Entry)
    requires e in es && e.start >= 0
    ensures exists c :: 0 <= c < |ChapterList| && e in ChapterEntries(ChapterSeconds, c, es)
    ensures forall i, j ::
      0 <= i < |ChapterList| && 0 <= j < |ChapterList| &&
      e in ChapterEntries(ChapterSeconds, i, es) && e in ChapterEntries(ChapterSeconds, j, es)
      ==> i == j
  {
    ChapterSecondsAscending();
    EntryInOneChapter(ChapterSeconds, es, e);
  }
}
