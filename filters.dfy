/** The per-entry filters of the transcript parsers: `is_excluded` (time ranges
    such as opening and ending songs), `is_english` (the letter-ratio test for
    English contamination) and `should_drop` (exact filler texts, and in
    build_charlottes_web.py also texts of fewer than three characters). */
module Filters {
  import opened Strings

  /** `is_excluded`: scans the ranges in order and answers true at the first
      `lo <= t <= hi`. */
  function IsExcluded(ranges: seq<(int, int)>, t: int): (r: bool)
    ensures r <==> exists k :: 0 <= k < |ranges| && ranges[k].0 <= t <= ranges[k].1
  {
    if |ranges| == 0 then false
    else if ranges[0].0 <= t <= ranges[0].1 then true
    else
      assert forall k :: 1 <= k < |ranges| ==> ranges[k] == ranges[1..][k - 1];
      IsExcluded(ranges[1..], t)
  }

  /** Python's `c.isalpha()` for an ASCII character. */
  predicate IsAsciiLetter(c: char) {
    ('A' <= c <= 'Z') || ('a' <= c <= 'z')
  }

  /** Python's `c.isalpha()`: exact on ASCII; on other characters it is the
      Unicode letter test, which the model takes as the parameter `alpha`. */
  predicate IsLetter(c: char, alpha: char -> bool) {
    if c < '\U{80}' then IsAsciiLetter(c) else alpha(c)
  }

  /** `sum(1 for c in text if c.isascii() and c.isalpha())` */
  function AsciiLetters(text: string): nat {
    if |text| == 0 then 0
    else (if IsAsciiLetter(text[0]) then 1 else 0) + AsciiLetters(text[1..])
  }

  /** `sum(1 for c in text if c.isalpha())` */
  function Letters(text: string, alpha: char -> bool): nat {
    if |text| == 0 then 0
    else (if IsLetter(text[0], alpha) then 1 else 0) + Letters(text[1..], alpha)
  }

  /** Every ASCII letter is a letter. */
  lemma {:induction false} AsciiLettersAtMostLetters(text: string, alpha: char -> bool)
    ensures AsciiLetters(text) <= Letters(text, alpha)
  {
    if |text| > 0 {
      AsciiLettersAtMostLetters(text[1..], alpha);
    }
  }

  /** `is_english`: false without letters, otherwise whether more than half of the
      letters are ASCII. */
  predicate IsEnglish(text: string, alpha: char -> bool) {
    var total := Letters(text, alpha);
    total != 0 && (AsciiLetters(text) as real) / (total as real) > 0.5
  }

  /** The ratio test is the integer comparison 2 * ascii > total. */
  lemma IsEnglishIff(text: string, alpha: char -> bool)
    ensures IsEnglish(text, alpha) <==>
      Letters(text, alpha) > 0 && 2 * AsciiLetters(text) > Letters(text, alpha)
    ensures Letters(text, alpha) == 0 ==> !IsEnglish(text, alpha)
  {
    var a, t := AsciiLetters(text) as real, Letters(text, alpha) as real;
    if t > 0.0 {
      RatioAboveHalf(a, t);
    }
  }

  lemma RatioAboveHalf(a: real, t: real)
    requires t > 0.0
    ensures a / t > 0.5 <==> 2.0 * a > t
  {
    var q := a / t;
    assert a == q * t;
    if q > 0.5 {
      assert (q - 0.5) * t > 0.0;
    }
    if 2.0 * a > t {
      assert (2.0 * q - 1.0) * t > 0.0;
    }
  }

  /** A text without ASCII letters (all Japanese, say) is never English. */
  lemma {:induction false} NoAsciiLettersNotEnglish(text: string, alpha: char -> bool)
    requires forall k :: 0 <= k < |text| ==> !IsAsciiLetter(text[k])
    ensures AsciiLetters(text) == 0 && !IsEnglish(text, alpha)
  {
    if |text| > 0 {
      NoAsciiLettersNotEnglish(text[1..], alpha);
    }
    IsEnglishIff(text, alpha);
  }

  /** `should_drop`: the stripped text is a listed filler or has fewer than
      `minChars` characters (0 in every script but build_charlottes_web.py). */
  predicate ShouldDrop(dropTexts: set<string>, minChars: nat, text: string) {
    Strip(text) in dropTexts || |Strip(text)| < minChars
  }
}
