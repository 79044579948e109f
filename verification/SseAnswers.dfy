/** The sizes and separators of the event-stream parser, said of code points and characters. */
module SseAnswers {
  import opened Wrappers
  import opened TextUnits
  import opened SseEvents
  import opened SseMeter

  // ----- sizes

  /** A code point of a supplementary plane, from its two surrogates. */
  function Supplementary(high: int, low: int): int {
    0x1_0000 + (high - 0xD800) * 0x400 + (low - 0xDC00)
  }

  /** The text ends with a surrogate pair. */
  predicate EndsWithPair(text: Text) {
    && |text| >= 2
    && 0xD800 <= text[|text| - 2] < 0xDC00 && 0xDC00 <= text[|text| - 1] < 0xE000
  }

  /** The code points of a text; a surrogate that has no partner stands for itself. */
  function CodePoints(text: Text): seq<int> {
    var n := |text|;
    if n == 0 then []
    else if EndsWithPair(text) then CodePoints(text[..n - 2]) + [Supplementary(text[n - 2], text[n - 1])]
    else CodePoints(text[..n - 1]) + [text[n - 1]]
  }

  /** The length of a code point in UTF-8; a lone surrogate takes as much as the replacement character. */
  function Utf8Length(codePoint: int): nat {
    if codePoint < 0x80 then 1 else if codePoint < 0x800 then 2 else if codePoint < 0x1_0000 then 3 else 4
  }

  function Utf8Lengths(codePoints: seq<int>): nat {
    if codePoints == [] then 0
    else Utf8Lengths(codePoints[..|codePoints| - 1]) + Utf8Length(codePoints[|codePoints| - 1])
  }

  lemma LengthsAppend(codePoints: seq<int>, last: int)
    ensures Utf8Lengths(codePoints + [last]) == Utf8Lengths(codePoints) + Utf8Length(last)
  {
    assert (codePoints + [last])[..|codePoints|] == codePoints;
  }

  lemma PairLength(high: int, low: int)
    requires 0xD800 <= high < 0xDC00 && 0xDC00 <= low < 0xE000
    ensures Utf8Length(Supplementary(high, low)) == 4
  {
  }

  /** A pair takes the four bytes of its code point. */
  lemma PairBytes(text: Text)
    requires EndsWithPair(text)
    ensures var n := |text|;
      TextBytes(text) == TextBytes(text[..n - 2]) + Utf8Length(Supplementary(text[n - 2], text[n - 1]))
  {
    var n := |text|;
    assert text[..n - 1][..n - 2] == text[..n - 2];
    assert UnitBytes(text[..n - 1], n - 2) == 3 && UnitBytes(text, n - 1) == 1;
    PairLength(text[n - 2], text[n - 1]);
  }

  /** Any other unit takes the bytes of its own code point. */
  lemma UnitIsCodePoint(text: Text)
    requires text != [] && !EndsWithPair(text)
    ensures UnitBytes(text, |text| - 1) == Utf8Length(text[|text| - 1])
  {
  }

  lemma LastCodePoint(text: Text)
    requires text != []
    ensures var n := |text|;
      Utf8Lengths(CodePoints(text)) ==
      if EndsWithPair(text)
      then Utf8Lengths(CodePoints(text[..n - 2])) + Utf8Length(Supplementary(text[n - 2], text[n - 1]))
      else Utf8Lengths(CodePoints(text[..n - 1])) + Utf8Length(text[n - 1])
  {
    var n := |text|;
    if EndsWithPair(text) {
      LengthsAppend(CodePoints(text[..n - 2]), Supplementary(text[n - 2], text[n - 1]));
    } else {
      LengthsAppend(CodePoints(text[..n - 1]), text[n - 1]);
    }
  }

  /** The bytes of a text are those of its code points in UTF-8. */
  lemma {:induction false} BytesAreUtf8(text: Text)
    ensures TextBytes(text) == Utf8Lengths(CodePoints(text))
  {
    if text != [] {
      LastCodePoint(text);
      if EndsWithPair(text) {
        PairBytes(text);
        BytesAreUtf8(text[..|text| - 2]);
      } else {
        UnitIsCodePoint(text);
        BytesAreUtf8(text[..|text| - 1]);
      }
    }
  }

  // ----- separators

  predicate Stands(text: Text, i: nat, s: string) {
    i + |s| <= |text| && forall k | 0 <= k < |s| :: text[i + k] as int == s[k] as int
  }

  lemma StandsFour(text: Text, i: nat, s: string)
    requires |s| == 4
    ensures Stands(text, i, s) <==>
      && i + 4 <= |text| && text[i] as int == s[0] as int && text[i + 1] as int == s[1] as int
      && text[i + 2] as int == s[2] as int && text[i + 3] as int == s[3] as int
  {
  }

  lemma StandsTwo(text: Text, i: nat, s: string)
    requires |s| == 2
    ensures Stands(text, i, s) <==>
      i + 2 <= |text| && text[i] as int == s[0] as int && text[i + 1] as int == s[1] as int
  {
  }

  /** The separators are an empty line in each of the three line endings. */
  lemma SeparatorsAreEmptyLines(text: Text, i: nat)
    ensures SeparatorAt(text, i) == 4 <==> Stands(text, i, "\r\n\r\n")
    ensures SeparatorAt(text, i) == 2 <==> Stands(text, i, "\n\n") || Stands(text, i, "\r\r")
    ensures SeparatorAt(text, i) in {0, 2, 4}
  {
    StandsFour(text, i, "\r\n\r\n");
    StandsTwo(text, i, "\n\n");
    StandsTwo(text, i, "\r\r");
  }

  // ----- the end

  /** A stream that has ended is not metered again: nothing is left, so that ending it once more adds no event. */
  lemma EndsOnce(s: Meter, tail: Text, cap: nat, blank: Text -> bool)
    requires blank([])
    ensures var ended := Finish(s, tail, cap, blank);
      && ended.pending == []
      && Finish(ended, [], cap, blank).log == ended.log
  {
    var ended := Finish(s, tail, cap, blank);
    assert ended.pending + [] == [];
    FindsLeftmost([]);
  }
}
