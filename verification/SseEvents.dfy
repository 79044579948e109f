/** Events in a text: where one ends, and which of them are small enough to be metered. */
module SseEvents {
  import opened TextUnits
  import opened Wrappers

  const CR: Unit := 13
  const LF: Unit := 10

  // ----- sizes

  predicate HighSurrogate(u: Unit) { 0xD800 <= u <= 0xDBFF }

  predicate LowSurrogate(u: Unit) { 0xDC00 <= u <= 0xDFFF }

  /** The UTF-8 bytes that a unit adds after those before it; a surrogate pair takes four in all. */
  function UnitBytes(text: Text, i: nat): nat
    requires i < |text|
  {
    if text[i] <= 0x7F then 1
    else if text[i] <= 0x7FF then 2
    else if LowSurrogate(text[i]) && i > 0 && HighSurrogate(text[i - 1]) then 1
    else 3
  }

  function TextBytes(text: Text): nat {
    if text == [] then 0 else TextBytes(text[..|text| - 1]) + UnitBytes(text, |text| - 1)
  }

  lemma {:induction false} BytesGrow(text: Text, more: Text)
    ensures TextBytes(text) <= TextBytes(text + more)
  {
    if more == [] {
      assert text + more == text;
    } else {
      BytesGrow(text, more[..|more| - 1]);
      LastBytes(text, more);
    }
  }

  lemma LastBytes(text: Text, more: Text)
    requires more != []
    ensures TextBytes(text + more) == TextBytes(text + more[..|more| - 1]) + UnitBytes(text + more, |text + more| - 1)
  {
    assert (text + more)[..|text + more| - 1] == text + more[..|more| - 1];
  }

  /** Text followed by ASCII takes one more byte for each unit. */
  lemma {:induction false} AsciiAdds(text: Text, ascii: Text)
    requires forall i | 0 <= i < |ascii| :: ascii[i] <= 0x7F
    ensures TextBytes(text + ascii) == TextBytes(text) + |ascii|
  {
    if ascii == [] {
      assert text + ascii == text;
    } else {
      AsciiAdds(text, ascii[..|ascii| - 1]);
      LastBytes(text, ascii);
    }
  }

  lemma {:induction false} AsciiBytes(ascii: Text)
    requires forall i | 0 <= i < |ascii| :: ascii[i] <= 0x7F
    ensures TextBytes(ascii) == |ascii|
  {
    if ascii != [] {
      AsciiBytes(ascii[..|ascii| - 1]);
    }
  }

  lemma {:induction false} FewBytes(text: Text)
    ensures TextBytes(text) <= 3 * |text|
  {
    if text != [] {
      FewBytes(text[..|text| - 1]);
    }
  }

  // ----- boundaries

  datatype Boundary = Boundary(index: nat, length: nat)

  /** The length of the separator at `i`, 0 when there is none. */
  function SeparatorAt(text: Text, i: nat): nat {
    if i + 4 <= |text| && text[i] == CR && text[i + 1] == LF && text[i + 2] == CR && text[i + 3] == LF then 4
    else if i + 2 <= |text| && text[i] == text[i + 1] && (text[i] == LF || text[i] == CR) then 2
    else 0
  }

  /** `b` is the leftmost separator at or after `from`. */
  ghost predicate Leftmost(text: Text, from: nat, b: Option<Boundary>) {
    match b
    case None => forall i | from <= i :: SeparatorAt(text, i) == 0
    case Some(b) =>
      && from <= b.index
      && b.length == SeparatorAt(text, b.index) > 0
      && forall i | from <= i < b.index :: SeparatorAt(text, i) == 0
  }

  function BoundaryFrom(text: Text, from: nat): Option<Boundary>
    decreases |text| - from
  {
    if from >= |text| then None
    else if SeparatorAt(text, from) > 0 then Some(Boundary(from, SeparatorAt(text, from)))
    else BoundaryFrom(text, from + 1)
  }

  lemma {:induction false} BoundaryFromIsLeftmost(text: Text, from: nat)
    ensures Leftmost(text, from, BoundaryFrom(text, from))
    decreases |text| - from
  {
    if from < |text| && SeparatorAt(text, from) == 0 {
      BoundaryFromIsLeftmost(text, from + 1);
    }
  }

  function FindBoundary(text: Text): (b: Option<Boundary>)
    ensures b.Some? ==> 2 <= b.value.length <= 4 && b.value.index + b.value.length <= |text|
  {
    BoundaryFromIsLeftmost(text, 0);
    BoundaryFrom(text, 0)
  }

  /** The boundary is the leftmost separator. */
  lemma FindsLeftmost(text: Text)
    ensures Leftmost(text, 0, FindBoundary(text))
  {
    BoundaryFromIsLeftmost(text, 0);
  }

  /** No other place qualifies as the boundary. */
  lemma OnlyLeftmost(text: Text, b: Option<Boundary>)
    requires Leftmost(text, 0, b)
    ensures FindBoundary(text) == b
  {
    FindsLeftmost(text);
  }

  /** The event before a boundary, and the text after it. */
  function Before(text: Text, b: Boundary): Text
    requires b.index <= |text|
  {
    text[..b.index]
  }

  function After(text: Text, b: Boundary): Text
    requires b.index + b.length <= |text|
  {
    text[b.index + b.length..]
  }

  /** More text never moves a boundary that was found. */
  lemma BoundaryStays(text: Text, more: Text)
    requires FindBoundary(text).Some?
    ensures FindBoundary(text + more) == FindBoundary(text)
    ensures Before(text + more, FindBoundary(text).value) == Before(text, FindBoundary(text).value)
    ensures After(text + more, FindBoundary(text).value) == After(text, FindBoundary(text).value) + more
  {
    var b := FindBoundary(text).value;
    FindsLeftmost(text);
    forall i | 0 <= i < b.index ensures SeparatorAt(text + more, i) == 0 {
      assert SeparatorAt(text, i) == 0;
    }
    OnlyLeftmost(text + more, Some(b));
  }

  /** The last units that can still be the beginning of a separator. */
  function Last3(text: Text): Text {
    if |text| <= 3 then text else text[|text| - 3..]
  }

  lemma SeparatorShifts(text: Text, d: nat, i: nat)
    requires d <= |text|
    ensures SeparatorAt(text[d..], i) == SeparatorAt(text, d + i)
  {
  }

  /** The separators of `whole` are those of `tail`, `d` units later. */
  ghost predicate Shifted(tail: Text, whole: Text, d: nat) {
    && (forall i: nat :: SeparatorAt(tail, i) == SeparatorAt(whole, d + i))
    && (forall i: nat | i < d :: SeparatorAt(whole, i) == 0)
  }

  /** In text without a boundary, cut to its last three units, every later separator is still there. */
  lemma TailSeparators(text: Text, more: Text)
    requires FindBoundary(text).None?
    ensures Shifted(Last3(text) + more, text + more, |text| - |Last3(text)|)
  {
    var d := |text| - |Last3(text)|;
    FindsLeftmost(text);
    assert (text + more)[d..] == Last3(text) + more;
    forall i: nat ensures SeparatorAt(Last3(text) + more, i) == SeparatorAt(text + more, d + i) {
      SeparatorShifts(text + more, d, i);
    }
    forall i: nat | i < d ensures SeparatorAt(text + more, i) == 0 {
      assert SeparatorAt(text, i) == 0;
    }
  }

  lemma ShiftedBoundary(tail: Text, whole: Text, d: nat)
    requires Shifted(tail, whole, d)
    ensures var b := FindBoundary(tail);
      FindBoundary(whole) == if b.Some? then Some(Boundary(d + b.value.index, b.value.length)) else None
  {
    var b := FindBoundary(tail);
    FindsLeftmost(tail);
    var shifted := if b.Some? then Some(Boundary(d + b.value.index, b.value.length)) else None;
    forall i: nat | d <= i && (b.Some? ==> i < d + b.value.index) ensures SeparatorAt(whole, i) == 0 {
      assert SeparatorAt(tail, i - d) == 0;
    }
    OnlyLeftmost(whole, shifted);
  }

  lemma TailBoundaryShifts(text: Text, more: Text)
    requires FindBoundary(text).None?
    ensures var tail, d := FindBoundary(Last3(text) + more), |text| - |Last3(text)|;
      FindBoundary(text + more) == if tail.Some? then Some(Boundary(d + tail.value.index, tail.value.length)) else None
  {
    TailSeparators(text, more);
    ShiftedBoundary(Last3(text) + more, text + more, |text| - |Last3(text)|);
  }

  /** Text without a boundary can be cut to its last three units without changing where the next boundary falls. */
  lemma TailFindsBoundary(text: Text, more: Text)
    requires FindBoundary(text).None?
    ensures var tail, whole := FindBoundary(Last3(text) + more), FindBoundary(text + more);
      && (tail.None? <==> whole.None?)
      && (tail.Some? ==> After(Last3(text) + more, tail.value) == After(text + more, whole.value))
  {
    TailBoundaryShifts(text, more);
    var tail := FindBoundary(Last3(text) + more);
    if tail.Some? {
      AfterTail(text, more, tail.value);
    }
  }

  lemma AfterTail(text: Text, more: Text, b: Boundary)
    requires b.index + b.length <= |Last3(text) + more|
    ensures After(Last3(text) + more, b) == After(text + more, Boundary(|text| - |Last3(text)| + b.index, b.length))
  {
    var d := |text| - |Last3(text)|;
    assert (text + more)[d..] == Last3(text) + more;
    AfterShifts(text + more, d, b);
  }

  lemma AfterShifts(whole: Text, d: nat, b: Boundary)
    requires d + b.index + b.length <= |whole|
    ensures After(whole[d..], b) == After(whole, Boundary(d + b.index, b.length))
  {
  }

  lemma Last3Last3(text: Text, more: Text)
    ensures Last3(Last3(text) + more) == Last3(text + more)
  {
  }

  // ----- the end of a whole text

  /** What follows the last boundary. */
  function Rest(text: Text): (rest: Text)
    ensures FindBoundary(rest).None?
    decreases |text|
  {
    var b := FindBoundary(text);
    if b.None? then text else Rest(After(text, b.value))
  }

  /** The event fits, but would not fit any more when all but the last unit of its separator has arrived. */
  predicate InBand(event: Text, length: nat, cap: nat) {
    TextBytes(event) <= cap && TextBytes(event) + length - 1 > cap
  }

  /** No terminated event is in the band. */
  predicate NoBand(text: Text, cap: nat)
    decreases |text|
  {
    var b := FindBoundary(text);
    b.Some? ==> !InBand(Before(text, b.value), b.value.length, cap) && NoBand(After(text, b.value), cap)
  }

  lemma {:induction false} NoBandSplits(text: Text, more: Text, cap: nat)
    ensures NoBand(text + more, cap) <==> NoBand(text, cap) && NoBand(Rest(text) + more, cap)
    decreases |text|
  {
    var b := FindBoundary(text);
    if b.Some? {
      BoundaryStays(text, more);
      NoBandSplits(After(text, b.value), more, cap);
    }
  }

  /** Text over the cap without a boundary belongs to an event over the cap, unless that event is in the band. */
  lemma OversizedEvent(text: Text, more: Text, cap: nat)
    requires FindBoundary(text).None? && FindBoundary(text + more).Some?
    requires TextBytes(text) > cap
    ensures var b := FindBoundary(text + more).value;
      TextBytes(Before(text + more, b)) > cap || InBand(Before(text + more, b), b.length, cap)
  {
    var all := text + more;
    var b := FindBoundary(all).value;
    FindsLeftmost(text);
    FindsLeftmost(all);
    var event := Before(all, b);
    if |text| <= b.index {
      assert event == text + event[|text|..];
      BytesGrow(text, event[|text|..]);
    } else {
      var begun := text[b.index..];
      assert text == event + begun;
      assert SeparatorAt(text, b.index) == 0;
      AsciiAdds(event, begun);
    }
  }

  /** A text with an event in the band falls apart right before the last unit of that event's separator. */
  lemma {:induction false} BandSplit(text: Text, cap: nat) returns (first: Text, second: Text)
    requires !NoBand(text, cap)
    ensures text == first + second && first != [] && second != []
    ensures TextBytes(Rest(first)) > cap && FindBoundary(Rest(first) + second).Some?
    ensures TextBytes(Before(Rest(first) + second, FindBoundary(Rest(first) + second).value)) <= cap
    decreases |text|
  {
    var b := FindBoundary(text).value;
    if InBand(Before(text, b), b.length, cap) {
      first, second := CutBand(text, cap);
    } else {
      var rest;
      rest, second := BandSplit(After(text, b), cap);
      first := CutAfter(text, rest, second);
    }
  }

  lemma CutBand(text: Text, cap: nat) returns (first: Text, second: Text)
    requires FindBoundary(text).Some?
    requires var b := FindBoundary(text).value; InBand(Before(text, b), b.length, cap)
    ensures text == first + second && first != [] && second != [] && Rest(first) == first
    ensures TextBytes(first) > cap && FindBoundary(first + second).Some?
    ensures TextBytes(Before(first + second, FindBoundary(first + second).value)) <= cap
  {
    var b := FindBoundary(text).value;
    var cut := b.index + b.length - 1;
    first, second := text[..cut], text[cut..];
    CutSeparator(text);
    CutBytes(text);
    assert first + second == text;
  }

  /** Of a separator only the last unit is missing: the bytes up to there. */
  lemma CutBytes(text: Text)
    requires FindBoundary(text).Some?
    ensures var b := FindBoundary(text).value;
      TextBytes(text[..b.index + b.length - 1]) == TextBytes(Before(text, b)) + b.length - 1
  {
    var b := FindBoundary(text).value;
    var begun := text[b.index..b.index + b.length - 1];
    FindsLeftmost(text);
    AsciiAdds(Before(text, b), begun);
    assert text[..b.index + b.length - 1] == Before(text, b) + begun;
  }

  /** A text cut inside its first separator has no boundary. */
  lemma CutSeparator(text: Text)
    requires FindBoundary(text).Some?
    ensures var b := FindBoundary(text).value; FindBoundary(text[..b.index + b.length - 1]).None?
  {
    var b := FindBoundary(text).value;
    var cut := text[..b.index + b.length - 1];
    FindsLeftmost(text);
    forall i: nat ensures SeparatorAt(cut, i) == 0 {
      if i < b.index {
        assert SeparatorAt(text, i) == 0;
      }
    }
    OnlyLeftmost(cut, None);
  }

  /** A text cut after its first separator has the same rest as the part that follows the separator. */
  lemma CutAfter(text: Text, rest: Text, second: Text) returns (first: Text)
    requires FindBoundary(text).Some? && After(text, FindBoundary(text).value) == rest + second
    ensures text == first + second && first != [] && Rest(first) == Rest(rest)
  {
    var b := FindBoundary(text).value;
    first := text[..b.index + b.length] + rest;
    FindsLeftmost(text);
    assert first + second == text[..b.index + b.length] + After(text, b) == text;
    forall i: nat | i <= b.index ensures SeparatorAt(first, i) == SeparatorAt(text, i) {
      if i < b.index {
        assert SeparatorAt(text, i) == 0;
      }
    }
    OnlyLeftmost(first, Some(b));
    assert After(first, b) == rest;
  }
}
