/** The incremental event-stream parser that meters a response while it is forwarded. */
module SseMeter {
  import opened Wrappers
  import opened SseEvents
  import opened TextUnits

  /** An event handed to the usage reader, and whether all of it had been forwarded. */
  datatype Event = Event(text: Text, forwarded: bool)

  /** `log`: the events handed over so far; the reported usage is a function of it. */
  datatype Meter = Meter(pending: Text, forwarded: bool, discarding: bool, log: seq<Event>)

  const FRESH := Meter([], true, false, [])

  /** The parser after the event and the separator at the front of its pending text. */
  function PassEvent(s: Meter, b: Boundary, latest: bool, process: bool): Meter
    requires b.index + b.length <= |s.pending|
  {
    var rest := After(s.pending, b);
    s.(log := if process then s.log + [Event(Before(s.pending, b), s.forwarded)] else s.log,
       pending := rest,
       forwarded := if rest == [] then true else latest)
  }

  function PassEvents(s: Meter, latest: bool, cap: nat): Meter
    decreases |s.pending|
  {
    var b := FindBoundary(s.pending);
    if b.None? then s
    else PassEvents(PassEvent(s, b.value, latest, TextBytes(Before(s.pending, b.value)) <= cap), latest, cap)
  }

  function Trim(s: Meter, cap: nat): Meter {
    if TextBytes(s.pending) > cap then s.(pending := Last3(s.pending), discarding := true) else s
  }

  /** The boundary ends the event that is being discarded. */
  function EndDiscard(s: Meter, b: Boundary, latest: bool): Meter
    requires b.index + b.length <= |s.pending|
  {
    PassEvent(s, b, latest, false).(discarding := false)
  }

  function Drain(s: Meter, latest: bool, cap: nat): Meter {
    if !s.discarding then Trim(PassEvents(s, latest, cap), cap)
    else
      var b := FindBoundary(s.pending);
      if b.None? then s.(pending := Last3(s.pending))
      else Trim(PassEvents(EndDiscard(s, b.value, latest), latest, cap), cap)
  }

  function Push(s: Meter, chunk: Text, forwarded: bool, cap: nat): Meter {
    if chunk == [] then s
    else
      Drain(s.(forwarded := if s.pending == [] then forwarded else s.forwarded && forwarded,
               pending := s.pending + chunk), forwarded, cap)
  }

  /** The end of the stream: `tail` is what decoding still held back; text that is not `blank` is a last event. */
  function Finish(s: Meter, tail: Text, cap: nat, blank: Text -> bool): Meter {
    var s' := Drain(s.(pending := s.pending + tail), s.forwarded, cap);
    if !s'.discarding && !blank(s'.pending) then s'.(log := s'.log + [Event(s'.pending, s'.forwarded)], pending := [])
    else s'.(pending := [])
  }

  datatype Chunk = Chunk(text: Text, forwarded: bool)

  function PushAll(s: Meter, chunks: seq<Chunk>, cap: nat): Meter {
    if chunks == [] then s
    else
      var last := chunks[|chunks| - 1];
      Push(PushAll(s, chunks[..|chunks| - 1], cap), last.text, last.forwarded, cap)
  }

  /** The events metered when the text of a response arrives in `chunks`. */
  function Log(chunks: seq<Chunk>, tail: Text, cap: nat, blank: Text -> bool): seq<Event> {
    Finish(PushAll(FRESH, chunks, cap), tail, cap, blank).log
  }

  function Concat(chunks: seq<Chunk>): Text {
    if chunks == [] then [] else Concat(chunks[..|chunks| - 1]) + chunks[|chunks| - 1].text
  }

  // ----- memory

  /** After every push, whatever came before, the pending text is within the cap. */
  lemma {:induction false} PendingWithinCap(s: Meter, chunk: Text, forwarded: bool, cap: nat)
    requires cap >= 9 && TextBytes(s.pending) <= cap
    ensures TextBytes(Push(s, chunk, forwarded, cap).pending) <= cap
  {
    FewBytes(Push(s, chunk, forwarded, cap).pending);
  }

  // ----- forwarded units

  /** For each unit of a text, whether it was forwarded. */
  type Marks = seq<bool>

  predicate All(marks: Marks) {
    forall i | 0 <= i < |marks| :: marks[i]
  }

  predicate Uniform(marks: Marks, mark: bool) {
    forall i | 0 <= i < |marks| :: marks[i] == mark
  }

  function Repeat(mark: bool, n: nat): (marks: Marks)
    ensures |marks| == n && Uniform(marks, mark)
  {
    seq(n, i => mark)
  }

  function MarksOf(chunks: seq<Chunk>): (marks: Marks)
    ensures |marks| == |Concat(chunks)|
  {
    if chunks == [] then []
    else
      var last := chunks[|chunks| - 1];
      MarksOf(chunks[..|chunks| - 1]) + Repeat(last.forwarded, |last.text|)
  }

  /** An event counts as forwarded when all of it and of its separator was. */
  function Admit(log: seq<Event>, event: Text, marks: Marks, cap: nat): seq<Event> {
    if TextBytes(event) <= cap then log + [Event(event, All(marks))] else log
  }

  /** The log after the terminated events of a text, in order. */
  function Metered(log: seq<Event>, text: Text, marks: Marks, cap: nat): seq<Event>
    requires |marks| == |text|
    decreases |text|
  {
    var b := FindBoundary(text);
    if b.None? then log
    else
      var end := b.value.index + b.value.length;
      Metered(Admit(log, Before(text, b.value), marks[..end], cap), After(text, b.value), marks[end..], cap)
  }

  /** The marks of what follows the last boundary. */
  function RestMarks(text: Text, marks: Marks): (rest: Marks)
    requires |marks| == |text|
    ensures |rest| == |Rest(text)|
    decreases |text|
  {
    var b := FindBoundary(text);
    if b.None? then marks else RestMarks(After(text, b.value), marks[b.value.index + b.value.length..])
  }

  /** The events of a whole text, a last one without a separator included. */
  function WholeLog(text: Text, marks: Marks, cap: nat, blank: Text -> bool): seq<Event>
    requires |marks| == |text|
  {
    var rest := Rest(text);
    Metered([], text, marks, cap)
    + if TextBytes(rest) <= cap && !blank(rest) then [Event(rest, All(RestMarks(text, marks)))] else []
  }

  lemma {:induction false} CutMarks(first: Marks, second: Marks, end: nat)
    requires end <= |first|
    ensures (first + second)[..end] == first[..end] && (first + second)[end..] == first[end..] + second
  {
  }

  lemma {:induction false} RestAppend(text: Text, more: Text)
    ensures Rest(text + more) == Rest(Rest(text) + more)
    decreases |text|
  {
    var b := FindBoundary(text);
    if b.Some? {
      BoundaryStays(text, more);
      RestAppend(After(text, b.value), more);
    }
  }

  lemma {:induction false} RestMarksAppend(text: Text, marks: Marks, more: Text, moreMarks: Marks)
    requires |marks| == |text| && |moreMarks| == |more|
    ensures RestMarks(text + more, marks + moreMarks)
      == RestMarks(Rest(text) + more, RestMarks(text, marks) + moreMarks)
    decreases |text|
  {
    var b := FindBoundary(text);
    if b.Some? {
      RestOfBoth(text, marks, more, moreMarks);
      RestMarksAppend(After(text, b.value), marks[b.value.index + b.value.length..], more, moreMarks);
    }
  }

  lemma {:induction false} RestOfBoth(text: Text, marks: Marks, more: Text, moreMarks: Marks)
    requires |marks| == |text| && |moreMarks| == |more| && FindBoundary(text).Some?
    ensures var b := FindBoundary(text).value;
      RestMarks(text + more, marks + moreMarks)
        == RestMarks(After(text, b) + more, marks[b.index + b.length..] + moreMarks)
  {
    var b := FindBoundary(text).value;
    BoundaryStays(text, more);
    CutMarks(marks, moreMarks, b.index + b.length);
  }

  /** The log of a longer text is that of the text, and then of its rest with the addition. */
  lemma {:induction false} MeteredAppend(log: seq<Event>, text: Text, marks: Marks, more: Text, moreMarks: Marks,
                                         cap: nat)
    requires |marks| == |text| && |moreMarks| == |more|
    ensures Metered(log, text + more, marks + moreMarks, cap)
         == Metered(Metered(log, text, marks, cap), Rest(text) + more, RestMarks(text, marks) + moreMarks, cap)
    decreases |text|
  {
    var b := FindBoundary(text);
    if b.Some? {
      var end := b.value.index + b.value.length;
      FirstOfBoth(log, text, marks, more, moreMarks, cap);
      MeteredAppend(Admit(log, Before(text, b.value), marks[..end], cap), After(text, b.value), marks[end..], more,
        moreMarks, cap);
    }
  }

  /** A longer text has the same first event. */
  lemma {:induction false} FirstOfBoth(log: seq<Event>, text: Text, marks: Marks, more: Text, moreMarks: Marks,
                                       cap: nat)
    requires |marks| == |text| && |moreMarks| == |more| && FindBoundary(text).Some?
    ensures var b := FindBoundary(text).value;
      var end := b.index + b.length;
      Metered(log, text + more, marks + moreMarks, cap)
      == Metered(Admit(log, Before(text, b), marks[..end], cap), After(text, b) + more, marks[end..] + moreMarks, cap)
  {
    var b := FindBoundary(text).value;
    BoundaryStays(text, more);
    CutMarks(marks, moreMarks, b.index + b.length);
  }

  // ----- one text, many chunkings

  /** The parser is where the text leaves it: its log holds the metered events, its pending text what follows them. */
  ghost predicate Tracks(s: Meter, text: Text, marks: Marks, cap: nat)
    requires |marks| == |text|
  {
    && s.forwarded == All(RestMarks(text, marks))
    && s.log == Metered([], text, marks, cap)
    && (s.discarding <==> TextBytes(Rest(text)) > cap)
    && s.pending == (if s.discarding then Last3(Rest(text)) else Rest(text))
  }

  /** The flag of the parser fits the marks of its pending text, which after the first event are all `latest`. */
  ghost predicate Flagged(s: Meter, marks: Marks, latest: bool)
    requires |marks| == |s.pending|
  {
    match FindBoundary(s.pending)
    case None => s.forwarded == All(marks)
    case Some(b) =>
      var end := b.index + b.length;
      s.forwarded == All(marks[..end]) && Uniform(marks[end..], latest)
  }

  /** Text that all arrived in the latest chunk. */
  lemma {:induction false} UniformIsFlagged(s: Meter, marks: Marks, latest: bool)
    requires |marks| == |s.pending| && Uniform(marks, latest)
    requires s.forwarded == if s.pending == [] then true else latest
    ensures Flagged(s, marks, latest)
  {
    if s.pending != [] {
      assert marks[0] == latest;
      var b := FindBoundary(s.pending);
      if b.Some? {
        assert marks[..b.value.index + b.value.length][0] == latest;
      }
    }
  }

  lemma {:induction false} PassesMetered(s: Meter, marks: Marks, latest: bool, cap: nat)
    requires |marks| == |s.pending| && Flagged(s, marks, latest)
    ensures var s' := PassEvents(s, latest, cap);
      && s'.discarding == s.discarding
      && s'.forwarded == All(RestMarks(s.pending, marks))
      && s'.log == Metered(s.log, s.pending, marks, cap)
      && s'.pending == Rest(s.pending)
    decreases |s.pending|
  {
    var b := FindBoundary(s.pending);
    if b.Some? {
      var event, end := Before(s.pending, b.value), b.value.index + b.value.length;
      var next := PassEvent(s, b.value, latest, TextBytes(event) <= cap);
      FirstMetered(s, marks, latest, cap);
      PassesMetered(next, marks[end..], latest, cap);
    }
  }

  /** The first event is metered with its own marks; what follows it arrived in the latest chunk. */
  lemma {:induction false} FirstMetered(s: Meter, marks: Marks, latest: bool, cap: nat)
    requires |marks| == |s.pending| && Flagged(s, marks, latest) && FindBoundary(s.pending).Some?
    ensures var b := FindBoundary(s.pending).value;
      var event, end := Before(s.pending, b), b.index + b.length;
      var next := PassEvent(s, b, latest, TextBytes(event) <= cap);
      && |marks[end..]| == |next.pending| && Flagged(next, marks[end..], latest)
      && next.log == Admit(s.log, event, marks[..end], cap)
  {
    var b := FindBoundary(s.pending).value;
    var event, end := Before(s.pending, b), b.index + b.length;
    var next := PassEvent(s, b, latest, TextBytes(event) <= cap);
    UniformIsFlagged(next, marks[end..], latest);
  }

  /** The flag after a chunk. */
  function Combined(s: Meter, more: Text, forwarded: bool): bool {
    if s.pending == [] then forwarded else s.forwarded && forwarded
  }

  lemma {:induction false} FedIsFlagged(s: Meter, rest: Text, restMarks: Marks, more: Text, forwarded: bool)
    requires s.pending == rest && |restMarks| == |rest| && FindBoundary(rest).None?
    requires s.forwarded == All(restMarks) && (more == [] ==> forwarded == s.forwarded)
    ensures var fed := s.(forwarded := Combined(s, more, forwarded), pending := rest + more);
      Flagged(fed, restMarks + Repeat(forwarded, |more|), forwarded)
  {
    var marks := restMarks + Repeat(forwarded, |more|);
    var b := FindBoundary(rest + more);
    var end := if b.Some? then b.value.index + b.value.length else |marks|;
    if b.Some? {
      PastRest(rest, more);
    }
    AllTogether(restMarks, forwarded, |more|, end);
    assert b.None? ==> marks[..end] == marks;
  }

  /** A boundary of a longer text ends after text that has none. */
  lemma {:induction false} PastRest(rest: Text, more: Text)
    requires FindBoundary(rest).None? && FindBoundary(rest + more).Some?
    ensures var b := FindBoundary(rest + more).value; b.index + b.length > |rest|
  {
    var b := FindBoundary(rest + more).value;
    FindsLeftmost(rest);
    FindsLeftmost(rest + more);
    assert SeparatorAt(rest, b.index) == 0;
  }

  lemma {:induction false} AllTogether(marks: Marks, mark: bool, n: nat, end: nat)
    requires |marks| <= end <= |marks| + n && (end == |marks| ==> n == 0)
    ensures All((marks + Repeat(mark, n))[..end]) <==> All(marks) && (n > 0 ==> mark)
  {
    var all := (marks + Repeat(mark, n))[..end];
    forall i | 0 <= i < |marks| ensures all[i] == marks[i] {
    }
    if n > 0 {
      assert all[|marks|] == mark;
    }
  }

  /** A drain over more text. */
  lemma {:induction false} DrainTracks(s: Meter, text: Text, marks: Marks, more: Text, forwarded: bool, cap: nat)
    requires |marks| == |text| && Tracks(s, text, marks, cap) && NoBand(text + more, cap)
    requires more == [] ==> forwarded == s.forwarded
    ensures var fed := s.(forwarded := Combined(s, more, forwarded), pending := s.pending + more);
      Tracks(Drain(fed, forwarded, cap), text + more, marks + Repeat(forwarded, |more|), cap)
  {
    RestAppend(text, more);
    RestMarksAppend(text, marks, more, Repeat(forwarded, |more|));
    MeteredAppend([], text, marks, more, Repeat(forwarded, |more|), cap);
    NoBandSplits(text, more, cap);
    if s.discarding {
      DiscardTracks(s, text, marks, more, forwarded, cap);
    } else {
      var rest, restMarks := Rest(text), RestMarks(text, marks);
      var fed := s.(forwarded := Combined(s, more, forwarded), pending := s.pending + more);
      FedIsFlagged(s, rest, restMarks, more, forwarded);
      PassesMetered(fed, restMarks + Repeat(forwarded, |more|), forwarded, cap);
    }
  }

  lemma {:induction false} DiscardTracks(s: Meter, text: Text, marks: Marks, more: Text, forwarded: bool, cap: nat)
    requires |marks| == |text| && Tracks(s, text, marks, cap) && s.discarding && NoBand(Rest(text) + more, cap)
    requires more == [] ==> forwarded == s.forwarded
    ensures var fed := s.(forwarded := Combined(s, more, forwarded), pending := s.pending + more);
      var s' := Drain(fed, forwarded, cap);
      var rest, restMarks := Rest(text) + more, RestMarks(text, marks) + Repeat(forwarded, |more|);
      && s'.forwarded == All(RestMarks(rest, restMarks))
      && s'.log == Metered(s.log, rest, restMarks, cap)
      && (s'.discarding <==> TextBytes(Rest(rest)) > cap)
      && s'.pending == (if s'.discarding then Last3(Rest(rest)) else Rest(rest))
  {
    var rest, restMarks := Rest(text), RestMarks(text, marks);
    if FindBoundary(rest + more).None? {
      StillDiscarding(s, rest, restMarks, more, forwarded, cap);
    } else {
      var fed := s.(forwarded := Combined(s, more, forwarded), pending := s.pending + more);
      var next := DiscardedEvent(fed, rest, more, forwarded, cap);
      var uncut := DiscardEnds(next, rest, restMarks, more, forwarded, cap);
      PassesMetered(uncut, restMarks + Repeat(forwarded, |more|), forwarded, cap);
    }
  }

  lemma {:induction false} StillDiscarding(s: Meter, rest: Text, restMarks: Marks, more: Text, forwarded: bool,
                                           cap: nat)
    requires s.discarding && s.pending == Last3(rest) && |restMarks| == |rest| && TextBytes(rest) > cap
    requires s.forwarded == All(restMarks) && (more == [] ==> forwarded == s.forwarded)
    requires FindBoundary(rest).None? && FindBoundary(rest + more).None?
    ensures var fed := s.(forwarded := Combined(s, more, forwarded), pending := s.pending + more);
      var marks := restMarks + Repeat(forwarded, |more|);
      && Drain(fed, forwarded, cap)
        == s.(forwarded := All(RestMarks(rest + more, marks)), pending := Last3(rest + more))
      && Metered(s.log, rest + more, marks, cap) == s.log && TextBytes(rest + more) > cap
  {
    var marks := restMarks + Repeat(forwarded, |more|);
    TailFindsBoundary(rest, more);
    Last3Last3(rest, more);
    BytesGrow(rest, more);
    AllTogether(restMarks, forwarded, |more|, |marks|);
    assert marks[..|marks|] == marks;
  }

  /** When the event that is being discarded ends, the parser goes on as if all of that event were still pending. */
  lemma {:induction false} DiscardEnds(next: Meter, rest: Text, restMarks: Marks, more: Text, forwarded: bool,
                                       cap: nat) returns (uncut: Meter)
    requires |restMarks| == |rest| && TextBytes(rest) > cap
    requires FindBoundary(rest).None? && FindBoundary(rest + more).Some? && NoBand(rest + more, cap)
    requires next.pending == After(rest + more, FindBoundary(rest + more).value)
    requires next.forwarded == if next.pending == [] then true else forwarded
    ensures uncut.discarding == next.discarding && uncut.log == next.log && uncut.pending == rest + more
    ensures Flagged(uncut, restMarks + Repeat(forwarded, |more|), forwarded)
    ensures PassEvents(uncut, forwarded, cap) == PassEvents(next, forwarded, cap)
  {
    var b := FindBoundary(rest + more).value;
    uncut := next.(pending := rest
      + more, forwarded := All((restMarks + Repeat(forwarded, |more|))[..b.index + b.length]));
    MarksAfter(uncut, restMarks, forwarded, rest, more);
    OversizedEvent(rest, more, cap);
    OversizedIsPassed(uncut, next, forwarded, cap);
  }

  /** An oversized event is passed over. */
  lemma {:induction false} OversizedIsPassed(s: Meter, next: Meter, latest: bool, cap: nat)
    requires FindBoundary(s.pending).Some? && TextBytes(Before(s.pending, FindBoundary(s.pending).value)) > cap
    requires next.pending == After(s.pending, FindBoundary(s.pending).value)
    requires next.log == s.log && next.discarding == s.discarding && next.forwarded == if next.pending == [] then true
      else latest
    ensures PassEvents(s, latest, cap) == PassEvents(next, latest, cap)
  {
    assert PassEvent(s, FindBoundary(s.pending).value, latest, false) == next;
  }

  /** The parser once the event that is being discarded has ended: what follows it is pending. */
  lemma {:induction false} DiscardedEvent(fed: Meter, rest: Text, more: Text, latest: bool, cap: nat)
    returns (next: Meter)
    requires fed.discarding && fed.pending == Last3(rest) + more
    requires FindBoundary(rest).None? && FindBoundary(rest + more).Some?
    ensures Drain(fed, latest, cap) == Trim(PassEvents(next, latest, cap), cap)
    ensures next.pending == After(rest + more, FindBoundary(rest + more).value)
    ensures !next.discarding && next.log == fed.log && next.forwarded == if next.pending == [] then true else latest
  {
    TailFindsBoundary(rest, more);
    next := EndDiscard(fed, FindBoundary(fed.pending).value, latest);
  }

  /** What follows a boundary that more text completed arrived with that text. */
  lemma {:induction false} MarksAfter(uncut: Meter, restMarks: Marks, forwarded: bool, rest: Text, more: Text)
    requires |restMarks| == |rest| && FindBoundary(rest).None? && FindBoundary(rest + more).Some? &&
      uncut.pending == rest + more
    requires var b := FindBoundary(rest + more).value;
      uncut.forwarded == All((restMarks + Repeat(forwarded, |more|))[..b.index + b.length])
    ensures Flagged(uncut, restMarks + Repeat(forwarded, |more|), forwarded)
  {
    PastRest(rest, more);
  }

  lemma {:induction false} PushAllTracks(chunks: seq<Chunk>, cap: nat)
    requires NoBand(Concat(chunks), cap)
    ensures Tracks(PushAll(FRESH, chunks, cap), Concat(chunks), MarksOf(chunks), cap)
  {
    if chunks != [] {
      var init, last := chunks[..|chunks| - 1], chunks[|chunks| - 1];
      NoBandSplits(Concat(init), last.text, cap);
      PushAllTracks(init, cap);
      if last.text == [] {
        assert Concat(init) + last.text == Concat(init);
        assert MarksOf(init) + Repeat(last.forwarded, 0) == MarksOf(init);
      } else {
        DrainTracks(PushAll(FRESH, init, cap), Concat(init), MarksOf(init), last.text, last.forwarded, cap);
      }
    }
  }

  /** What decoding held back counts as forwarded when the pending text does. */
  function AllMarks(chunks: seq<Chunk>, tail: Text): (marks: Marks)
    ensures |marks| == |Concat(chunks) + tail|
  {
    MarksOf(chunks) + Repeat(All(RestMarks(Concat(chunks), MarksOf(chunks))), |tail|)
  }

  /** Without an event in the band, the log depends only on the text and on which of its units were forwarded. */
  lemma {:induction false} LogOfText(chunks: seq<Chunk>, tail: Text, cap: nat, blank: Text -> bool)
    requires NoBand(Concat(chunks) + tail, cap)
    ensures Log(chunks, tail, cap, blank) == WholeLog(Concat(chunks) + tail, AllMarks(chunks, tail), cap, blank)
  {
    NoBandSplits(Concat(chunks), tail, cap);
    PushAllTracks(chunks, cap);
    var s := PushAll(FRESH, chunks, cap);
    DrainTracks(s, Concat(chunks), MarksOf(chunks), tail, s.forwarded, cap);
    FinishLogs(s, tail, Concat(chunks) + tail, AllMarks(chunks, tail), cap, blank);
  }

  lemma {:induction false} FinishLogs(s: Meter, tail: Text, text: Text, marks: Marks, cap: nat, blank: Text -> bool)
    requires |marks| == |text|
    requires Tracks(Drain(s.(pending := s.pending + tail), s.forwarded, cap), text, marks, cap)
    ensures Finish(s, tail, cap, blank).log == WholeLog(text, marks, cap, blank)
  {
    assert Metered([], text, marks, cap) + [] == Metered([], text, marks, cap);
  }

  /** One push of a text leaves the parser where the text does, band or no band. */
  lemma {:induction false} OnePushTracks(text: Text, cap: nat)
    requires text != []
    ensures Tracks(PushAll(FRESH, [Chunk(text, true)], cap), text, Repeat(true, |text|), cap)
  {
    assert [Chunk(text, true)][..0] == [] && FRESH.pending + text == text;
    var fed := FRESH.(pending := text);
    UniformIsFlagged(fed, Repeat(true, |text|), true);
    PassesMetered(fed, Repeat(true, |text|), true, cap);
  }

  // ----- a text in two chunks

  /** Nothing is left to do: the pending text has no boundary and is no longer than a drain leaves it. */
  ghost predicate Drained(s: Meter, cap: nat) {
    && FindBoundary(s.pending).None?
    && (if s.discarding then Last3(s.pending) == s.pending else TextBytes(s.pending) <= cap)
  }

  lemma {:induction false} TailHasNoBoundary(text: Text)
    requires FindBoundary(text).None?
    ensures FindBoundary(Last3(text)).None? && Last3(Last3(text)) == Last3(text)
  {
    TailFindsBoundary(text, []);
    assert Last3(text) + [] == Last3(text) && text + [] == text;
  }

  lemma {:induction false} PassedHasNoBoundary(s: Meter, latest: bool, cap: nat)
    ensures FindBoundary(PassEvents(s, latest, cap).pending).None?
    ensures PassEvents(s, latest, cap).discarding == s.discarding
    decreases |s.pending|
  {
    var b := FindBoundary(s.pending);
    if b.Some? {
      PassedHasNoBoundary(PassEvent(s, b.value, latest, TextBytes(Before(s.pending, b.value)) <= cap), latest, cap);
    }
  }

  lemma {:induction false} TrimDrains(s: Meter, cap: nat)
    requires !s.discarding && FindBoundary(s.pending).None?
    ensures Drained(Trim(s, cap), cap)
  {
    TailHasNoBoundary(s.pending);
  }

  lemma {:induction false} DrainDrains(s: Meter, latest: bool, cap: nat)
    ensures Drained(Drain(s, latest, cap), cap)
  {
    var b := FindBoundary(s.pending);
    if !s.discarding {
      PassedHasNoBoundary(s, latest, cap);
      TrimDrains(PassEvents(s, latest, cap), cap);
    } else if b.None? {
      TailHasNoBoundary(s.pending);
    } else {
      PassedHasNoBoundary(EndDiscard(s, b.value, latest), latest, cap);
      TrimDrains(PassEvents(EndDiscard(s, b.value, latest), latest, cap), cap);
    }
  }

  /** A further drain changes nothing. */
  lemma DrainedStays(s: Meter, latest: bool, cap: nat)
    requires Drained(s, cap)
    ensures Drain(s, latest, cap) == s
  {
  }

  /** The end of a stream of two chunks, when decoding holds nothing back. */
  lemma {:induction false} TwoChunks(first: Text, second: Text, cap: nat, blank: Text -> bool)
    requires second != []
    ensures var s := PushAll(FRESH, [Chunk(first, true)], cap);
      var fed := s.(forwarded := Combined(s, second, true), pending := s.pending + second);
      var s' := Drain(fed, true, cap);
      Log([Chunk(first, true), Chunk(second, true)], [], cap, blank)
      == s'.log + if !s'.discarding && !blank(s'.pending) then [Event(s'.pending, s'.forwarded)] else []
  {
    var chunks: seq<Chunk> := [Chunk(first, true), Chunk(second, true)];
    assert chunks[..1] == [Chunk(first, true)];
    var s := PushAll(FRESH, [Chunk(first, true)], cap);
    var s' := Drain(s.(forwarded := Combined(s, second, true), pending := s.pending + second), true, cap);
    assert PushAll(FRESH, chunks, cap) == s';
    DrainDrains(s.(forwarded := Combined(s, second, true), pending := s.pending + second), true, cap);
    DrainedStays(s', s'.forwarded, cap);
    assert s'.pending + [] == s'.pending && s'.log + [] == s'.log;
  }

  /**
   Cut inside the separator of an event in the band into two chunks, a text is
   metered with fewer events, whatever was forwarded.
   */
  lemma {:induction false} BandDropsEvent(first: Text, second: Text, marks: Marks, cap: nat, blank: Text -> bool)
    requires first != [] && second != [] && |marks| == |first + second|
    requires TextBytes(Rest(first)) > cap && FindBoundary(Rest(first) + second).Some?
    requires TextBytes(Before(Rest(first) + second, FindBoundary(Rest(first) + second).value)) <= cap
    ensures |Log([Chunk(first, true), Chunk(second, true)], [], cap, blank)|
          < |WholeLog(first + second, marks, cap, blank)|
  {
    OnePushTracks(first, cap);
    TwoChunks(first, second, cap, blank);
    var m1, m2 := marks[..|first|], marks[|first|..];
    assert marks == m1 + m2;
    RestAppend(first, second);
    MeteredAppend([], first, m1, second, m2, cap);
    SameCount([], [], first, m1, Repeat(true, |first|), cap);
    var rest, s := Rest(first), PushAll(FRESH, [Chunk(first, true)], cap);
    var fed := s.(forwarded := Combined(s, second, true), pending := s.pending + second);
    DropsOne(fed, true, Metered([], first, m1, cap), rest, second, RestMarks(first, m1) + m2, cap);
  }

  /** How many events are added to a log depends neither on the log nor on what was forwarded. */
  lemma {:induction false} SameCount(logA: seq<Event>, logB: seq<Event>, text: Text, a: Marks, b: Marks, cap: nat)
    requires |a| == |text| && |b| == |text|
    ensures |Metered(logA, text, a, cap)| - |logA| == |Metered(logB, text, b, cap)| - |logB|
    decreases |text|
  {
    var boundary := FindBoundary(text);
    if boundary.Some? {
      var end, event := boundary.value.index + boundary.value.length, Before(text, boundary.value);
      FirstAdmitted(logA, text, a, cap);
      FirstAdmitted(logB, text, b, cap);
      SameCount(Admit(logA, event, a[..end], cap), Admit(logB, event, b[..end], cap), After(text, boundary.value),
        a[end..], b[end..], cap);
    }
  }

  /** The parser that discards skips the event that would have fitted. */
  lemma {:induction false} DropsOne(fed: Meter, latest: bool, log: seq<Event>, rest: Text, second: Text, marks: Marks,
                                    cap: nat)
    requires fed.discarding && fed.pending == Last3(rest) + second && FindBoundary(rest).None?
    requires |marks| == |rest + second| && FindBoundary(rest + second).Some?
    requires TextBytes(Before(rest + second, FindBoundary(rest + second).value)) <= cap
    ensures var s' := Drain(fed, latest, cap);
      && |s'.log| - |fed.log| < |Metered(log, rest + second, marks, cap)| - |log|
      && (s'.discarding <==> TextBytes(Rest(rest + second)) > cap)
      && (!s'.discarding ==> s'.pending == Rest(rest + second))
  {
    var whole := FindBoundary(rest + second).value;
    var next := DiscardedEvent(fed, rest, second, latest, cap);
    var uniform, end := Repeat(latest, |next.pending|), whole.index + whole.length;
    UniformIsFlagged(next, uniform, latest);
    PassesMetered(next, uniform, latest, cap);
    FirstAdmitted(log, rest + second, marks, cap);
    SameCount(next.log, Admit(log, Before(rest + second, whole), marks[..end], cap), next.pending, uniform,
      marks[end..], cap);
  }

  lemma {:induction false} FirstAdmitted(log: seq<Event>, text: Text, marks: Marks, cap: nat)
    requires |marks| == |text| && FindBoundary(text).Some?
    ensures var b := FindBoundary(text).value;
      var end := b.index + b.length;
      && Metered(log, text, marks, cap)
        == Metered(Admit(log, Before(text, b), marks[..end], cap), After(text, b), marks[end..], cap)
      && Rest(text) == Rest(After(text, b))
  {
  }

  /** ASCII text as units. */
  function Units(ascii: string): (text: Text)
    requires forall i | 0 <= i < |ascii| :: ' ' <= ascii[i] <= '~'
    ensures |text| == |ascii| && forall i | 0 <= i < |ascii| :: text[i] == ascii[i] as int
  {
    seq(|ascii|, i requires 0 <= i < |ascii| => ascii[i] as int)
  }

  const USAGE_LINE := "data:{\"usage\":{\"total_tokens\":7}}"

  lemma UsageLineIsPrintable()
    ensures forall i | 0 <= i < |USAGE_LINE| :: ' ' <= USAGE_LINE[i] <= '~'
  {
  }

  /** A line padded with spaces to `cap` units: what the reader of an event trims. */
  function Padded(line: Text, cap: nat): (event: Text)
    requires |line| <= cap
    ensures |event| == cap && event[..|line|] == line && forall i | |line| <= i < cap :: event[i] == 32
  {
    line + seq(cap - |line|, i => 32)
  }

  /** A usage report of `cap` units. */
  function UsageEvent(cap: nat): (event: Text)
    requires cap >= |USAGE_LINE|
    ensures |event| == cap && event[..|USAGE_LINE|] == Units(USAGE_LINE)
    ensures forall i | 0 <= i < cap :: 32 <= event[i] <= 126
  {
    UsageLineIsPrintable();
    var event := Padded(Units(USAGE_LINE), cap);
    assert forall i | 0 <= i < |USAGE_LINE| :: event[i] == event[..|USAGE_LINE|][i];
    event
  }

  lemma {:induction false} FullEventEnds(event: Text)
    requires forall i | 0 <= i < |event| :: event[i] >= 32
    ensures FindBoundary(event + [LF]).None? && FindBoundary(event + [LF] + [LF]) == Some(Boundary(|event|, 2))
  {
    var first, text := event + [LF], event + [LF] + [LF];
    forall i: nat ensures SeparatorAt(first, i) == 0 && (i < |event| ==> SeparatorAt(text, i) == 0) {
      if i < |event| {
        assert first[i] == text[i] >= 32;
      }
    }
    assert text[|event|] == text[|event| + 1] == LF;
    OnlyLeftmost(first, None);
    OnlyLeftmost(text, Some(Boundary(|event|, 2)));
  }

  /**
   A usage report that fills the cap, cut inside its separator into two
   forwarded chunks, is not metered.
   */
  lemma {:induction false} FullEventIsDropped(cap: nat, blank: Text -> bool)
    requires cap >= |USAGE_LINE|
    ensures var first := UsageEvent(cap) + [LF];
      var chunks := [Chunk(first, true), Chunk([LF], true)];
      && !NoBand(first + [LF], cap)
      && |Log(chunks, [], cap, blank)| < |WholeLog(first + [LF], Repeat(true, cap + 2), cap, blank)|
      && (blank([]) ==>
            && Log(chunks, [], cap, blank) == []
            && WholeLog(first + [LF], Repeat(true, cap + 2), cap, blank) == [Event(UsageEvent(cap), true)])
  {
    var event, first := UsageEvent(cap), UsageEvent(cap) + [LF];
    AsciiBytes(event);
    AsciiBytes(first);
    FullEventEnds(event);
    assert Before(first + [LF], Boundary(cap, 2)) == event;
    BandDropsEvent(first, [LF], Repeat(true, cap + 2), cap, blank);
    OneEvent(event, first + [LF], Repeat(true, cap + 2), cap, blank);
  }

  /** A text that is one event and its separator. */
  lemma {:induction false} OneEvent(event: Text, text: Text, marks: Marks, cap: nat, blank: Text -> bool)
    requires |marks| == |text| && All(marks) && TextBytes(event) <= cap
    requires FindBoundary(text) == Some(Boundary(|event|, 2)) && |text| == |event| + 2 &&
      Before(text, Boundary(|event|, 2)) == event
    ensures blank([]) ==> WholeLog(text, marks, cap, blank) == [Event(event, true)]
  {
    FirstAdmitted([], text, marks, cap);
    assert After(text, Boundary(|event|, 2)) == [] && marks[..|text|] == marks;
    assert [] + [Event(event, true)] == [Event(event, true)];
  }

  lemma TwoTexts(first: Text, second: Text)
    ensures Concat([Chunk(first, true), Chunk(second, true)]) == first + second
  {
    var chunks: seq<Chunk> := [Chunk(first, true), Chunk(second, true)];
    assert chunks[..1] == [Chunk(first, true)] && chunks[..1][..0] == [];
    assert Concat(chunks[..1][..0]) == [] && Concat(chunks[..1]) == first;
  }

  /** With nothing held back, the marks are those of the chunks. */
  lemma {:induction false} LogOfChunks(chunks: seq<Chunk>, cap: nat, blank: Text -> bool)
    requires NoBand(Concat(chunks), cap)
    ensures Log(chunks, [], cap, blank) == WholeLog(Concat(chunks), MarksOf(chunks), cap, blank)
  {
    assert Concat(chunks) + [] == Concat(chunks);
    LogOfText(chunks, [], cap, blank);
    assert AllMarks(chunks, []) == MarksOf(chunks);
  }

  /**
   What is metered depends only on the text and on which of its units were
   forwarded, however it is cut into chunks, exactly when no event is in the band.
   */
  lemma {:induction false} ChunkingIrrelevantIff(text: Text, cap: nat, blank: Text -> bool)
    ensures NoBand(text, cap) <==>
      forall chunks | Concat(chunks) == text ::
        Log(chunks, [], cap, blank) == WholeLog(text, MarksOf(chunks), cap, blank)
  {
    if NoBand(text, cap) {
      forall chunks | Concat(chunks) == text
        ensures Log(chunks, [], cap, blank) == WholeLog(text, MarksOf(chunks), cap, blank)
      {
        LogOfChunks(chunks, cap, blank);
      }
    } else {
      var first, second := BandSplit(text, cap);
      TwoTexts(first, second);
      var chunks := [Chunk(first, true), Chunk(second, true)];
      BandDropsEvent(first, second, MarksOf(chunks), cap, blank);
      assert Log(chunks, [], cap, blank) != WholeLog(text, MarksOf(chunks), cap, blank);
    }
  }
}
