/** The event-stream parser as it runs: a pending buffer that every chunk extends and drains. */
module SseParser {
  import opened Wrappers
  import opened SseEvents
  import opened SseMeter
  import opened TextUnits

  const MIN_CAP: nat := 4096

  // ----- the search for a boundary

  /** `text` holds `separator` at `i`. */
  predicate Occurs(separator: Text, text: Text, i: nat) {
    i + |separator| <= |text| && text[i..i + |separator|] == separator
  }

  method IndexOf(text: Text, separator: Text) returns (index: Option<nat>)
    ensures index.Some? ==> Occurs(separator, text, index.value) && forall i: nat | i < index.value ::
      !Occurs(separator, text, i)
    ensures index.None? ==> forall i: nat :: !Occurs(separator, text, i)
  {
    var i: nat := 0;
    while i + |separator| <= |text|
      invariant forall j: nat | j < i :: !Occurs(separator, text, j)
    {
      if text[i..i + |separator|] == separator {
        return Some(i);
      }
      i := i + 1;
    }
    index := None;
  }

  const CRLF_CRLF: Text := [CR, LF, CR, LF]
  const LF_LF: Text := [LF, LF]
  const CR_CR: Text := [CR, CR]

  lemma SeparatorOccurs(text: Text, i: nat)
    ensures Occurs(CRLF_CRLF, text, i) <==> SeparatorAt(text, i) == 4
    ensures Occurs(LF_LF, text, i) || Occurs(CR_CR, text, i) <==> SeparatorAt(text, i) == 2
  {
    if i + 4 <= |text| {
      assert text[i..i + 4] == [text[i], text[i + 1], text[i + 2], text[i + 3]];
    }
    if i + 2 <= |text| {
      assert text[i..i + 2] == [text[i], text[i + 1]];
    }
  }

  /** Of the separators that occur, the leftmost one. */
  method FindSseEventBoundary(text: Text) returns (boundary: Option<Boundary>)
    ensures boundary == FindBoundary(text)
  {
    var separators := [CRLF_CRLF, LF_LF, CR_CR];
    boundary := None;
    for k := 0 to 3
      invariant boundary.None? ==> forall j, i: nat | 0 <= j < k :: !Occurs(separators[j], text, i)
      invariant boundary.Some? ==>
        && (exists j | 0 <= j < k ::
          Occurs(separators[j], text, boundary.value.index) && boundary.value.length == |separators[j]|)
        && (forall j, i: nat | 0 <= j < k && i < boundary.value.index :: !Occurs(separators[j], text, i))
    {
      var index := IndexOf(text, separators[k]);
      if index.Some? && (boundary.None? || index.value < boundary.value.index) {
        boundary := Some(Boundary(index.value, |separators[k]|));
      }
    }
    LeftmostOfThree(text, boundary, separators);
  }

  lemma LeftmostOfThree(text: Text, boundary: Option<Boundary>, separators: seq<Text>)
    requires separators == [CRLF_CRLF, LF_LF, CR_CR]
    requires boundary.None? ==> forall j, i: nat | 0 <= j < 3 :: !Occurs(separators[j], text, i)
    requires boundary.Some? ==>
      && (exists j | 0 <= j < 3 ::
        Occurs(separators[j], text, boundary.value.index) && boundary.value.length == |separators[j]|)
      && (forall j, i: nat | 0 <= j < 3 && i < boundary.value.index :: !Occurs(separators[j], text, i))
    ensures boundary == FindBoundary(text)
  {
    forall i: nat | boundary.None? || i < boundary.value.index ensures SeparatorAt(text, i) == 0 {
      assert !Occurs(separators[0], text, i) && !Occurs(separators[1], text, i) && !Occurs(separators[2], text, i);
      SeparatorOccurs(text, i);
    }
    if boundary.Some? {
      SeparatorOccurs(text, boundary.value.index);
    }
    OnlyLeftmost(text, boundary);
  }

  // ----- the parser

  class Parser {
    const cap: nat
    var pending: Text
    var pendingForwarded: bool
    var discardingOversizedEvent: bool
    var log: seq<Event>

    function State(): Meter
      reads this
    {
      Meter(pending, pendingForwarded, discardingOversizedEvent, log)
    }

    constructor (configured: nat)
      ensures State() == FRESH && cap == if configured < 4096 then 4096 else configured
    {
      cap := if configured < MIN_CAP then MIN_CAP else configured;
      pending, pendingForwarded, discardingOversizedEvent, log := [], true, false, [];
    }

    method DrainEvents(latest: bool)
      modifies this
      ensures State() == PassEvents(old(State()), latest, cap)
    {
      var boundary := FindSseEventBoundary(pending);
      while boundary.Some?
        invariant boundary == FindBoundary(pending)
        invariant PassEvents(State(), latest, cap) == PassEvents(old(State()), latest, cap)
        decreases |pending|
      {
        PassOne(boundary.value, latest);
        boundary := FindSseEventBoundary(pending);
      }
    }

    /** The event at the front is metered when it fits. */
    method PassOne(boundary: Boundary, latest: bool)
      requires FindBoundary(pending) == Some(boundary)
      modifies this
      ensures PassEvents(State(), latest, cap) == PassEvents(old(State()), latest, cap)
      ensures |pending| < |old(pending)|
    {
      var eventText := pending[..boundary.index];
      if TextBytes(eventText) <= cap {
        log := log + [Event(eventText, pendingForwarded)];
      }
      pending := pending[boundary.index + boundary.length..];
      pendingForwarded := if pending == [] then true else latest;
      assert State() == PassEvent(old(State()), boundary, latest, TextBytes(eventText) <= cap);
    }

    method DrainPending(latest: bool)
      modifies this
      ensures State() == Drain(old(State()), latest, cap)
    {
      if discardingOversizedEvent {
        var discarded := FindSseEventBoundary(pending);
        if discarded.None? {
          pending := Last3(pending);
          return;
        }
        pending := pending[discarded.value.index + discarded.value.length..];
        pendingForwarded := if pending == [] then true else latest;
        discardingOversizedEvent := false;
        assert State() == EndDiscard(old(State()), discarded.value, latest);
      }
      DrainEvents(latest);
      TrimPending();
    }

    method TrimPending()
      modifies this
      ensures State() == Trim(old(State()), cap)
    {
      if TextBytes(pending) > cap {
        pending := Last3(pending);
        discardingOversizedEvent := true;
      }
    }

    method PushText(decoded: Text, forwarded: bool)
      requires cap >= MIN_CAP && TextBytes(pending) <= cap
      modifies this
      ensures State() == Push(old(State()), decoded, forwarded, cap)
      ensures TextBytes(pending) <= cap
    {
      PendingWithinCap(State(), decoded, forwarded, cap);
      if decoded != [] {
        pendingForwarded := if pending == [] then forwarded else pendingForwarded && forwarded;
        pending := pending + decoded;
        DrainPending(forwarded);
      }
    }

    method FinishText(tail: Text, blank: Text -> bool)
      modifies this
      ensures State() == Finish(old(State()), tail, cap, blank)
    {
      pending := pending + tail;
      DrainPending(pendingForwarded);
      if !discardingOversizedEvent && !blank(pending) {
        log := log + [Event(pending, pendingForwarded)];
      }
      pending := [];
    }
  }

  /** A whole response: without an event in the band, the events metered are those of its text. */
  method MeterResponse(chunks: seq<Chunk>, tail: Text, configured: nat, blank: Text -> bool)
    returns (log: seq<Event>, cap: nat)
    ensures cap >= MIN_CAP && log == Log(chunks, tail, cap, blank)
    ensures NoBand(Concat(chunks) + tail, cap) ==>
      log == WholeLog(Concat(chunks) + tail, AllMarks(chunks, tail), cap, blank)
  {
    var parser := new Parser(configured);
    cap := parser.cap;
    for i := 0 to |chunks|
      invariant parser.State() == PushAll(FRESH, chunks[..i], cap)
      invariant TextBytes(parser.pending) <= cap
    {
      parser.PushText(chunks[i].text, chunks[i].forwarded);
      assert chunks[..i + 1][..i] == chunks[..i];
    }
    assert chunks[..|chunks|] == chunks;
    parser.FinishText(tail, blank);
    log := parser.log;
    if NoBand(Concat(chunks) + tail, cap) {
      LogOfText(chunks, tail, cap, blank);
    }
  }
}
