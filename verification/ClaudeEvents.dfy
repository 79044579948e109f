/**
 The event protocol that a Claude client reads: what a well-bracketed stream
 is, and the content blocks a client reassembles from it.
 */
module ClaudeEvents {
  import opened Wrappers

  datatype StopReason = EndTurn | MaxTokens | ToolUse | StopSequence

  /** An identifier sent upstream, one made from the tool index, or a random one. */
  datatype ToolId = Given(text: string) | FromIndex(index: int) | Random

  datatype Block = TextBlock | ToolBlock(id: ToolId, name: string)

  datatype Event =
    | MessageStart
    | BlockStart(index: nat, block: Block)
    | TextDelta(index: nat, text: string)
    | ArgsDelta(index: nat, json: string)
    | BlockStop(index: nat)
    | MessageDelta(reason: StopReason)
    | MessageStop
    | StreamError

  // ----- brackets

  datatype Stage = NotStarted | Streaming | Ending | Completed | Errored

  /** What a client knows after some events; `blocks` counts the blocks so far. */
  datatype Scan = Scan(stage: Stage, blocks: nat, open: Option<Block>, toolBlocks: nat) | Malformed

  function ScanEvent(scan: Scan, event: Event): Scan {
    match scan
    case Malformed => Malformed
    case Scan(stage, blocks, open, toolBlocks) =>
      match event
      case MessageStart =>
        if stage.NotStarted? then scan.(stage := Streaming) else Malformed
      case BlockStart(index, block) =>
        if stage.Streaming? && open.None? && index == blocks
        then Scan(stage, blocks + 1, Some(block), if block.ToolBlock? then toolBlocks + 1 else toolBlocks)
        else Malformed
      case TextDelta(index, _) =>
        if stage.Streaming? && open.Some? && open.value.TextBlock? && index + 1 == blocks then scan else Malformed
      case ArgsDelta(index, _) =>
        if stage.Streaming? && open.Some? && open.value.ToolBlock? && index + 1 == blocks then scan else Malformed
      case BlockStop(index) =>
        if stage.Streaming? && open.Some? && index + 1 == blocks then scan.(open := None) else Malformed
      case MessageDelta(reason) =>
        if stage.Streaming? && open.None? && blocks > 0 && (toolBlocks > 0 ==> reason.ToolUse?)
        then scan.(stage := Ending) else Malformed
      case MessageStop => if stage.Ending? then scan.(stage := Completed) else Malformed
      case StreamError => if stage.Streaming? then scan.(stage := Errored) else Malformed
  }

  function ScanEvents(events: seq<Event>): Scan {
    if events == [] then Scan(NotStarted, 0, None, 0)
    else ScanEvent(ScanEvents(events[..|events| - 1]), events[|events| - 1])
  }

  /** The events of one block sent as a whole. */
  function WholeBlock(index: nat, block: Block, json: string): seq<Event> {
    [BlockStart(index, block)] + (if json == "" then [] else [ArgsDelta(index, json)]) + [BlockStop(index)]
  }

  // ----- reassembly

  datatype Content = TextPart(text: string) | ToolPart(id: ToolId, name: string, json: string)

  function ReadEvent(contents: seq<Content>, event: Event): seq<Content> {
    match event
    case BlockStart(_, TextBlock) => contents + [TextPart("")]
    case BlockStart(_, ToolBlock(id, name)) => contents + [ToolPart(id, name, "")]
    case TextDelta(index, text) =>
      if index < |contents| && contents[index].TextPart?
      then contents[index := TextPart(contents[index].text + text)] else contents
    case ArgsDelta(index, json) =>
      if index < |contents| && contents[index].ToolPart?
      then contents[index := contents[index].(json := contents[index].json + json)] else contents
    case _ => contents
  }

  function Reassemble(events: seq<Event>): seq<Content> {
    if events == [] then []
    else ReadEvent(Reassemble(events[..|events| - 1]), events[|events| - 1])
  }

  /** All text of a message, in order. */
  function TextOf(contents: seq<Content>): string {
    if contents == [] then ""
    else
      var last := contents[|contents| - 1];
      TextOf(contents[..|contents| - 1]) + (if last.TextPart? then last.text else "")
  }

  lemma AppendEvent(events: seq<Event>, event: Event)
    ensures ScanEvents(events + [event]) == ScanEvent(ScanEvents(events), event)
    ensures Reassemble(events + [event]) == ReadEvent(Reassemble(events), event)
  {
    assert (events + [event])[..|events|] == events;
  }

  lemma AppendContent(contents: seq<Content>, content: Content)
    ensures TextOf(contents + [content]) == TextOf(contents) + (if content.TextPart? then content.text else "")
  {
    assert (contents + [content])[..|contents|] == contents;
  }

  /** Growing the newest block adds its new text, if any, at the end of the message. */
  lemma GrowLastContent(contents: seq<Content>, text: string)
    requires contents != []
    ensures var n := |contents| - 1;
      TextOf(contents[n := match contents[n]
                           case TextPart(before) => TextPart(before + text)
                           case ToolPart(id, name, json) => ToolPart(id, name, json + text)])
      == TextOf(contents) + (if contents[n].TextPart? then text else "")
  {
    var n := |contents| - 1;
    var grown := match contents[n]
                 case TextPart(before) => TextPart(before + text)
                 case ToolPart(id, name, json) => ToolPart(id, name, json + text);
    assert contents[n := grown] == contents[..n] + [grown];
    AppendContent(contents[..n], grown);
  }

  predicate HasToolPart(contents: seq<Content>) {
    exists i :: 0 <= i < |contents| && contents[i].ToolPart?
  }

  /** A client that accepted the events has one content per block, and knows whether there are tools. */
  lemma {:induction false} ScanMatchesContents(events: seq<Event>)
    requires ScanEvents(events).Scan?
    ensures |Reassemble(events)| == ScanEvents(events).blocks
    ensures ScanEvents(events).toolBlocks > 0 <==> HasToolPart(Reassemble(events))
  {
    if events != [] {
      var n := |events| - 1;
      ScanMatchesContents(events[..n]);
      var before, after := Reassemble(events[..n]), Reassemble(events);
      assert |before| <= |after| && forall i | 0 <= i < |before| :: before[i].ToolPart? <==> after[i].ToolPart?;
      if HasToolPart(before) {
        var i :| 0 <= i < |before| && before[i].ToolPart?;
        assert after[i].ToolPart?;
      }
      if |after| > |before| && after[|before|].ToolPart? { assert HasToolPart(after); }
    }
  }
}
