/** The translator that runs beside a response: its fields change with every delta it is given. */
module ClaudeTranslator {
  import opened Wrappers
  import opened ClaudeEvents
  import opened ClaudeBridge
  import opened ClaudeInvariant
  import opened ClaudeRefinement

  class Translator {
    var nextContentIndex: nat
    var textBlockIndex: Option<nat>
    var activeToolIndex: Option<int>
    var toolStates: map<int, Tool>
    var stopReason: StopReason
    var written: seq<Event>

    /** The fields as one value of the specification. */
    function State(): Stream
      reads this
    {
      Stream(nextContentIndex, textBlockIndex, activeToolIndex, toolStates, stopReason, written)
    }

    constructor ()
      ensures State() == OPENED
    {
      nextContentIndex, textBlockIndex, activeToolIndex := 0, None, None;
      toolStates, stopReason, written := map[], EndTurn, [MessageStart];
    }

    method Write(event: Event)
      modifies this`written
      ensures State() == Emit(old(State()), event)
    {
      written := written + [event];
    }

    method CloseTextBlock()
      modifies this
      ensures State() == CloseText(old(State()))
    {
      if textBlockIndex.Some? {
        Write(BlockStop(textBlockIndex.value));
        textBlockIndex := None;
      }
    }

    method FinalizeActiveTool()
      modifies this
      ensures State() == FinalizeActive(old(State()))
    {
      if activeToolIndex.None? { return; }
      var k := activeToolIndex.value;
      if k in toolStates && toolStates[k].started && !toolStates[k].done {
        Write(BlockStop(toolStates[k].blockIndex));
        toolStates := toolStates[k := toolStates[k].(done := true)];
      }
      activeToolIndex := None;
    }

    method EnsureTextBlock() returns (index: nat)
      modifies this
      ensures State() == EnsureText(old(State())) && textBlockIndex == Some(index)
    {
      FinalizeActiveTool();
      if textBlockIndex.None? {
        Write(BlockStart(nextContentIndex, TextBlock));
        textBlockIndex := Some(nextContentIndex);
        nextContentIndex := nextContentIndex + 1;
      }
      index := textBlockIndex.value;
    }

    method EmitToolArguments(k: int)
      requires k in toolStates && toolStates[k].sentChars <= |toolStates[k].arguments|
      modifies this
      ensures State() == EmitArguments(old(State()), k)
    {
      var tool := toolStates[k];
      var pending := tool.arguments[tool.sentChars..];
      if pending == "" { return; }
      toolStates := toolStates[k := tool.(sentChars := |tool.arguments|)];
      Write(ArgsDelta(tool.blockIndex, pending));
    }

    method StartToolBlock(k: int)
      requires k in toolStates
      modifies this
      ensures State() == StartTool(old(State()), k)
    {
      var tool := toolStates[k];
      CloseTextBlock();
      if activeToolIndex.Some? && activeToolIndex.value != k {
        FinalizeActiveTool();
      }
      toolStates := toolStates[k := tool.(blockIndex := nextContentIndex, started := true)];
      Write(BlockStart(nextContentIndex, ToolBlock(if tool.id == "" then FromIndex(k) else Given(tool.id), tool.name)));
      nextContentIndex := nextContentIndex + 1;
      activeToolIndex := Some(k);
    }

    method HandleToolDelta(delta: ToolDelta)
      requires SentWithin(toolStates)
      modifies this
      ensures State() == HandleTool(old(State()), delta)
    {
      var k := if delta.index.Some? then delta.index.value else |toolStates|;
      var tool := Merge(if k in toolStates then toolStates[k] else NEW_TOOL, delta);
      toolStates := toolStates[k := tool];
      assert State() == old(State()).(tools := old(toolStates)[k := tool]);
      if tool.done || (!tool.started && tool.name == "") { return; }
      if !tool.started {
        StartToolBlock(k);
      }
      EmitToolArguments(k);
    }

    method HandleTextDelta(text: string)
      requires SentWithin(toolStates)
      modifies this
      ensures State() == Step(old(State()), OnText(text))
    {
      if text != "" {
        var index := EnsureTextBlock();
        Write(TextDelta(index, text));
      }
    }

    method HandleToolDeltas(deltas: seq<ToolDelta>)
      requires SentWithin(toolStates)
      modifies this
      ensures State() == Run(old(State()), ToolActions(deltas))
    {
      ghost var before := State();
      for i := 0 to |deltas|
        invariant SentWithin(toolStates)
        invariant State() == Run(before, ToolActions(deltas[..i]))
      {
        HandleToolDelta(deltas[i]);
        NextToolAction(before, deltas, i);
      }
      assert deltas[..|deltas|] == deltas;
    }

    /** One data payload: text first, then every tool delta, then the finish reason. */
    method HandleChunk(chunk: Chunk)
      requires SentWithin(toolStates)
      modifies this
      ensures State() == Run(old(State()), ChunkActions(chunk))
    {
      ChunkRuns(State(), chunk);
      HandleTextDelta(chunk.text);
      HandleToolDeltas(chunk.tools);
      if chunk.finishReason != "" {
        stopReason := MapStopReason(chunk.finishReason);
      }
    }

    /** The end of a stream that did not fail: open blocks are closed and late tools sent. */
    method FinishStream(codec: Codec) returns (toolUseCount: nat)
      modifies this
      ensures State() == Finish(codec, old(State()))
      ensures toolUseCount == |UsedTools(toolStates)|
    {
      FinalizeActiveTool();
      CloseTextBlock();
      var keys := SortKeys(toolStates.Keys);
      EmitLateTools(codec, keys);
      toolUseCount := FinishMessage();
    }

    method EmitLateTools(codec: Codec, keys: seq<int>)
      requires forall i | 0 <= i < |keys| :: keys[i] in toolStates
      modifies this
      ensures State() == EmitAllLate(codec, old(State()), keys)
    {
      for i := 0 to |keys|
        invariant toolStates.Keys == old(toolStates.Keys)
        invariant forall j | 0 <= j < |keys| :: keys[j] in toolStates
        invariant EmitAllLate(codec, State(), keys[i..]) == EmitAllLate(codec, old(State()), keys)
      {
        assert keys[i..][0] == keys[i] && keys[i..][1..] == keys[i + 1..];
        EmitLateTool(codec, keys[i]);
      }
    }

    method EmitLateTool(codec: Codec, k: int)
      requires k in toolStates
      modifies this
      ensures State() == EmitLate(codec, old(State()), k)
    {
      var tool := toolStates[k];
      if tool.started || (tool.name == "" && tool.arguments == "") { return; }
      var content := LateContent(codec, tool);
      var index := nextContentIndex;
      nextContentIndex := nextContentIndex + 1;
      Write(BlockStart(index, ToolBlock(content.id, content.name)));
      if content.json != "" {
        Write(ArgsDelta(index, content.json));
      }
      Write(BlockStop(index));
      assert written == old(written) + WholeBlock(index, ToolBlock(content.id, content.name), content.json);
      toolStates := toolStates[k := tool.(done := true)];
    }

    /** Closes the message: its stop reason is tool use when any tool was sent. */
    method FinishMessage() returns (toolUseCount: nat)
      modifies this
      ensures State() == CloseMessage(old(State()))
      ensures toolStates == old(toolStates) && toolUseCount == |UsedTools(toolStates)|
    {
      toolUseCount := |set k | k in toolStates && (toolStates[k].started || toolStates[k].done)|;
      if toolUseCount > 0 {
        stopReason := ToolUse;
      }
      if nextContentIndex == 0 {
        Write(BlockStart(0, TextBlock));
        Write(BlockStop(0));
        nextContentIndex := 1;
      }
      Write(MessageDelta(stopReason));
      Write(MessageStop);
    }

    /** The end of a stream that failed. */
    method FailStream()
      modifies this
      ensures State() == Fail(old(State()))
    {
      Write(StreamError);
    }
  }

  /** The least key comes first. */
  lemma {:induction false} FirstKey(keys: set<int>, k: int)
    requires k in keys && forall j | j in keys :: k <= j
    ensures SortedKeys(keys) == [k] + SortedKeys(keys - {k})
  {
  }

  lemma MovedOver(sorted: seq<int>, k: int, later: seq<int>)
    ensures sorted + ([k] + later) == (sorted + [k]) + later
  {
  }

  method SortKeys(keys: set<int>) returns (sorted: seq<int>)
    ensures sorted == SortedKeys(keys)
  {
    sorted := [];
    var rest := keys;
    while rest != {}
      invariant sorted + SortedKeys(rest) == SortedKeys(keys)
      decreases rest
    {
      var k := PickLeast(rest);
      FirstKey(rest, k);
      MovedOver(sorted, k, SortedKeys(rest - {k}));
      rest := rest - {k};
      sorted := sorted + [k];
    }
    assert sorted + [] == sorted;
  }

  method PickLeast(keys: set<int>) returns (least: int)
    requires keys != {}
    ensures least in keys && forall k | k in keys :: least <= k
  {
    HasLeastKey(keys);
    least :| least in keys && forall k | k in keys :: least <= k;
  }

  /**
   A whole translation: what is written is well-bracketed, carries exactly the
   text that arrived, and reports the number of tool blocks written.
   */
  method TranslateStream(codec: Codec, chunks: seq<Chunk>, failed: bool) returns (events: seq<Event>, toolUseCount: nat)
    ensures var s := Run(OPENED, Flatten(chunks));
      events == (if failed then Fail(s) else Finish(codec, s)).events
    ensures var scan := ScanEvents(events);
      if failed then scan.Scan? && scan.stage.Errored?
      else scan.Scan? && scan.stage.Completed? && scan.blocks > 0 && scan.open.None? && scan.toolBlocks == toolUseCount
    ensures TextOf(Reassemble(events)) == TextReceived(Flatten(chunks))
  {
    var translator := new Translator();
    for i := 0 to |chunks|
      invariant translator.State() == Run(OPENED, Flatten(chunks[..i]))
      invariant SentWithin(translator.toolStates)
    {
      translator.HandleChunk(chunks[i]);
      assert chunks[..i + 1][..i] == chunks[..i];
      RunAppend(OPENED, Flatten(chunks[..i]), ChunkActions(chunks[i]));
    }
    assert chunks[..|chunks|] == chunks;
    toolUseCount := 0;
    FinishConservesText(codec, Flatten(chunks));
    FailConservesText(Flatten(chunks));
    if failed {
      ErroredRunIsBracketed(Flatten(chunks));
      translator.FailStream();
    } else {
      CompletedRunIsBracketed(codec, Flatten(chunks));
      toolUseCount := translator.FinishStream(codec);
    }
    events := translator.written;
  }

  lemma RunLast(s: Stream, actions: seq<Action>, action: Action)
    requires SentWithin(s.tools)
    ensures Run(s, actions + [action]) == Step(Run(s, actions), action)
  {
    assert (actions + [action])[..|actions|] == actions;
  }

  lemma RunOne(s: Stream, action: Action)
    requires SentWithin(s.tools)
    ensures Run(s, [action]) == Step(s, action)
  {
    assert [action][..0] == [];
  }

  /** The steps of one payload. */
  lemma {:induction false} ChunkRuns(s: Stream, chunk: Chunk)
    requires SentWithin(s.tools)
    ensures Run(s, ChunkActions(chunk))
         == HandleReason(Run(Step(s, OnText(chunk.text)), ToolActions(chunk.tools)), chunk.finishReason)
  {
    var text, tools := [OnText(chunk.text)], ToolActions(chunk.tools);
    RunOne(s, OnText(chunk.text));
    RunAppend(s, text, tools);
    RunLast(s, text + tools, OnReason(chunk.finishReason));
  }

  lemma {:induction false} NextToolAction(s: Stream, deltas: seq<ToolDelta>, i: nat)
    requires SentWithin(s.tools) && i < |deltas|
    ensures Run(s, ToolActions(deltas[..i + 1])) == HandleTool(Run(s, ToolActions(deltas[..i])), deltas[i])
  {
    assert deltas[..i + 1][..i] == deltas[..i];
    RunLast(s, ToolActions(deltas[..i]), OnTool(deltas[i]));
  }
}
