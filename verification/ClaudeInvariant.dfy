/**
 What every step of the stream translation keeps: the events are
 well-bracketed, and they carry exactly the text and the tool arguments that
 arrived.
 */
module ClaudeInvariant {
  import opened Wrappers
  import opened ClaudeEvents
  import opened ClaudeBridge

  function StartedTools(tools: map<int, Tool>): set<int> {
    set k | k in tools && tools[k].started
  }

  function Contents(s: Stream): seq<Content> { Reassemble(s.events) }

  /** At most one block is open, it is the newest one, and the stream knows which it is. */
  ghost predicate Bracketed(s: Stream) {
    var scan := ScanEvents(s.events);
    && scan.Scan? && scan.stage.Streaming? && scan.blocks == s.next
    && scan.toolBlocks == |StartedTools(s.tools)|
    && (s.textBlock.Some? ==> s.activeTool.None? && s.textBlock.value + 1 == s.next && scan.open == Some(TextBlock))
    && (s.activeTool.Some? ==>
          && s.activeTool.value in s.tools
          && var tool := s.tools[s.activeTool.value];
             tool.started && !tool.done && tool.blockIndex + 1 == s.next
             && scan.open.Some? && scan.open.value.ToolBlock?)
    && (s.textBlock.None? && s.activeTool.None? ==> scan.open.None?)
  }

  /** A block carries the part of the tool's arguments that was sent. */
  predicate ToolMatches(s: Stream, k: int, contents: seq<Content>)
    requires k in s.tools && SentWithin(s.tools)
  {
    var tool := s.tools[k];
    if tool.started then
      && tool.blockIndex < s.next <= |contents| && contents[tool.blockIndex].ToolPart?
      && contents[tool.blockIndex].json == tool.arguments[..tool.sentChars]
      && (!tool.done ==> s.activeTool == Some(k))
    else !tool.done && tool.sentChars == 0
  }

  ghost predicate Core(s: Stream) {
    && SentWithin(s.tools)
    && Bracketed(s)
    && |Contents(s)| == s.next
    && (s.textBlock.Some? ==> Contents(s)[s.textBlock.value].TextPart?)
    && (forall k | k in s.tools :: ToolMatches(s, k, Contents(s)))
    && (forall j, k | j in s.tools && k in s.tools && s.tools[j].started && s.tools[k].started
                      && s.tools[j].blockIndex == s.tools[k].blockIndex :: j == k)
  }

  /** Between deltas a tool without a block has no name yet, and an open block is up to date. */
  predicate Rested(s: Stream) {
    forall k | k in s.tools ::
      && (!s.tools[k].started ==> s.tools[k].name == "")
      && (s.tools[k].started && !s.tools[k].done ==> s.tools[k].sentChars == |s.tools[k].arguments|)
  }

  ghost predicate Inv(s: Stream) { Core(s) && Rested(s) }

  lemma SameStarted(tools: map<int, Tool>, tools': map<int, Tool>)
    requires tools.Keys == tools'.Keys && forall k | k in tools :: tools[k].started == tools'[k].started
    ensures StartedTools(tools) == StartedTools(tools')
  {
    forall k ensures k in StartedTools(tools) <==> k in StartedTools(tools') {
      assert k in tools <==> k in tools.Keys;
      assert k in tools' <==> k in tools'.Keys;
    }
  }

  lemma OpenedCore()
    ensures Inv(OPENED)
  {
    AppendEvent([], MessageStart);
    assert [] + [MessageStart] == [MessageStart];
    assert StartedTools(map[]) == {};
  }

  lemma CloseTextCore(s: Stream)
    requires Core(s)
    ensures var s' := CloseText(s);
      Core(s') && s'.textBlock.None? && s'.tools == s.tools && s'.activeTool == s.activeTool &&
        Contents(s') == Contents(s)
  {
    if s.textBlock.Some? { AppendEvent(s.events, BlockStop(s.textBlock.value)); }
  }

  lemma FinalizeActiveCore(s: Stream)
    requires Core(s)
    ensures var s' := FinalizeActive(s);
      && Core(s') && s'.activeTool.None? && s'.textBlock == s.textBlock && Contents(s') == Contents(s)
      && s'.tools == Deactivated(s)
      && (Rested(s) ==> Rested(s'))
  {
    if s.activeTool.Some? {
      var s' := FinalizeActive(s);
      AppendEvent(s.events, BlockStop(s.tools[s.activeTool.value].blockIndex));
      SameStarted(s.tools, s'.tools);
      assert Contents(s') == Contents(s);
      forall k | k in s'.tools ensures ToolMatches(s', k, Contents(s')) {
        assert ToolMatches(s, k, Contents(s));
      }
    }
  }

  lemma OpenText(s: Stream)
    requires Core(s) && s.textBlock.None? && s.activeTool.None?
    ensures var s' := Emit(s, BlockStart(s.next, TextBlock)).(textBlock := Some(s.next), next := s.next + 1);
      Core(s') && TextOf(Contents(s')) == TextOf(Contents(s))
  {
    var s' := Emit(s, BlockStart(s.next, TextBlock)).(textBlock := Some(s.next), next := s.next + 1);
    AppendEvent(s.events, BlockStart(s.next, TextBlock));
    AppendContent(Contents(s), TextPart(""));
    forall k | k in s'.tools ensures ToolMatches(s', k, Contents(s')) {
      assert ToolMatches(s, k, Contents(s));
    }
  }

  lemma SendText(s: Stream, text: string)
    requires Core(s) && s.textBlock.Some?
    ensures var s' := Emit(s, TextDelta(s.textBlock.value, text));
      Core(s') && TextOf(Contents(s')) == TextOf(Contents(s)) + text
  {
    var s' := Emit(s, TextDelta(s.textBlock.value, text));
    var contents := Contents(s);
    AppendEvent(s.events, TextDelta(s.textBlock.value, text));
    GrowLastContent(contents, text);
    forall k | k in s'.tools ensures ToolMatches(s', k, Contents(s')) {
      assert ToolMatches(s, k, contents);
    }
  }

  lemma HandleTextKeeps(s: Stream, text: string)
    requires Inv(s)
    ensures var s' := HandleText(s, text);
      Inv(s') && TextOf(Contents(s')) == TextOf(Contents(s)) + text
  {
    if text != "" {
      FinalizeActiveCore(s);
      var s1 := FinalizeActive(s);
      if s1.textBlock.None? { OpenText(s1); }
      SendText(EnsureText(s), text);
    }
  }

  /** The block of a tool as a client sees it when it opens. */
  function FirstContent(tool: Tool, k: int): (content: Content)
    ensures content.ToolPart?
  {
    ToolPart(if tool.id == "" then FromIndex(k) else Given(tool.id), tool.name, "")
  }

  /** The block of a tool, opened when no block is open. */
  function OpenTool(s: Stream, k: int): Stream
    requires k in s.tools
  {
    var tool := s.tools[k];
    Emit(s, BlockStart(s.next, ToolBlock(if tool.id == "" then FromIndex(k) else Given(tool.id), tool.name)))
      .(tools := s.tools[k := tool.(blockIndex := s.next, started := true)], next := s.next + 1, activeTool := Some(k))
  }

  lemma OpenToolContents(s: Stream, k: int)
    requires Bracketed(s) && k in s.tools && s.textBlock.None? && s.activeTool.None?
    ensures var s' := OpenTool(s, k); var scan := ScanEvents(s'.events);
      && Contents(s') == Contents(s) + [FirstContent(s.tools[k], k)]
      && TextOf(Contents(s')) == TextOf(Contents(s))
      && scan.Scan? && scan.stage.Streaming? && scan.blocks == s.next + 1
      && scan.open.Some? && scan.open.value.ToolBlock?
      && scan.toolBlocks == ScanEvents(s.events).toolBlocks + 1
  {
    var content := FirstContent(s.tools[k], k);
    AppendEvent(s.events, BlockStart(s.next, ToolBlock(content.id, content.name)));
    AppendContent(Contents(s), content);
  }

  lemma OpenToolCore(s: Stream, k: int)
    requires Core(s) && k in s.tools && !s.tools[k].started && s.textBlock.None? && s.activeTool.None?
    ensures Core(OpenTool(s, k))
  {
    OpenToolContents(s, k);
    var s' := OpenTool(s, k);
    assert StartedTools(s'.tools) == StartedTools(s.tools) + {k};
    forall j | j in s'.tools ensures ToolMatches(s', j, Contents(s')) {
      assert ToolMatches(s, j, Contents(s));
    }
  }

  lemma StartToolCore(s: Stream, k: int)
    requires Core(s) && k in s.tools && !s.tools[k].started
    ensures var s' := StartTool(s, k);
      && Core(s') && TextOf(Contents(s')) == TextOf(Contents(s))
      && s'.textBlock.None? && s'.activeTool == Some(k)
      && Contents(s') == Contents(s) + [FirstContent(s.tools[k], k)]
      && s'.tools == Deactivated(s)[k := s.tools[k].(blockIndex := s.next, started := true)]
  {
    CloseTextCore(s);
    var s1 := CloseText(s);
    FinalizeActiveCore(s1);
    var s2 := FinalizeActive(s1);
    OpenToolContents(s2, k);
    OpenToolCore(s2, k);
    assert StartTool(s, k) == OpenTool(s2, k);
  }

  /** Arguments go to the newest block only. */
  lemma SendArguments(s: Stream, k: int, json: string)
    requires Core(s) && s.activeTool == Some(k)
    ensures var index := s.tools[k].blockIndex; var s' := Emit(s, ArgsDelta(index, json));
      && ScanEvents(s'.events) == ScanEvents(s.events)
      && index < |Contents(s)| && Contents(s)[index].ToolPart?
      && Contents(s') == Contents(s)[index := Contents(s)[index].(json := Contents(s)[index].json + json)]
      && TextOf(Contents(s')) == TextOf(Contents(s))
  {
    assert ToolMatches(s, k, Contents(s));
    AppendEvent(s.events, ArgsDelta(s.tools[k].blockIndex, json));
    GrowLastContent(Contents(s), json);
  }

  /** The newest block with more arguments. */
  function Grown(contents: seq<Content>, json: string): seq<Content>
    requires contents != [] && contents[|contents| - 1].ToolPart?
  {
    var last := contents[|contents| - 1];
    contents[|contents| - 1 := last.(json := last.json + json)]
  }

  lemma EmitArgumentsCore(s: Stream, k: int)
    requires Core(s) && s.activeTool == Some(k) && s.textBlock.None?
    ensures var s' := EmitArguments(s, k);
      && Core(s') && TextOf(Contents(s')) == TextOf(Contents(s))
      && Contents(s) != [] && Contents(s)[|Contents(s)| - 1].ToolPart?
      && Contents(s') == Grown(Contents(s), s.tools[k].arguments[s.tools[k].sentChars..])
      && s'.activeTool == s.activeTool && s'.textBlock == s.textBlock
      && s'.tools == s.tools[k := s.tools[k].(sentChars := |s.tools[k].arguments|)]
  {
    var s' := EmitArguments(s, k);
    var tool := s.tools[k];
    var pending := tool.arguments[tool.sentChars..];
    assert ToolMatches(s, k, Contents(s));
    if pending == "" {
      assert s.tools[k := tool] == s.tools;
      var contents := Contents(s);
      assert contents[|contents| - 1].json + "" == contents[|contents| - 1].json;
      assert contents[|contents| - 1 := contents[|contents| - 1]] == contents;
    } else {
      SendArguments(s, k, pending);
      assert tool.arguments[..tool.sentChars] + pending == tool.arguments[..|tool.arguments|];
      SameStarted(s.tools, s'.tools);
      forall j | j in s'.tools ensures ToolMatches(s', j, Contents(s')) {
        assert ToolMatches(s, j, Contents(s));
      }
    }
  }

  /** Recording a delta leaves the brackets alone. */
  lemma RecordCore(s: Stream, delta: ToolDelta)
    requires Core(s)
    ensures Core(Record(s, delta)) && Contents(Record(s, delta)) == Contents(s)
  {
    var s' := Record(s, delta);
    assert StartedTools(s'.tools) == StartedTools(s.tools);
    forall j | j in s'.tools ensures ToolMatches(s', j, Contents(s')) {
      if j in s.tools { assert ToolMatches(s, j, Contents(s)); }
    }
  }

  /** The tools once the active one, if any, is done. */
  function Deactivated(s: Stream): map<int, Tool>
    requires s.activeTool.Some? ==> s.activeTool.value in s.tools
  {
    if s.activeTool.None? then s.tools
    else s.tools[s.activeTool.value := s.tools[s.activeTool.value].(done := true)]
  }

  predicate RestedElsewhere(s: Stream, k: int) {
    forall j | j in s.tools && j != k ::
      && (!s.tools[j].started ==> s.tools[j].name == "")
      && (s.tools[j].started && !s.tools[j].done ==> s.tools[j].sentChars == |s.tools[j].arguments|)
  }

  lemma GrowToolKeeps(s: Stream, k: int)
    requires Core(s) && RestedElsewhere(s, k) && k in s.tools && s.tools[k].started && !s.tools[k].done
    ensures var s' := EmitArguments(s, k);
      && Inv(s') && TextOf(Contents(s')) == TextOf(Contents(s))
      && s'.tools == s.tools[k := s.tools[k].(sentChars := |s.tools[k].arguments|)]
      && s'.activeTool == Some(k)
      && Contents(s) != [] && Contents(s)[|Contents(s)| - 1].ToolPart?
      && Contents(s') == Grown(Contents(s), s.tools[k].arguments[s.tools[k].sentChars..])
  {
    assert ToolMatches(s, k, Contents(s));
    EmitArgumentsCore(s, k);
  }

  lemma NewToolKeeps(s: Stream, k: int)
    requires Core(s) && RestedElsewhere(s, k) && k in s.tools && !s.tools[k].started
    ensures var s' := EmitArguments(StartTool(s, k), k);
      && Inv(s') && TextOf(Contents(s')) == TextOf(Contents(s))
      && s'.tools == Deactivated(s)[k := s.tools[k].(blockIndex := s.next, started := true,
                                                     sentChars := |s.tools[k].arguments|)]
      && s'.activeTool == Some(k)
      && Contents(s') == Contents(s) + [FirstContent(s.tools[k], k).(json := s.tools[k].arguments)]
  {
    assert ToolMatches(s, k, Contents(s));
    StartToolCore(s, k);
    EmitArgumentsCore(StartTool(s, k), k);
    assert s.tools[k].arguments[0..] == s.tools[k].arguments == "" + s.tools[k].arguments;
  }

  /** The tools after the response to a recorded delta: its tool, and the one it closed. */
  ghost predicate ToolsResponded(s: Stream, k: int, s': Stream)
    requires k in s.tools && (s.activeTool.Some? ==> s.activeTool.value in s.tools)
  {
    var tool := s.tools[k];
    if tool.done || (!tool.started && tool.name == "") then s'.tools == s.tools
    else if tool.started then s'.tools == s.tools[k := tool.(sentChars := |tool.arguments|)]
    else s'.tools == Deactivated(s)[k := tool.(blockIndex := s.next, started := true, sentChars := |tool.arguments|)]
  }

  ghost predicate ToolsAfter(s: Stream, delta: ToolDelta, s': Stream)
    requires SentWithin(s.tools) && (s.activeTool.Some? ==> s.activeTool.value in s.tools)
  {
    ToolsResponded(Record(s, delta), ToolKey(s, delta), s')
  }

  lemma RespondKeeps(s: Stream, k: int)
    requires Core(s) && RestedElsewhere(s, k) && k in s.tools
    ensures var s' := Respond(s, k);
      Inv(s') && TextOf(Contents(s')) == TextOf(Contents(s)) && ToolsResponded(s, k, s')
  {
    assert ToolMatches(s, k, Contents(s));
    if s.tools[k].done {
    } else if s.tools[k].started {
      GrowToolKeeps(s, k);
    } else if s.tools[k].name != "" {
      NewToolKeeps(s, k);
    }
  }

  lemma {:induction false} HandleToolKeeps(s: Stream, delta: ToolDelta)
    requires Inv(s)
    ensures var s' := HandleTool(s, delta);
      Inv(s') && TextOf(Contents(s')) == TextOf(Contents(s)) && ToolsAfter(s, delta, s')
  {
    RecordCore(s, delta);
    assert RestedElsewhere(Record(s, delta), ToolKey(s, delta));
    RespondKeeps(Record(s, delta), ToolKey(s, delta));
  }

  // ----- whole runs

  lemma {:induction false} RunKeeps(actions: seq<Action>)
    ensures Inv(Run(OPENED, actions))
    ensures TextOf(Contents(Run(OPENED, actions))) == TextReceived(actions)
  {
    if actions == [] {
      OpenedCore();
      AppendEvent([], MessageStart);
      assert [] + [MessageStart] == [MessageStart];
    } else {
      var before := actions[..|actions| - 1];
      RunKeeps(before);
      match actions[|actions| - 1]
      case OnText(text) => HandleTextKeeps(Run(OPENED, before), text);
      case OnTool(delta) => HandleToolKeeps(Run(OPENED, before), delta);
      case OnReason(_) =>
    }
  }

  function TextReceived(actions: seq<Action>): string {
    if actions == [] then ""
    else
      var last := actions[|actions| - 1];
      TextReceived(actions[..|actions| - 1]) + (if last.OnText? then last.text else "")
  }

  /** The text blocks carry exactly the text that arrived, in order. */
  lemma TextConserved(actions: seq<Action>)
    ensures TextOf(Contents(Run(OPENED, actions))) == TextReceived(actions)
  {
    RunKeeps(actions);
  }

  lemma FailKeepsBrackets(s: Stream)
    requires Bracketed(s)
    ensures var scan := ScanEvents(Fail(s).events); scan.Scan? && scan.stage.Errored? && scan.blocks == s.next
  {
    AppendEvent(s.events, StreamError);
  }

  /** A stream that fails after any deltas is a valid prefix with at most one open block. */
  lemma {:induction false} ErroredRunIsBracketed(actions: seq<Action>)
    ensures var s := Run(OPENED, actions); var scan := ScanEvents(Fail(s).events);
      scan.Scan? && scan.stage.Errored? && scan.blocks == s.next
  {
    RunKeeps(actions);
    FailKeepsBrackets(Run(OPENED, actions));
  }

  /** Every block is closed, and the tools in use are the tool blocks sent. */
  ghost predicate Closed(s: Stream) {
    && ScanEvents(s.events) == Scan(Streaming, s.next, None, |UsedTools(s.tools)|)
    && |Contents(s)| == s.next
  }

  lemma WholeBlockKeeps(events: seq<Event>, index: nat, tools: nat, id: ToolId, name: string, json: string)
    requires ScanEvents(events) == Scan(Streaming, index, None, tools) && |Reassemble(events)| == index
    ensures var events' := events + WholeBlock(index, ToolBlock(id, name), json);
      && ScanEvents(events') == Scan(Streaming, index + 1, None, tools + 1)
      && Reassemble(events') == Reassemble(events) + [ToolPart(id, name, json)]
  {
    var start, stop := BlockStart(index, ToolBlock(id, name)), BlockStop(index);
    var begun := events + [start];
    AppendEvent(events, start);
    assert Reassemble(begun) == Reassemble(events) + [ToolPart(id, name, "")];
    var filled := if json == "" then begun else begun + [ArgsDelta(index, json)];
    AppendEvent(begun, ArgsDelta(index, json));
    assert "" + json == json;
    assert Reassemble(filled) == Reassemble(events) + [ToolPart(id, name, json)];
    AppendEvent(filled, stop);
    WholeBlockAppended(events, index, ToolBlock(id, name), json);
  }

  lemma WholeBlockAppended(events: seq<Event>, index: nat, block: Block, json: string)
    ensures var begun := events + [BlockStart(index, block)];
      events + WholeBlock(index, block, json)
      == (if json == "" then begun else begun + [ArgsDelta(index, json)]) + [BlockStop(index)]
  {
  }

  lemma MarkingDone(tools: map<int, Tool>, k: int)
    requires k in tools && !tools[k].started && !tools[k].done
    ensures |UsedTools(tools[k := tools[k].(done := true)])| == |UsedTools(tools)| + 1
  {
    assert UsedTools(tools[k := tools[k].(done := true)]) == UsedTools(tools) + {k};
  }

  lemma EmitLateKeeps(codec: Codec, s: Stream, k: int)
    requires Closed(s) && k in s.tools && (s.tools[k].done ==> s.tools[k].started)
    ensures var s' := EmitLate(codec, s, k);
      var late := IsLate(s.tools[k]);
      && Closed(s') && TextOf(Contents(s')) == TextOf(Contents(s))
      && Contents(s') == Contents(s) + (if late then [LateContent(codec, s.tools[k])] else [])
      && s'.tools == (if late then s.tools[k := s.tools[k].(done := true)] else s.tools)
  {
    var tool := s.tools[k];
    if IsLate(tool) {
      var content := LateContent(codec, tool);
      var s' := EmitLate(codec, s, k);
      WholeBlockKeeps(s.events, s.next, |UsedTools(s.tools)|, content.id, content.name, content.json);
      AppendContent(Contents(s), content);
      MarkingDone(s.tools, k);
    } else {
      assert Contents(s) + [] == Contents(s);
    }
  }

  function LateContents(codec: Codec, tools: map<int, Tool>, keys: seq<int>): seq<Content>
    requires forall i | 0 <= i < |keys| :: keys[i] in tools
  {
    if keys == [] then []
    else
      (if IsLate(tools[keys[0]]) then [LateContent(codec, tools[keys[0]])] else [])
        + LateContents(codec, tools, keys[1..])
  }

  /** Late blocks depend only on the tools that never started. */
  lemma {:induction false} LateContentsAgree(codec: Codec, tools: map<int, Tool>, tools': map<int, Tool>,
                                             keys: seq<int>)
    requires forall i | 0 <= i < |keys| :: keys[i] in tools && keys[i] in tools'
    requires forall i | 0 <= i < |keys| ::
      if tools[keys[i]].started then tools'[keys[i]].started else tools'[keys[i]] == tools[keys[i]]
    ensures LateContents(codec, tools, keys) == LateContents(codec, tools', keys)
  {
    if keys != [] {
      assert keys[0] in tools && keys[0] in tools';
      LateContentsAgree(codec, tools, tools', keys[1..]);
    }
  }

  lemma {:induction false} EmitAllLateKeeps(codec: Codec, s: Stream, keys: seq<int>)
    requires Closed(s) && forall i, j | 0 <= i < j < |keys| :: keys[i] != keys[j]
    requires forall i | 0 <= i < |keys| :: keys[i] in s.tools && (s.tools[keys[i]].done ==> s.tools[keys[i]].started)
    ensures var s' := EmitAllLate(codec, s, keys);
      && Closed(s') && TextOf(Contents(s')) == TextOf(Contents(s))
      && Contents(s') == Contents(s) + LateContents(codec, s.tools, keys)
    decreases |keys|
  {
    if keys == [] {
      assert Contents(s) + [] == Contents(s);
    } else {
      var k, rest := keys[0], keys[1..];
      var s1 := EmitLate(codec, s, k);
      EmitLateKeeps(codec, s, k);
      forall i | 0 <= i < |rest|
        ensures rest[i] in s1.tools && s1.tools[rest[i]] == s.tools[rest[i]]
      {
        assert rest[i] == keys[i + 1];
      }
      assert LateContents(codec, s1.tools, rest) == LateContents(codec, s.tools, rest) by {
        LateContentsAgree(codec, s.tools, s1.tools, rest);
      }
      EmitAllLateKeeps(codec, s1, rest);
      Associate(Contents(s), if IsLate(s.tools[k]) then [LateContent(codec, s.tools[k])] else [],
                LateContents(codec, s.tools, rest));
    }
  }

  lemma Associate(a: seq<Content>, b: seq<Content>, c: seq<Content>)
    ensures (a + b) + c == a + (b + c)
  {
  }

  lemma CloseAllKeeps(s: Stream)
    requires Inv(s)
    ensures var s1 := CloseText(FinalizeActive(s));
      && Closed(s1) && Contents(s1) == Contents(s)
      && (forall k | k in s1.tools :: s1.tools[k].done <==> s1.tools[k].started)
      && s1.tools.Keys == s.tools.Keys
      && (forall k | k in s.tools && k in s1.tools ::
            if s.tools[k].started then s1.tools[k].started else s1.tools[k] == s.tools[k])
  {
    FinalizeActiveCore(s);
    CloseTextCore(FinalizeActive(s));
    var s1 := CloseText(FinalizeActive(s));
    forall k | k in s1.tools ensures s1.tools[k].done <==> s1.tools[k].started {
      assert ToolMatches(s1, k, Contents(s1));
    }
    assert UsedTools(s1.tools) == StartedTools(s1.tools);
  }

  /** What a client ends up with: the streamed blocks, the late ones, or one empty text block. */
  ghost function FinalContents(codec: Codec, s: Stream): seq<Content> {
    var contents := Contents(s) + LateContents(codec, s.tools, SortedKeys(s.tools.Keys));
    if contents == [] then [TextPart("")] else contents
  }

  lemma EndMessage(events: seq<Event>, next: nat, tools: nat, reason: StopReason)
    requires ScanEvents(events) == Scan(Streaming, next, None, tools) && next > 0 && (tools > 0 ==> reason.ToolUse?)
    ensures var events' := events + [MessageDelta(reason)] + [MessageStop];
      ScanEvents(events') == Scan(Completed, next, None, tools) && Reassemble(events') == Reassemble(events)
  {
    AppendEvent(events, MessageDelta(reason));
    AppendEvent(events + [MessageDelta(reason)], MessageStop);
  }

  lemma EmptyMessage(events: seq<Event>)
    requires ScanEvents(events) == Scan(Streaming, 0, None, 0) && Reassemble(events) == []
    ensures var events' := events + [BlockStart(0, TextBlock)] + [BlockStop(0)];
      ScanEvents(events') == Scan(Streaming, 1, None, 0) && Reassemble(events') == [TextPart("")]
  {
    AppendEvent(events, BlockStart(0, TextBlock));
    AppendEvent(events + [BlockStart(0, TextBlock)], BlockStop(0));
  }

  lemma LateKeeps(codec: Codec, tools: map<int, Tool>, s1: Stream, keys: seq<int>)
    requires Closed(s1) && forall i, j | 0 <= i < j < |keys| :: keys[i] < keys[j]
    requires forall i | 0 <= i < |keys| :: keys[i] in tools && keys[i] in s1.tools
    requires forall k | k in s1.tools :: s1.tools[k].done <==> s1.tools[k].started
    requires forall k | k in tools && k in s1.tools ::
      if tools[k].started then s1.tools[k].started else s1.tools[k] == tools[k]
    ensures var s2 := EmitAllLate(codec, s1, keys);
      Closed(s2) && Contents(s2) == Contents(s1) + LateContents(codec, tools, keys)
  {
    EmitAllLateKeeps(codec, s1, keys);
    LateContentsAgree(codec, tools, s1.tools, keys);
  }

  lemma FinishKeeps(codec: Codec, s: Stream)
    requires Inv(s)
    ensures var f := Finish(codec, s); var scan := ScanEvents(f.events);
      && scan.Scan? && scan.stage.Completed? && scan.blocks > 0 && scan.open.None?
      && scan.toolBlocks == |UsedTools(f.tools)|
      && f.stopReason == (if scan.toolBlocks > 0 then ToolUse else s.stopReason)
      && Contents(f) == FinalContents(codec, s)
  {
    CloseAllKeeps(s);
    var s1 := CloseText(FinalizeActive(s));
    var keys := SortedKeys(s1.tools.Keys);
    LateKeeps(codec, s.tools, s1, keys);
    var s2 := EmitAllLate(codec, s1, keys);
    var reason := if UsedTools(s2.tools) != {} then ToolUse else s2.stopReason;
    if s2.next > 0 {
      EndMessage(s2.events, s2.next, |UsedTools(s2.tools)|, reason);
    } else {
      ScanMatchesContents(s2.events);
      EmptyMessage(s2.events);
      EndMessage(s2.events + [BlockStart(0, TextBlock)] + [BlockStop(0)], 1, 0, reason);
    }
  }

  lemma {:induction false} AppendContents(first: seq<Content>, second: seq<Content>)
    ensures TextOf(first + second) == TextOf(first) + TextOf(second)
  {
    if second == [] {
      assert first + second == first;
    } else {
      var init, last := second[..|second| - 1], second[|second| - 1];
      assert first + second == (first + init) + [last];
      AppendContents(first, init);
      AppendContent(first + init, last);
    }
  }

  lemma {:induction false} LateContentsHaveNoText(codec: Codec, tools: map<int, Tool>, keys: seq<int>)
    requires forall i | 0 <= i < |keys| :: keys[i] in tools
    ensures TextOf(LateContents(codec, tools, keys)) == ""
    decreases |keys|
  {
    if keys != [] {
      var head := if IsLate(tools[keys[0]]) then [LateContent(codec, tools[keys[0]])] else [];
      LateContentsHaveNoText(codec, tools, keys[1..]);
      AppendContents(head, LateContents(codec, tools, keys[1..]));
      AppendContent([], LateContent(codec, tools[keys[0]]));
      assert [] + [LateContent(codec, tools[keys[0]])] == [LateContent(codec, tools[keys[0]])];
    }
  }

  lemma {:induction false} FinalHasText(codec: Codec, s: Stream)
    ensures TextOf(FinalContents(codec, s)) == TextOf(Contents(s))
  {
    var late := LateContents(codec, s.tools, SortedKeys(s.tools.Keys));
    LateContentsHaveNoText(codec, s.tools, SortedKeys(s.tools.Keys));
    AppendContents(Contents(s), late);
    AppendContent([], TextPart(""));
    assert [] + [TextPart("")] == [TextPart("")];
  }

  /** A message that ends well carries exactly the text that arrived. */
  lemma {:induction false} FinishConservesText(codec: Codec, actions: seq<Action>)
    ensures TextOf(Reassemble(Finish(codec, Run(OPENED, actions)).events)) == TextReceived(actions)
  {
    RunKeeps(actions);
    FinishKeeps(codec, Run(OPENED, actions));
    FinalHasText(codec, Run(OPENED, actions));
  }

  /** So does a stream that fails. */
  lemma {:induction false} FailConservesText(actions: seq<Action>)
    ensures TextOf(Reassemble(Fail(Run(OPENED, actions)).events)) == TextReceived(actions)
  {
    RunKeeps(actions);
    AppendEvent(Run(OPENED, actions).events, StreamError);
  }

  /**
   Every completed run is well-bracketed: at least one block, consecutive
   indices, each opened and closed once, deltas only to the open block, and as
   many tool blocks as the reported tool count.
   */
  lemma {:induction false} CompletedRunIsBracketed(codec: Codec, actions: seq<Action>)
    ensures var f := Finish(codec, Run(OPENED, actions)); var scan := ScanEvents(f.events);
      && scan.Scan? && scan.stage.Completed? && scan.blocks > 0 && scan.open.None?
      && scan.toolBlocks == |UsedTools(f.tools)|
      && f.stopReason == (if scan.toolBlocks > 0 then ToolUse else Run(OPENED, actions).stopReason)
  {
    RunKeeps(actions);
    FinishKeeps(codec, Run(OPENED, actions));
  }
}
