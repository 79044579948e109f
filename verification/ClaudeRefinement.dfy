/**
 Streaming refines the one-shot translation: for text followed by tool calls
 sent one after another, a client that reassembles the events reads what the
 one-shot translation of the assembled message gives.
 */
module ClaudeRefinement {
  import opened Wrappers
  import opened ClaudeEvents
  import opened ClaudeBridge
  import opened ClaudeInvariant

  // ----- streams in chunks

  function ToolActions(deltas: seq<ToolDelta>): seq<Action> {
    if deltas == [] then []
    else ToolActions(deltas[..|deltas| - 1]) + [OnTool(deltas[|deltas| - 1])]
  }

  /** The deltas of one payload: its text, then its tools, then its finish reason. */
  function ChunkActions(chunk: Chunk): seq<Action> {
    [OnText(chunk.text)] + ToolActions(chunk.tools) + [OnReason(chunk.finishReason)]
  }

  function Flatten(chunks: seq<Chunk>): seq<Action> {
    if chunks == [] then []
    else Flatten(chunks[..|chunks| - 1]) + ChunkActions(chunks[|chunks| - 1])
  }

  lemma {:induction false} RunAppend(s: Stream, first: seq<Action>, second: seq<Action>)
    requires SentWithin(s.tools)
    ensures Run(s, first + second) == Run(Run(s, first), second)
  {
    if second == [] {
      assert first + second == first;
    } else {
      var init, last := second[..|second| - 1], second[|second| - 1];
      assert (first + second)[..|first + second| - 1] == first + init;
      RunAppend(s, first, init);
    }
  }

  // ----- finish reasons touch the stop reason only

  predicate Silent(action: Action) {
    action.OnReason? || (action.OnText? && action.text == "")
  }

  /** The deltas that carry text or tools. */
  function Payload(actions: seq<Action>): seq<Action> {
    if actions == [] then []
    else
      var last := actions[|actions| - 1];
      Payload(actions[..|actions| - 1]) + (if Silent(last) then [] else [last])
  }

  function LastReason(actions: seq<Action>): string {
    if actions == [] then ""
    else
      var last := actions[|actions| - 1];
      if last.OnReason? && last.reason != "" then last.reason else LastReason(actions[..|actions| - 1])
  }

  lemma TextIgnoresReason(s: Stream, text: string, reason: StopReason)
    ensures HandleText(s.(stopReason := reason), text) == HandleText(s, text).(stopReason := reason)
  {
  }

  lemma StartIgnoresReason(s: Stream, k: int, reason: StopReason)
    requires k in s.tools
    ensures StartTool(s.(stopReason := reason), k) == StartTool(s, k).(stopReason := reason)
  {
  }

  lemma {:induction false} ToolIgnoresReason(s: Stream, delta: ToolDelta, reason: StopReason)
    requires SentWithin(s.tools)
    ensures HandleTool(s.(stopReason := reason), delta) == HandleTool(s, delta).(stopReason := reason)
  {
    StartIgnoresReason(Record(s, delta), ToolKey(s, delta), reason);
  }

  lemma {:induction false} StepIgnoresReason(s: Stream, action: Action, reason: StopReason)
    requires SentWithin(s.tools) && !action.OnReason?
    ensures Step(s.(stopReason := reason), action) == Step(s, action).(stopReason := reason)
    ensures Step(s, action).stopReason == s.stopReason
  {
    match action
    case OnText(text) =>
      TextIgnoresReason(s, text, reason);
      TextIgnoresReason(s, text, s.stopReason);
    case OnTool(delta) =>
      ToolIgnoresReason(s, delta, reason);
      ToolIgnoresReason(s, delta, s.stopReason);
  }

  lemma {:induction false} ReasonsAside(s: Stream, action: Action, reason: string)
    requires SentWithin(s.tools)
    ensures var s1 := s.(stopReason := MapStopReason(reason));
      if action.OnReason? then
        Step(s1, action) == s.(stopReason := MapStopReason(if action.reason == "" then reason else action.reason))
      else if Silent(action) then Step(s1, action) == s1
      else
        && Step(s1, action) == Step(s, action).(stopReason := MapStopReason(reason))
        && Step(s, action).stopReason == s.stopReason
  {
    if !action.OnReason? { StepIgnoresReason(s, action, MapStopReason(reason)); }
  }

  lemma {:induction false} PayloadKeepsReason(actions: seq<Action>)
    ensures Run(OPENED, Payload(actions)).stopReason == EndTurn
  {
    if actions != [] {
      var init, last := actions[..|actions| - 1], actions[|actions| - 1];
      PayloadKeepsReason(init);
      if !Silent(last) {
        StepIgnoresReason(Run(OPENED, Payload(init)), last, EndTurn);
        RunStep(Payload(init), last);
      } else {
        assert Payload(actions) == Payload(init);
      }
    }
  }

  lemma {:induction false} RunIgnoresReasons(actions: seq<Action>)
    ensures Run(OPENED, actions) == Run(OPENED, Payload(actions)).(stopReason := MapStopReason(LastReason(actions)))
  {
    if actions == [] {
      assert OPENED.(stopReason := EndTurn) == OPENED;
    } else {
      var init, last := actions[..|actions| - 1], actions[|actions| - 1];
      RunIgnoresReasons(init);
      ReasonsAside(Run(OPENED, Payload(init)), last, LastReason(init));
      if !Silent(last) {
        RunStep(Payload(init), last);
      } else {
        assert Payload(actions) == Payload(init);
      }
    }
  }

  // ----- what a client reads

  function ReadContent(codec: Codec, content: Content): Option<ClaudeContent> {
    match content
    case TextPart(text) => Some(TextContent(text))
    case ToolPart(id, name, json) =>
      var input := if json == "" then Some(Object([])) else codec.parse(json);
      if input.Some? && input.value.Object? then Some(ToolUseContent(id, name, input.value)) else None
  }

  /** None when a block's arguments do not read as an object. */
  function ReadAll(codec: Codec, contents: seq<Content>): Option<seq<ClaudeContent>> {
    if contents == [] then Some([])
    else
      var init, last := ReadAll(codec, contents[..|contents| - 1]), ReadContent(codec, contents[|contents| - 1]);
      if init.None? || last.None? then None else Some(init.value + [last.value])
  }

  // ----- sequential streams

  /** A tool call split into fragments; the first fragment travels with the id and the name. */
  datatype StreamedCall = StreamedCall(index: int, id: string, name: string, first: string, rest: seq<string>)

  function Join(parts: seq<string>): string {
    if parts == [] then "" else Join(parts[..|parts| - 1]) + parts[|parts| - 1]
  }

  function TextActions(texts: seq<string>): seq<Action> {
    if texts == [] then []
    else TextActions(texts[..|texts| - 1]) + (if texts[|texts| - 1] == "" then [] else [OnText(texts[|texts| - 1])])
  }

  function FragmentActions(index: int, fragments: seq<string>): seq<Action> {
    if fragments == [] then []
    else FragmentActions(index, fragments[..|fragments| - 1])
         + [OnTool(NextDelta(index, fragments[|fragments| - 1]))]
  }

  function CallActions(call: StreamedCall): seq<Action> {
    [OnTool(FirstDelta(call))] + FragmentActions(call.index, call.rest)
  }

  function AllCallActions(calls: seq<StreamedCall>): seq<Action> {
    if calls == [] then []
    else AllCallActions(calls[..|calls| - 1]) + CallActions(calls[|calls| - 1])
  }

  function Assembled(call: StreamedCall): ToolCall {
    ToolCall(call.id, call.name, call.first + Join(call.rest))
  }

  function AssembledCalls(calls: seq<StreamedCall>): (r: seq<ToolCall>)
    ensures |r| == |calls|
  {
    if calls == [] then [] else AssembledCalls(calls[..|calls| - 1]) + [Assembled(calls[|calls| - 1])]
  }

  function CallContents(calls: seq<StreamedCall>): seq<Content> {
    if calls == [] then []
    else
      var last := calls[|calls| - 1];
      CallContents(calls[..|calls| - 1]) + [ToolPart(Given(last.id), last.name, Assembled(last).arguments)]
  }

  predicate WellNamed(calls: seq<StreamedCall>) {
    && (forall i | 0 <= i < |calls| :: calls[i].id != "" && calls[i].name != "")
    && (forall i, j | 0 <= i < j < |calls| :: calls[i].index != calls[j].index)
  }

  function FirstDelta(call: StreamedCall): ToolDelta {
    ToolDelta(Some(call.index), call.id, call.name, "", call.first, "")
  }

  lemma {:induction false} FirstFragment(s: Stream, call: StreamedCall)
    requires Inv(s) && call.index !in s.tools && call.id != "" && call.name != ""
    ensures var s' := HandleTool(s, FirstDelta(call));
      && Inv(s') && s'.activeTool == Some(call.index)
      && Contents(s') == Contents(s) + [ToolPart(Given(call.id), call.name, call.first)]
  {
    var s1, k := Record(s, FirstDelta(call)), call.index;
    FirstRecord(s, call);
    RecordCore(s, FirstDelta(call));
    NewToolKeeps(s1, k);
    assert HandleTool(s, FirstDelta(call)) == Respond(s1, k) == EmitArguments(StartTool(s1, k), k);
  }

  /** The first fragment of a call records its tool. */
  lemma FirstRecord(s: Stream, call: StreamedCall)
    requires Inv(s) && call.index !in s.tools && call.id != "" && call.name != ""
    ensures var tool := NEW_TOOL.(id := call.id, name := call.name, arguments := call.first);
      Record(s, FirstDelta(call)) == s.(tools := s.tools[call.index := tool])
  {
    var tool := NEW_TOOL.(id := call.id, name := call.name, arguments := call.first);
    assert Merge(NEW_TOOL, FirstDelta(call)) == tool by {
      assert "" + call.first + "" == call.first;
    }
  }

  lemma StartedAfter(s: Stream, delta: ToolDelta, s': Stream)
    requires SentWithin(s.tools) && (s.activeTool.Some? ==> s.activeTool.value in s.tools)
    requires ToolsAfter(s, delta, s')
    ensures s'.tools.Keys == s.tools.Keys + {ToolKey(s, delta)}
    ensures forall k | k in s.tools :: s.tools[k].started ==> s'.tools[k].started
    ensures delta.fnName != "" ==> s'.tools[ToolKey(s, delta)].started || s'.tools[ToolKey(s, delta)].done
  {
  }

  function NextDelta(index: int, fragment: string): ToolDelta {
    ToolDelta(Some(index), "", "", "", fragment, "")
  }

  lemma MergeFragment(tool: Tool, k: int, fragment: string)
    ensures Merge(tool, NextDelta(k, fragment)) == tool.(arguments := tool.arguments + fragment)
  {
    assert tool.arguments + fragment + "" == tool.arguments + fragment;
  }

  lemma NextFragment(s: Stream, k: int, fragment: string)
    requires Inv(s) && s.activeTool == Some(k)
    ensures var s' := HandleTool(s, NextDelta(k, fragment));
      && Inv(s') && s'.activeTool == Some(k)
      && Contents(s) != [] && Contents(s)[|Contents(s)| - 1].ToolPart?
      && Contents(s') == Grown(Contents(s), fragment)
  {
    var s1 := Record(s, NextDelta(k, fragment));
    MergeFragment(s.tools[k], k, fragment);
    RecordCore(s, NextDelta(k, fragment));
    GrowToolKeeps(s1, k);
    assert s1.tools[k].arguments[s1.tools[k].sentChars..] == fragment;
    assert HandleTool(s, NextDelta(k, fragment)) == Respond(s1, k) == EmitArguments(s1, k);
  }

  // ----- the blocks of a sequential stream

  function TextContents(text: string): seq<Content> {
    if text == "" then [] else [TextPart(text)]
  }

  lemma {:induction false} RunTexts(texts: seq<string>)
    ensures var s := Run(OPENED, TextActions(texts));
      && Inv(s) && s.tools == map[]
      && Contents(s) == TextContents(Join(texts))
      && (Join(texts) != "" ==> s.textBlock == Some(0))
  {
    if texts == [] {
      RunKeeps([]);
      AppendEvent([], MessageStart);
      assert [] + [MessageStart] == [MessageStart];
    } else {
      var init, last := texts[..|texts| - 1], texts[|texts| - 1];
      RunTexts(init);
      if last == "" {
        assert TextActions(texts) == TextActions(init);
        assert Join(texts) == Join(init);
      } else {
        RunStep(TextActions(init), OnText(last));
        AddText(Run(OPENED, TextActions(init)), Join(init), last);
      }
    }
  }

  lemma AddText(s: Stream, before: string, text: string)
    requires Inv(s) && s.tools == map[] && text != ""
    requires Contents(s) == TextContents(before)
    requires before != "" ==> s.textBlock == Some(0)
    ensures var s' := HandleText(s, text);
      && Inv(s') && s'.tools == map[] && s'.textBlock == Some(0)
      && Contents(s') == [TextPart(before + text)]
  {
    HandleTextKeeps(s, text);
    assert FinalizeActive(s) == s;
    var s1 := EnsureText(s);
    if before == "" {
      AppendEvent(s.events, BlockStart(0, TextBlock));
      assert Contents(s1) == [TextPart("")];
      assert before + text == text;
    }
    AppendEvent(s1.events, TextDelta(0, text));
    assert "" + text == text;
  }

  /** From `s` to `s'` the newest block, that of tool `k`, grew by `json`. */
  ghost predicate GrowsTo(s: Stream, s': Stream, k: int, json: string) {
    && s'.activeTool == Some(k) && s'.tools.Keys == s.tools.Keys
    && (forall j | j in s.tools :: s.tools[j].started ==> s'.tools[j].started)
    && Contents(s) != [] && Contents(s)[|Contents(s)| - 1].ToolPart?
    && Contents(s') == Grown(Contents(s), json)
  }

  lemma GrowsNothing(s: Stream, k: int)
    requires Inv(s) && s.activeTool == Some(k)
    ensures GrowsTo(s, s, k, "")
  {
    NextFragment(s, k, "");
    var contents := Contents(s);
    assert contents[|contents| - 1].json + "" == contents[|contents| - 1].json;
    assert Grown(contents, "") == contents;
  }

  lemma GrowsMore(s: Stream, s1: Stream, k: int, json: string, fragment: string)
    requires Inv(s1) && GrowsTo(s, s1, k, json)
    ensures GrowsTo(s, HandleTool(s1, NextDelta(k, fragment)), k, json + fragment)
  {
    NextFragment(s1, k, fragment);
    HandleToolKeeps(s1, NextDelta(k, fragment));
    StartedAfter(s1, NextDelta(k, fragment), HandleTool(s1, NextDelta(k, fragment)));
    GrowTwice(Contents(s), json, fragment);
  }

  lemma {:induction false} RunFragments(before: seq<Action>, k: int, fragments: seq<string>)
    requires Run(OPENED, before).activeTool == Some(k)
    ensures GrowsTo(Run(OPENED, before), Run(OPENED, before + FragmentActions(k, fragments)), k, Join(fragments))
  {
    if fragments == [] {
      RunKeeps(before);
      GrowsNothing(Run(OPENED, before), k);
      assert before + FragmentActions(k, fragments) == before;
    } else {
      var init, last := fragments[..|fragments| - 1], fragments[|fragments| - 1];
      RunFragments(before, k, init);
      RunNextFragment(before, before + FragmentActions(k, init), k, Join(init), last);
      assert before + FragmentActions(k, fragments) == before + FragmentActions(k, init) + [OnTool(NextDelta(k, last))];
    }
  }

  lemma {:induction false} RunNextFragment(before: seq<Action>, actions: seq<Action>, k: int, json: string,
                                           fragment: string)
    requires GrowsTo(Run(OPENED, before), Run(OPENED, actions), k, json)
    ensures GrowsTo(Run(OPENED, before), Run(OPENED, actions + [OnTool(NextDelta(k, fragment))]), k, json + fragment)
  {
    RunKeeps(actions);
    RunStep(actions, OnTool(NextDelta(k, fragment)));
    GrowsMore(Run(OPENED, before), Run(OPENED, actions), k, json, fragment);
  }

  lemma GrowTwice(contents: seq<Content>, first: string, second: string)
    requires contents != [] && contents[|contents| - 1].ToolPart?
    ensures Grown(Grown(contents, first), second) == Grown(contents, first + second)
  {
    var json := contents[|contents| - 1].json;
    assert (json + first) + second == json + (first + second);
  }

  predicate AllStarted(s: Stream) {
    forall k | k in s.tools :: s.tools[k].started
  }

  /** From `s` to `s'` one tool block was added, and no tool waits for a name. */
  ghost predicate AddsBlock(s: Stream, s': Stream, k: int, id: string, name: string, arguments: string) {
    && Contents(s') == Contents(s) + [ToolPart(Given(id), name, arguments)]
    && s'.tools.Keys == s.tools.Keys + {k}
    && (AllStarted(s) ==> AllStarted(s'))
  }

  lemma AddedBlock(s: Stream, call: StreamedCall, s': Stream)
    requires SentWithin(s.tools) && (s.activeTool.Some? ==> s.activeTool.value in s.tools)
    requires Inv(s') && ToolsAfter(s, FirstDelta(call), s') && call.name != ""
    requires Contents(s') == Contents(s) + [ToolPart(Given(call.id), call.name, call.first)]
    ensures AddsBlock(s, s', call.index, call.id, call.name, call.first)
  {
    StartedAfter(s, FirstDelta(call), s');
    assert ToolMatches(s', call.index, Contents(s'));
  }

  lemma {:induction false} RunFirst(before: seq<Action>, call: StreamedCall)
    requires call.index !in Run(OPENED, before).tools && call.id != "" && call.name != ""
    ensures var s := Run(OPENED, before); var s' := Run(OPENED, before + [OnTool(FirstDelta(call))]);
      s'.activeTool == Some(call.index) && AddsBlock(s, s', call.index, call.id, call.name, call.first)
  {
    RunKeeps(before);
    var s := Run(OPENED, before);
    RunStep(before, OnTool(FirstDelta(call)));
    FirstFragment(s, call);
    HandleToolKeeps(s, FirstDelta(call));
    AddedBlock(s, call, HandleTool(s, FirstDelta(call)));
  }

  lemma GrowsBlock(s: Stream, s1: Stream, s2: Stream, call: StreamedCall)
    requires AddsBlock(s, s1, call.index, call.id, call.name, call.first)
    requires s2.tools.Keys == s1.tools.Keys
    requires forall j | j in s1.tools :: s1.tools[j].started ==> s2.tools[j].started
    requires Contents(s2) == Grown(Contents(s1), Join(call.rest))
    ensures AddsBlock(s, s2, call.index, call.id, call.name, Assembled(call).arguments)
  {
    if AllStarted(s) {
      forall j | j in s2.tools ensures s2.tools[j].started {
        assert j in s1.tools.Keys;
      }
    }
  }

  lemma SplitCall(before: seq<Action>, call: StreamedCall)
    ensures before + CallActions(call) == before + [OnTool(FirstDelta(call))] + FragmentActions(call.index, call.rest)
  {
  }

  lemma {:induction false} RunSplitCall(before: seq<Action>, call: StreamedCall)
    requires call.index !in Run(OPENED, before).tools && call.id != "" && call.name != ""
    ensures AddsBlock(Run(OPENED, before),
                      Run(OPENED, before + [OnTool(FirstDelta(call))] + FragmentActions(call.index, call.rest)),
                      call.index, call.id, call.name, Assembled(call).arguments)
  {
    var actions := before + [OnTool(FirstDelta(call))];
    RunFirst(before, call);
    RunFragments(actions, call.index, call.rest);
    GrowsBlock(Run(OPENED, before), Run(OPENED, actions),
      Run(OPENED, actions + FragmentActions(call.index, call.rest)), call);
  }

  lemma {:induction false} RunCall(before: seq<Action>, call: StreamedCall)
    requires call.index !in Run(OPENED, before).tools && call.id != "" && call.name != ""
    ensures AddsBlock(Run(OPENED, before), Run(OPENED, before + CallActions(call)),
                      call.index, call.id, call.name, Assembled(call).arguments)
  {
    SplitCall(before, call);
    RunSplitCall(before, call);
  }

  function Indices(calls: seq<StreamedCall>): set<int> {
    set i | 0 <= i < |calls| :: calls[i].index
  }

  lemma SplitCalls(before: seq<Action>, calls: seq<StreamedCall>)
    requires calls != []
    ensures var init, last := calls[..|calls| - 1], calls[|calls| - 1];
      before + AllCallActions(calls) == before + AllCallActions(init) + CallActions(last)
  {
  }

  /** From `s` to `s'` the calls became tool blocks, and no tool waits for a name. */
  ghost predicate AddsCalls(s: Stream, s': Stream, calls: seq<StreamedCall>) {
    Contents(s') == Contents(s) + CallContents(calls) && AllStarted(s') && s'.tools.Keys == Indices(calls)
  }

  lemma {:induction false} RunCalls(before: seq<Action>, calls: seq<StreamedCall>)
    requires WellNamed(calls) && Run(OPENED, before).tools == map[]
    ensures AddsCalls(Run(OPENED, before), Run(OPENED, before + AllCallActions(calls)), calls)
  {
    if calls == [] {
      assert before + AllCallActions(calls) == before;
      assert Contents(Run(OPENED, before)) + [] == Contents(Run(OPENED, before));
    } else {
      RunCalls(before, calls[..|calls| - 1]);
      RunLastCall(before, calls);
      SplitCalls(before, calls);
    }
  }

  lemma {:induction false} RunLastCall(before: seq<Action>, calls: seq<StreamedCall>)
    requires calls != [] && WellNamed(calls)
    requires AddsCalls(Run(OPENED, before), Run(OPENED, before + AllCallActions(calls[..|calls| - 1])),
      calls[..|calls| - 1])
    ensures var init, last := calls[..|calls| - 1], calls[|calls| - 1];
      AddsCalls(Run(OPENED, before), Run(OPENED, before + AllCallActions(init) + CallActions(last)), calls)
  {
    var init, last := calls[..|calls| - 1], calls[|calls| - 1];
    var actions := before + AllCallActions(init);
    assert last.index !in Indices(init);
    assert last.index !in Run(OPENED, actions).tools.Keys;
    RunCall(actions, last);
    AddsCall(Run(OPENED, before), Run(OPENED, actions), Run(OPENED, actions + CallActions(last)), calls);
  }

  lemma AddsCall(s: Stream, s1: Stream, s2: Stream, calls: seq<StreamedCall>)
    requires calls != []
    requires AddsCalls(s, s1, calls[..|calls| - 1])
    requires var last := calls[|calls| - 1];
      AddsBlock(s1, s2, last.index, last.id, last.name, Assembled(last).arguments)
    ensures AddsCalls(s, s2, calls)
  {
    var init, last := calls[..|calls| - 1], calls[|calls| - 1];
    assert calls == init + [last];
    Associate(Contents(s), CallContents(init), [ToolPart(Given(last.id), last.name, Assembled(last).arguments)]);
    forall k ensures k in Indices(calls) <==> k in Indices(init) || k == last.index {
      if k in Indices(init) {
        var i :| 0 <= i < |init| && init[i].index == k;
        assert calls[i].index == k;
      }
      if k == last.index { assert calls[|calls| - 1].index == k; }
    }
  }

  // ----- the main result

  /** A client reads the arguments as the one-shot translation does. */
  predicate Readable(codec: Codec, arguments: string) {
    arguments == "" || (codec.parse(arguments).Some? && codec.parse(arguments).value.Object?)
  }

  function Both(a: Option<seq<ClaudeContent>>, b: Option<seq<ClaudeContent>>): Option<seq<ClaudeContent>> {
    if a.None? || b.None? then None else Some(a.value + b.value)
  }

  lemma ReadLast(codec: Codec, contents: seq<Content>, last: Content)
    ensures var read := ReadContent(codec, last);
      ReadAll(codec, contents + [last])
        == Both(ReadAll(codec, contents), if read.None? then None else Some([read.value]))
  {
    assert (contents + [last])[..|contents|] == contents;
  }

  lemma {:induction false} ReadAppend(codec: Codec, first: seq<Content>, second: seq<Content>)
    ensures ReadAll(codec, first + second) == Both(ReadAll(codec, first), ReadAll(codec, second))
  {
    var a := ReadAll(codec, first);
    if second == [] {
      assert first + second == first;
      if a.Some? { assert a.value + [] == a.value; }
    } else {
      var init, last := second[..|second| - 1], second[|second| - 1];
      ReadAppend(codec, first, init);
      ReadLast(codec, first + init, last);
      ReadLast(codec, init, last);
      assert first + second == (first + init) + [last] && second == init + [last];
      var b, c := ReadAll(codec, init), ReadContent(codec, last);
      if a.Some? && b.Some? && c.Some? {
        assert (a.value + b.value) + [c.value] == a.value + (b.value + [c.value]);
      }
    }
  }

  predicate AllReadable(codec: Codec, calls: seq<StreamedCall>) {
    forall i | 0 <= i < |calls| :: Readable(codec, Assembled(calls[i]).arguments)
  }

  lemma {:induction false} ReadCalls(codec: Codec, calls: seq<StreamedCall>)
    requires WellNamed(calls)
    ensures ReadAll(codec, CallContents(calls)) ==
      if AllReadable(codec, calls) then Some(ToolCallsToBlocks(codec, AssembledCalls(calls))) else None
  {
    if calls != [] {
      var init, last := calls[..|calls| - 1], calls[|calls| - 1];
      ReadCalls(codec, init);
      var call := Assembled(last);
      ReadLast(codec, CallContents(init), ToolPart(Given(last.id), last.name, call.arguments));
      LastReadable(codec, calls);
      LastAssembled(codec, calls);
    }
  }

  lemma LastReadable(codec: Codec, calls: seq<StreamedCall>)
    requires calls != []
    ensures AllReadable(codec, calls)
      <==> AllReadable(codec, calls[..|calls| - 1]) && Readable(codec, Assembled(calls[|calls| - 1]).arguments)
  {
    assert AllReadable(codec, calls) ==> Readable(codec, Assembled(calls[|calls| - 1]).arguments);
  }

  lemma {:induction false} LastAssembled(codec: Codec, calls: seq<StreamedCall>)
    requires calls != []
    ensures ToolCallsToBlocks(codec, AssembledCalls(calls))
         == ToolCallsToBlocks(codec, AssembledCalls(calls[..|calls| - 1]))
           + [ToolCallToBlock(codec, Assembled(calls[|calls| - 1]))]
  {
    var assembled := AssembledCalls(calls);
    assert assembled[..|assembled| - 1] == AssembledCalls(calls[..|calls| - 1]);
  }

  lemma {:induction false} NoneLate(codec: Codec, tools: map<int, Tool>, keys: seq<int>)
    requires forall i | 0 <= i < |keys| :: keys[i] in tools && tools[keys[i]].started
    ensures LateContents(codec, tools, keys) == []
  {
    if keys != [] {
      assert keys[0] in tools && tools[keys[0]].started;
      NoneLate(codec, tools, keys[1..]);
    }
  }

  lemma FinalOfStarted(codec: Codec, s: Stream)
    requires AllStarted(s)
    ensures FinalContents(codec, s) == if Contents(s) == [] then [TextPart("")] else Contents(s)
  {
    var keys := SortedKeys(s.tools.Keys);
    forall i | 0 <= i < |keys| ensures keys[i] in s.tools && s.tools[keys[i]].started {
      assert keys[i] in s.tools.Keys;
    }
    NoneLate(codec, s.tools, keys);
    assert Contents(s) + [] == Contents(s);
  }

  /** What a client reads from the blocks is the one-shot content, exactly when all arguments are readable. */
  lemma ReadsOneShot(codec: Codec, text: string, calls: seq<StreamedCall>)
    requires WellNamed(calls)
    ensures var contents := TextContents(text) + CallContents(calls);
      var read := ReadAll(codec, if contents == [] then [TextPart("")] else contents);
      var expected := MessageToContent(codec, Message(text, AssembledCalls(calls)));
      read == Some(if expected == [] then [TextContent("")] else expected)
      <==> AllReadable(codec, calls)
  {
    ReadCalls(codec, calls);
    ReadAppend(codec, TextContents(text), CallContents(calls));
    ReadLast(codec, [], TextPart(text));
    ReadLast(codec, [], TextPart(""));
    assert [] + [TextPart(text)] == [TextPart(text)] && [] + [TextPart("")] == [TextPart("")];
    assert [] + [TextContent(text)] == [TextContent(text)] && [] + [TextContent("")] == [TextContent("")];
  }

  lemma {:induction false} CallsAreToolParts(text: string, calls: seq<StreamedCall>)
    ensures var contents := TextContents(text) + CallContents(calls);
      HasToolPart(if contents == [] then [TextPart("")] else contents) <==> calls != []
  {
    if calls != [] {
      var contents := TextContents(text) + CallContents(calls);
      assert contents[|contents| - 1].ToolPart?;
    }
  }

  /**
   For text followed by named tool calls one after another, in any chunking and
   with any finish reasons, the stream ends with the one-shot stop reason, and a
   client reassembles the one-shot content if and only if the arguments of every
   call are empty or a JSON object.
   */
  lemma StreamRefinesOneShot(codec: Codec, chunks: seq<Chunk>, texts: seq<string>, calls: seq<StreamedCall>)
    requires WellNamed(calls)
    requires Payload(Flatten(chunks)) == TextActions(texts) + AllCallActions(calls)
    ensures
      var actions := Flatten(chunks);
      var f := Finish(codec, Run(OPENED, actions));
      var response := ResponseToClaude(codec, Message(Join(texts), AssembledCalls(calls)), LastReason(actions));
      && f.stopReason == response.stopReason
      && (ReadAll(codec, Contents(f)) == Some(response.content)
          <==> AllReadable(codec, calls))
  {
    var actions := Flatten(chunks);
    SequentialContents(actions, texts, calls);
    RunKeeps(actions);
    FinishedContents(codec, Run(OPENED, actions), Join(texts), calls);
    ReadsOneShot(codec, Join(texts), calls);
  }

  lemma {:induction false} SequentialContents(actions: seq<Action>, texts: seq<string>, calls: seq<StreamedCall>)
    requires WellNamed(calls) && Payload(actions) == TextActions(texts) + AllCallActions(calls)
    ensures var s := Run(OPENED, actions);
      && Contents(s) == TextContents(Join(texts)) + CallContents(calls)
      && AllStarted(s) && s.stopReason == MapStopReason(LastReason(actions))
  {
    RunIgnoresReasons(actions);
    RunTexts(texts);
    RunCalls(TextActions(texts), calls);
  }

  lemma FinishedContents(codec: Codec, s: Stream, text: string, calls: seq<StreamedCall>)
    requires Inv(s) && AllStarted(s) && Contents(s) == TextContents(text) + CallContents(calls)
    ensures var f := Finish(codec, s);
      && Contents(f) == (if Contents(s) == [] then [TextPart("")] else Contents(s))
      && f.stopReason == if calls != [] then ToolUse else s.stopReason
  {
    FinishKeeps(codec, s);
    FinalOfStarted(codec, s);
    ScanMatchesContents(Finish(codec, s).events);
    CallsAreToolParts(text, calls);
  }

  lemma OneDelta(delta: ToolDelta, reason: string)
    ensures ChunkActions(Chunk("", [delta], reason)) == [OnText(""), OnTool(delta), OnReason(reason)]
  {
    var deltas := [delta];
    assert ToolActions(deltas[..0]) == [];
    assert ToolActions(deltas) == [OnTool(delta)];
  }

  lemma OneCallPayload(chunks: seq<Chunk>, delta: ToolDelta, reason: string)
    requires chunks == [Chunk("", [delta], reason)] && reason != ""
    ensures Payload(Flatten(chunks)) == [OnTool(delta)] && LastReason(Flatten(chunks)) == reason
  {
    assert Flatten(chunks[..0]) == [];
    OneDelta(delta, reason);
    var actions := Flatten(chunks);
    assert actions == [OnText(""), OnTool(delta), OnReason(reason)];
    assert actions[..2] == [OnText(""), OnTool(delta)] && actions[..2][..1] == [OnText("")];
    assert Payload(actions[..2][..1][..0]) == [] && Payload(actions[..2][..1]) == [];
    assert Payload(actions[..2]) == [OnTool(delta)];
  }

  lemma OneCall(codec: Codec, calls: seq<StreamedCall>, call: StreamedCall)
    requires calls == [call] && call.rest == []
    ensures AllCallActions(calls) == [OnTool(FirstDelta(call))]
    ensures AssembledCalls(calls) == [ToolCall(call.id, call.name, call.first)]
    ensures AllReadable(codec, calls) <==> Readable(codec, call.first)
  {
    assert calls[..0] == [];
    assert AllCallActions(calls[..0]) == [] && AssembledCalls(calls[..0]) == [];
    assert call.first + Join([]) == call.first;
    assert AllReadable(codec, calls) ==> Readable(codec, Assembled(calls[0]).arguments);
  }

  /**
   A call whose arguments are an array, in one chunk: the one-shot translation
   wraps the array in an object, and a client of the stream cannot read it.
   */
  lemma ArrayArgumentsDiffer(codec: Codec, chunks: seq<Chunk>, message: Message)
    requires codec.parse("[1]") == Some(Array([Number(1.0)]))
    requires chunks == [Chunk("", [ToolDelta(Some(0), "call_1", "lookup", "", "[1]", "")], "tool_calls")]
    requires message == Message("", [ToolCall("call_1", "lookup", "[1]")])
    ensures ReadAll(codec, Contents(Finish(codec, Run(OPENED, Flatten(chunks)))))
         != Some(ResponseToClaude(codec, message, "tool_calls").content)
  {
    var call := StreamedCall(0, "call_1", "lookup", "[1]", []);
    var calls, texts: seq<string> := [call], [];
    OneCallPayload(chunks, FirstDelta(call), "tool_calls");
    OneCall(codec, calls, call);
    assert TextActions(texts) + AllCallActions(calls) == AllCallActions(calls);
    StreamRefinesOneShot(codec, chunks, texts, calls);
  }

  /** A block sent late, for a tool that never got a name, reads as the one-shot block of that call. */
  lemma LateToolReadsOneShot(codec: Codec, tool: Tool)
    requires Lawful(codec)
    ensures ReadContent(codec, LateContent(codec, tool))
         == Some(ToolCallToBlock(codec, ToolCall(tool.id, tool.name, tool.arguments)))
  {
    var input := ParseToolArguments(codec, tool.arguments);
    assert PrintsBack(codec, input);
  }

  function Raw(text: string): Json { Object([("raw", Str(text))]) }

  /** A codec for objects with one string, which is printed behind a mark. */
  function ParseRaw(text: string): Option<Json> {
    if text == "{}" then Some(Object([]))
    else if text != "" && text[..1] == "=" then Some(Raw(text[1..]))
    else None
  }

  function PrintRaw(json: Json): string {
    if json.Object? && |json.members| == 1 && json.members[0].1.Str? then "=" + json.members[0].1.text else "{}"
  }

  lemma RawPrintsBack(text: string)
    ensures ParseRaw(PrintRaw(Raw(text))) == Some(Raw(text))
  {
    assert Raw(text).members[0] == ("raw", Str(text));
    var printed := PrintRaw(Raw(text));
    assert printed == "=" + text && printed[..1] == "=" && printed[1..] == text;
    assert "{}"[..1] == "{" != "=";
  }

  /** The law of the codec can be met. */
  lemma SomeCodecIsLawful()
    ensures exists codec :: Lawful(codec)
  {
    var codec := Codec(ParseRaw, PrintRaw);
    forall text ensures PrintsBack(codec, Object([("raw", Str(text))])) {
      RawPrintsBack(text);
    }
    forall text | ParseRaw(text).Some? ensures PrintsBack(codec, ParseRaw(text).value) {
      if text != "{}" {
        RawPrintsBack(text[1..]);
      }
    }
    assert Lawful(codec);
  }
}
