/**
 The translation of an OpenAI chat stream into Claude events, one delta at a
 time, and the one-shot translation of a finished message.
 */
module ClaudeBridge {
  import opened Wrappers
  import opened ClaudeEvents

  // ----- JSON and the one-shot translation

  datatype Json =
    | Null
    | Bool(truth: bool)
    | Number(value: real)
    | Str(text: string)
    | Array(items: seq<Json>)
    | Object(members: seq<(string, Json)>)

  /** JSON.parse, None when it throws, and JSON.stringify. */
  datatype Codec = Codec(parse: string -> Option<Json>, stringify: Json -> string)

  predicate PrintsBack(codec: Codec, json: Json) {
    codec.parse(codec.stringify(json)) == Some(json)
  }

  /** What is parsed from a text prints back, also as a member of an object, and so does an object with one string. */
  ghost predicate Lawful(codec: Codec) {
    && codec.parse("{}") == Some(Object([])) && codec.stringify(Object([])) == "{}"
    && codec.parse("").None?
    && (forall text {:trigger codec.parse(text)} | codec.parse(text).Some? ::
      var parsed := codec.parse(text).value;
      && (parsed.Object? ==> PrintsBack(codec, parsed))
      && (!parsed.Object? && !parsed.Null? ==> PrintsBack(codec, Object([("value", parsed)]))))
    && (forall text :: PrintsBack(codec, Object([("raw", Str(text))])))
  }

  function ParseToolArguments(codec: Codec, value: string): (input: Json)
    ensures input.Object?
  {
    if value == "" then Object([])
    else
      var parsed := codec.parse(value);
      if parsed.Some? && parsed.value.Object? then parsed.value
      else if parsed.Some? && !parsed.value.Null? then Object([("value", parsed.value)])
      else Object([("raw", Str(value))])
  }

  function MapStopReason(reason: string): StopReason {
    if reason == "length" then MaxTokens
    else if reason == "tool_calls" || reason == "function_call" then ToolUse
    else if reason == "content_filter" then StopSequence
    else EndTurn
  }

  datatype ClaudeContent = TextContent(text: string) | ToolUseContent(id: ToolId, name: string, input: Json)

  /** A finished tool call; an empty id or name stands for a missing one. */
  datatype ToolCall = ToolCall(id: string, name: string, arguments: string)

  datatype Message = Message(content: string, toolCalls: seq<ToolCall>)

  function ToolCallToBlock(codec: Codec, call: ToolCall): ClaudeContent {
    ToolUseContent(if call.id == "" then Random else Given(call.id),
                   if call.name == "" then "tool" else call.name,
                   ParseToolArguments(codec, call.arguments))
  }

  function ToolCallsToBlocks(codec: Codec, calls: seq<ToolCall>): seq<ClaudeContent> {
    if calls == [] then []
    else ToolCallsToBlocks(codec, calls[..|calls| - 1]) + [ToolCallToBlock(codec, calls[|calls| - 1])]
  }

  function MessageToContent(codec: Codec, message: Message): seq<ClaudeContent> {
    (if message.content == "" then [] else [TextContent(message.content)]) + ToolCallsToBlocks(codec, message.toolCalls)
  }

  datatype Response = Response(content: seq<ClaudeContent>, stopReason: StopReason)

  function ResponseToClaude(codec: Codec, message: Message, finishReason: string): Response {
    var content := MessageToContent(codec, message);
    Response(if content == [] then [TextContent("")] else content,
             if message.toolCalls != [] then ToolUse else MapStopReason(finishReason))
  }

  // ----- the stream state

  /** One streamed tool; `blockIndex` is meaningful once started. */
  datatype Tool = Tool(id: string, name: string, arguments: string, blockIndex: nat, started: bool, done: bool,
                       sentChars: nat)

  const NEW_TOOL := Tool("", "", "", 0, false, false, 0)

  datatype Stream = Stream(
    next: nat,
    textBlock: Option<nat>,
    activeTool: Option<int>,
    tools: map<int, Tool>,
    stopReason: StopReason,
    events: seq<Event>)

  const OPENED := Stream(0, None, None, map[], EndTurn, [MessageStart])

  /** One entry of a tool_calls delta; empty strings stand for missing fields. */
  datatype ToolDelta = ToolDelta(index: Option<int>, id: string, fnName: string, name: string, fnArguments: string,
                                 arguments: string)

  /** One data payload: its text, its tool deltas and its finish reason ("" when it has none). */
  datatype Chunk = Chunk(text: string, tools: seq<ToolDelta>, finishReason: string)

  function Emit(s: Stream, event: Event): Stream {
    s.(events := s.events + [event])
  }

  function CloseText(s: Stream): Stream {
    if s.textBlock.None? then s else Emit(s, BlockStop(s.textBlock.value)).(textBlock := None)
  }

  function FinalizeActive(s: Stream): Stream {
    if s.activeTool.None? then s
    else
      var k := s.activeTool.value;
      if k in s.tools && s.tools[k].started && !s.tools[k].done
      then Emit(s, BlockStop(s.tools[k].blockIndex)).(tools := s.tools[k := s.tools[k].(done := true)],
        activeTool := None)
      else s.(activeTool := None)
  }

  function EnsureText(s: Stream): Stream {
    var s1 := FinalizeActive(s);
    if s1.textBlock.Some? then s1
    else Emit(s1, BlockStart(s1.next, TextBlock)).(textBlock := Some(s1.next), next := s1.next + 1)
  }

  function HandleText(s: Stream, text: string): Stream {
    if text == "" then s
    else
      var s1 := EnsureText(s);
      Emit(s1, TextDelta(s1.textBlock.value, text))
  }

  function ToolKey(s: Stream, delta: ToolDelta): int {
    if delta.index.Some? then delta.index.value else |s.tools|
  }

  function MergeName(name: string, next: string): string {
    if name != "" && name <= next then next else name + next
  }

  function Merge(tool: Tool, delta: ToolDelta): Tool {
    var named := if delta.fnName == "" then tool.name else MergeName(tool.name, delta.fnName);
    tool.(id := if delta.id == "" then tool.id else delta.id,
          name := if named == "" then delta.name else named,
          arguments := tool.arguments + delta.fnArguments + delta.arguments)
  }

  function StartTool(s: Stream, k: int): Stream
    requires k in s.tools
  {
    var s1 := CloseText(s);
    var s2 := if s1.activeTool.Some? && s1.activeTool.value != k then FinalizeActive(s1) else s1;
    var tool := s.tools[k];
    Emit(s2, BlockStart(s2.next, ToolBlock(if tool.id == "" then FromIndex(k) else Given(tool.id), tool.name)))
      .(tools := s2.tools[k := tool.(blockIndex := s2.next, started := true)],
        next := s2.next + 1,
        activeTool := Some(k))
  }

  function EmitArguments(s: Stream, k: int): Stream
    requires k in s.tools && s.tools[k].sentChars <= |s.tools[k].arguments|
  {
    var tool := s.tools[k];
    var pending := tool.arguments[tool.sentChars..];
    if pending == "" then s
    else Emit(s, ArgsDelta(tool.blockIndex, pending)).(tools := s.tools[k := tool.(sentChars := |tool.arguments|)])
  }

  predicate SentWithin(tools: map<int, Tool>) {
    forall k | k in tools :: tools[k].sentChars <= |tools[k].arguments|
  }

  /** The delta is recorded in its tool, which may be a new one. */
  function Record(s: Stream, delta: ToolDelta): (s': Stream)
    requires SentWithin(s.tools)
    ensures SentWithin(s'.tools) && ToolKey(s, delta) in s'.tools
  {
    var k := ToolKey(s, delta);
    s.(tools := s.tools[k := Merge(if k in s.tools then s.tools[k] else NEW_TOOL, delta)])
  }

  /** A tool that has a name gets its block; what it has not sent yet goes there. */
  function Respond(s: Stream, k: int): (s': Stream)
    requires SentWithin(s.tools) && k in s.tools
    ensures SentWithin(s'.tools)
  {
    var tool := s.tools[k];
    if tool.done then s
    else if tool.started then EmitArguments(s, k)
    else if tool.name == "" then s
    else EmitArguments(StartTool(s, k), k)
  }

  function HandleTool(s: Stream, delta: ToolDelta): (s': Stream)
    requires SentWithin(s.tools)
    ensures SentWithin(s'.tools)
  {
    Respond(Record(s, delta), ToolKey(s, delta))
  }

  function HandleReason(s: Stream, reason: string): Stream {
    if reason == "" then s else s.(stopReason := MapStopReason(reason))
  }

  /** One delta of the stream. */
  datatype Action = OnText(text: string) | OnTool(delta: ToolDelta) | OnReason(reason: string)

  function Step(s: Stream, action: Action): (s': Stream)
    requires SentWithin(s.tools)
    ensures SentWithin(s'.tools)
  {
    match action
    case OnText(text) => HandleText(s, text)
    case OnTool(delta) => HandleTool(s, delta)
    case OnReason(reason) => HandleReason(s, reason)
  }

  function Run(s: Stream, actions: seq<Action>): (s': Stream)
    requires SentWithin(s.tools)
    ensures SentWithin(s'.tools)
  {
    if actions == [] then s
    else Step(Run(s, actions[..|actions| - 1]), actions[|actions| - 1])
  }

  lemma RunStep(before: seq<Action>, action: Action)
    ensures Run(OPENED, before + [action]) == Step(Run(OPENED, before), action)
  {
    assert (before + [action])[..|before|] == before;
  }

  // ----- the end of the stream

  ghost function SortedKeys(keys: set<int>): (r: seq<int>)
    ensures forall k :: k in keys <==> k in r
    ensures forall i, j | 0 <= i < j < |r| :: r[i] < r[j]
  {
    if keys == {} then []
    else
      HasLeastKey(keys);
      var least :| least in keys && forall k | k in keys :: least <= k;
      [least] + SortedKeys(keys - {least})
  }

  lemma HasKey(keys: set<int>)
    requires keys != {}
    ensures exists k :: k in keys
  {
    if forall k :: k !in keys { assert false; }
  }

  lemma {:induction false} LeastKey(keys: set<int>) returns (least: int)
    requires keys != {}
    ensures least in keys && forall k | k in keys :: least <= k
  {
    HasKey(keys);
    least :| least in keys;
    var rest := keys - {least};
    if rest != {} {
      var other := LeastKey(rest);
      assert forall k | k in keys :: k == least || k in rest;
      if other < least { least := other; }
    } else {
      assert forall k | k in keys :: k == least || k in rest;
    }
  }

  lemma HasLeastKey(keys: set<int>)
    requires keys != {}
    ensures exists least :: least in keys && forall k | k in keys :: least <= k
  {
    var least := LeastKey(keys);
  }

  /** The arguments of a tool that never got a name, as the late block sends them. */
  function LateJson(codec: Codec, tool: Tool): string {
    var json := codec.stringify(ParseToolArguments(codec, tool.arguments));
    if json == "{}" then "" else json
  }

  /** The block of a tool that never started. */
  function LateContent(codec: Codec, tool: Tool): (content: Content)
    ensures content.ToolPart?
  {
    ToolPart(if tool.id == "" then Random else Given(tool.id),
             if tool.name == "" then "tool" else tool.name,
             LateJson(codec, tool))
  }

  predicate IsLate(tool: Tool) {
    !tool.started && (tool.name != "" || tool.arguments != "")
  }

  /** A tool that never started gets its whole block when the stream ends. */
  function EmitLate(codec: Codec, s: Stream, k: int): Stream
    requires k in s.tools
  {
    var tool := s.tools[k];
    if !IsLate(tool) then s
    else
      var content := LateContent(codec, tool);
      s.(events := s.events + WholeBlock(s.next, ToolBlock(content.id, content.name), content.json),
         next := s.next + 1,
         tools := s.tools[k := tool.(done := true)])
  }

  function EmitAllLate(codec: Codec, s: Stream, keys: seq<int>): (s': Stream)
    requires forall i | 0 <= i < |keys| :: keys[i] in s.tools
    ensures s'.tools.Keys == s.tools.Keys && s'.stopReason == s.stopReason
    decreases |keys|
  {
    if keys == [] then s else EmitAllLate(codec, EmitLate(codec, s, keys[0]), keys[1..])
  }

  function UsedTools(tools: map<int, Tool>): set<int> {
    set k | k in tools && (tools[k].started || tools[k].done)
  }

  /** The last events: an empty message gets one empty text block. */
  function CloseMessage(s: Stream): Stream {
    var reason := if UsedTools(s.tools) != {} then ToolUse else s.stopReason;
    var s1 := if s.next > 0 then s else Emit(Emit(s, BlockStart(0, TextBlock)), BlockStop(0)).(next := 1);
    Emit(Emit(s1, MessageDelta(reason)), MessageStop).(stopReason := reason)
  }

  /** The end of a stream that did not fail. */
  ghost function Finish(codec: Codec, s: Stream): Stream {
    var s1 := CloseText(FinalizeActive(s));
    CloseMessage(EmitAllLate(codec, s1, SortedKeys(s1.tools.Keys)))
  }

  /** The end of a stream that failed. */
  function Fail(s: Stream): Stream { Emit(s, StreamError) }
}
