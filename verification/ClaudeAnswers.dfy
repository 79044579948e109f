/**
 What a Claude client is told at the end, and what it is given for each tool
 call, said of the deltas and of the finished message alone.
 */
module ClaudeAnswers {
  import opened Wrappers
  import opened ClaudeEvents
  import opened ClaudeBridge
  import opened ClaudeInvariant
  import opened ClaudeRefinement

  // ----- stop reasons

  /** The stop reason of a message without tools, for the last finish reason that was sent upstream. */
  predicate StopsFor(stop: StopReason, finishReason: string) {
    && (stop == MaxTokens <==> finishReason == "length")
    && (stop == StopSequence <==> finishReason == "content_filter")
    && (stop == ToolUse <==> finishReason == "tool_calls" || finishReason == "function_call")
  }

  lemma {:induction false} ReasonOfRun(actions: seq<Action>)
    ensures StopsFor(Run(OPENED, actions).stopReason, LastReason(actions))
  {
    RunIgnoresReasons(actions);
  }

  lemma EndEvents(codec: Codec, s: Stream)
    ensures var f := Finish(codec, s); var n := |f.events|;
      n >= 2 && f.events[n - 2] == MessageDelta(f.stopReason) && f.events[n - 1] == MessageStop
  {
  }

  /**
   The last events of a stream that did not fail give a stop reason, and it is
   the one kept for the usage record: tool use when a tool block was sent, and
   otherwise what the last finish reason stands for.
   */
  lemma {:induction false} StreamStopsFor(codec: Codec, actions: seq<Action>)
    ensures var f := Finish(codec, Run(OPENED, actions)); var n := |f.events|;
      && n >= 2 && f.events[n - 2] == MessageDelta(f.stopReason) && f.events[n - 1] == MessageStop
      && if HasToolPart(Contents(f)) then f.stopReason == ToolUse else StopsFor(f.stopReason, LastReason(actions))
  {
    var s := Run(OPENED, actions);
    ReasonOfRun(actions);
    EndEvents(codec, s);
    CompletedRunIsBracketed(codec, actions);
    ScanMatchesContents(Finish(codec, s).events);
  }

  /** The one-shot answer stops for tool use when the message has tool calls, and otherwise as the stream does. */
  lemma ResponseStopsFor(codec: Codec, message: Message, finishReason: string)
    ensures var stop := ResponseToClaude(codec, message, finishReason).stopReason;
      if message.toolCalls != [] then stop == ToolUse else StopsFor(stop, finishReason)
  {
  }

  // ----- the blocks of the one-shot answer

  /** A tool use for a call: what the call lacks gets a random id and the name `tool`. */
  predicate UseFor(codec: Codec, call: ToolCall, content: ClaudeContent) {
    && content.ToolUseContent?
    && content.id == (if call.id == "" then Random else Given(call.id))
    && content.name == (if call.name == "" then "tool" else call.name)
    && InputFor(codec, call.arguments, content.input)
  }

  /** Arguments that are an object are kept, other values are wrapped, and so is a text that is no JSON. */
  predicate InputFor(codec: Codec, arguments: string, input: Json) {
    if arguments == "" then input == Object([])
    else
      match codec.parse(arguments)
      case Some(Object(members)) => input == Object(members)
      case Some(Null) => input == Object([("raw", Str(arguments))])
      case Some(value) => input == Object([("value", value)])
      case None => input == Object([("raw", Str(arguments))])
  }

  predicate UsesFor(codec: Codec, calls: seq<ToolCall>, contents: seq<ClaudeContent>) {
    |contents| == |calls| && forall i | 0 <= i < |calls| :: UseFor(codec, calls[i], contents[i])
  }

  lemma UseForCall(codec: Codec, call: ToolCall)
    ensures UseFor(codec, call, ToolCallToBlock(codec, call))
  {
  }

  lemma {:induction false} UsesForCalls(codec: Codec, calls: seq<ToolCall>)
    ensures UsesFor(codec, calls, ToolCallsToBlocks(codec, calls))
  {
    if calls != [] {
      UsesForCalls(codec, calls[..|calls| - 1]);
      UseForCall(codec, calls[|calls| - 1]);
    }
  }

  lemma DropFirst<T>(first: T, rest: seq<T>)
    ensures ([first] + rest)[1..] == rest && ([] + rest)[0..] == rest
  {
  }

  /** The one-shot answer holds the text, when there is any, and then one tool use for each call, in order. */
  lemma {:induction false} ResponseHolds(codec: Codec, message: Message, finishReason: string)
    ensures var content := ResponseToClaude(codec, message, finishReason).content;
      if message.content != "" then
        && content != [] && content[0] == TextContent(message.content)
        && UsesFor(codec, message.toolCalls, content[1..])
      else if message.toolCalls != [] then UsesFor(codec, message.toolCalls, content)
      else content == [TextContent("")]
  {
    var blocks := ToolCallsToBlocks(codec, message.toolCalls);
    UsesForCalls(codec, message.toolCalls);
    DropFirst(TextContent(message.content), blocks);
    assert [] + blocks == blocks;
  }
}
