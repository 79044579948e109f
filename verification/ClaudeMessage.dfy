/** The message that a client reads from a stream, said of the deltas that were sent upstream alone. */
module ClaudeMessage {
  import opened Wrappers
  import opened ClaudeEvents
  import opened ClaudeBridge
  import opened ClaudeInvariant
  import opened ClaudeRefinement
  import opened ClaudeAnswers

  // ----- the deltas of a tool

  /** The tools that deltas were sent for. */
  function Keys(actions: seq<Action>): set<int>
    decreases |actions|, 0
  {
    if actions == [] then {}
    else
      var before, last := actions[..|actions| - 1], actions[|actions| - 1];
      if last.OnTool? then Keys(before) + {Addressed(before, last.delta)} else Keys(before)
  }

  /** A delta without an index is for the tool whose number is how many there are so far. */
  function Addressed(before: seq<Action>, delta: ToolDelta): int
    decreases |before|, 1
  {
    match delta.index
    case Some(k) => k
    case None => |Keys(before)|
  }

  predicate For(before: seq<Action>, action: Action, k: int) {
    action.OnTool? && Addressed(before, action.delta) == k
  }

  function NameIn(delta: ToolDelta): string {
    if delta.fnName != "" then delta.fnName else delta.name
  }

  /** Some delta for the tool had a name. */
  predicate Named(actions: seq<Action>, k: int) {
    actions != [] &&
    var before, last := actions[..|actions| - 1], actions[|actions| - 1];
    Named(before, k) || (For(before, last, k) && NameIn(last.delta) != "")
  }

  /** The id that was sent last for the tool. */
  function LatestId(actions: seq<Action>, k: int): string {
    if actions == [] then ""
    else
      var before, last := actions[..|actions| - 1], actions[|actions| - 1];
      if For(before, last, k) && last.delta.id != "" then last.delta.id else LatestId(before, k)
  }

  /** All arguments that were sent for the tool. */
  function Arrived(actions: seq<Action>, k: int): string {
    if actions == [] then ""
    else
      var before, last := actions[..|actions| - 1], actions[|actions| - 1];
      if For(before, last, k) then Arrived(before, k) + last.delta.fnArguments + last.delta.arguments
      else Arrived(before, k)
  }

  // ----- the blocks

  /** The blocks so far, and the tool that the newest one is for, unless it is a text. */
  datatype Draft = Draft(blocks: seq<Content>, owner: Option<int>) {
    predicate Valid() {
      && (blocks == [] ==> owner.None?)
      && (blocks != [] ==> (owner.Some? <==> blocks[|blocks| - 1].ToolPart?))
    }
  }

  /** A text continues a text; behind a tool it begins another block. */
  function WithText(d: Draft, text: string): (d': Draft)
    requires d.Valid()
    ensures d'.Valid()
  {
    var n := |d.blocks|;
    if text == "" then d
    else if n > 0 && d.blocks[n - 1].TextPart?
    then d.(blocks := d.blocks[n - 1 := TextPart(d.blocks[n - 1].text + text)])
    else Draft(d.blocks + [TextPart(text)], None)
  }

  /**
   The first delta with a name begins the block of its tool, with all arguments
   so far; later arguments go there while no other block has begun, and nowhere
   after that.
   */
  function WithTool(d: Draft, before: seq<Action>, delta: ToolDelta): (d': Draft)
    requires d.Valid()
    ensures d'.Valid()
  {
    var k, actions := Addressed(before, delta), before + [OnTool(delta)];
    if Named(before, k) then
      if d.owner == Some(k) then d.(blocks := Grown(d.blocks, delta.fnArguments + delta.arguments)) else d
    else if NameIn(delta) == "" then d
    else
      var id := LatestId(actions, k);
      Draft(d.blocks + [ToolPart(if id == "" then FromIndex(k) else Given(id), NameIn(delta), Arrived(actions, k))],
            Some(k))
  }

  function Assembled(actions: seq<Action>): (d: Draft)
    ensures d.Valid()
  {
    if actions == [] then Draft([], None)
    else
      var before, last := actions[..|actions| - 1], actions[|actions| - 1];
      match last
      case OnText(text) => WithText(Assembled(before), text)
      case OnTool(delta) => WithTool(Assembled(before), before, delta)
      case OnReason(_) => Assembled(before)
  }

  // ----- the stream keeps the draft

  /** What is kept of a tool is what was sent for it. */
  predicate Keeps(tools: map<int, Tool>, actions: seq<Action>, k: int) {
    if k in tools then
      && tools[k].id == LatestId(actions, k) && tools[k].arguments == Arrived(actions, k)
      && (tools[k].started <==> Named(actions, k))
    else LatestId(actions, k) == "" && Arrived(actions, k) == "" && !Named(actions, k)
  }

  ghost predicate KeepsAll(tools: map<int, Tool>, actions: seq<Action>) {
    && tools.Keys == Keys(actions)
    && forall k {:trigger Keeps(tools, actions, k)} :: Keeps(tools, actions, k)
  }

  /** The client has read the draft, and its newest block is the open one. */
  predicate Draws(s: Stream, d: Draft) {
    && Contents(s) == d.blocks && s.activeTool == d.owner
    && (s.textBlock.Some? <==> d.blocks != [] && d.owner.None?)
  }

  lemma Before(before: seq<Action>, action: Action)
    ensures (before + [action])[..|before|] == before
  {
  }

  lemma OtherTools(tools: map<int, Tool>, tools': map<int, Tool>, before: seq<Action>, action: Action)
    requires KeepsAll(tools, before) && !action.OnTool?
    requires tools'.Keys == tools.Keys
    requires forall k | k in tools && k in tools' :: tools'[k].(done := tools[k].done) == tools[k]
    ensures KeepsAll(tools', before + [action])
  {
    Before(before, action);
    forall k ensures Keeps(tools', before + [action], k) {
      assert Keeps(tools, before, k);
      assert k in tools <==> k in tools.Keys;
      assert k in tools' <==> k in tools'.Keys;
    }
  }

  lemma Deactivates(s: Stream)
    requires Core(s)
    ensures Deactivated(s).Keys == s.tools.Keys
    ensures forall k | k in s.tools && k in Deactivated(s) :: Deactivated(s)[k].(done := s.tools[k].done) == s.tools[k]
  {
  }

  lemma OpensText(s: Stream)
    requires Core(s) && s.textBlock.None? && s.activeTool.None?
    ensures var s' := EnsureText(s);
      s'.textBlock == Some(s.next) && Contents(s') == Contents(s) + [TextPart("")] && s'.activeTool.None? && Core(s')
  {
    OpenText(s);
    AppendEvent(s.events, BlockStart(s.next, TextBlock));
  }

  lemma WritesText(s: Stream, text: string)
    requires Core(s) && s.textBlock.Some?
    ensures var n := |Contents(s)|; var s' := Emit(s, TextDelta(s.textBlock.value, text));
      && n > 0 && Contents(s)[n - 1].TextPart?
      && Contents(s') == Contents(s)[n - 1 := TextPart(Contents(s)[n - 1].text + text)]
  {
    AppendEvent(s.events, TextDelta(s.textBlock.value, text));
  }

  lemma {:induction false} DrawsText(s: Stream, d: Draft, text: string)
    requires Inv(s) && d.Valid() && Draws(s, d)
    ensures Draws(HandleText(s, text), WithText(d, text))
  {
    if text != "" {
      FinalizeActiveCore(s);
      var s1 := FinalizeActive(s);
      if s1.textBlock.None? {
        OpensText(s1);
        WritesText(EnsureText(s1), text);
        assert EnsureText(s) == EnsureText(s1);
        assert "" + text == text;
      } else {
        WritesText(s1, text);
      }
    }
  }

  lemma {:induction false} TextKeepsTools(s: Stream, text: string)
    requires Inv(s)
    ensures HandleText(s, text).tools == if text == "" then s.tools else Deactivated(s)
  {
    FinalizeActiveCore(s);
  }

  /** What a delta adds to its tool. */
  lemma {:induction false} Records(s: Stream, before: seq<Action>, delta: ToolDelta)
    requires Inv(s) && KeepsAll(s.tools, before)
    ensures var k, actions, s1 := ToolKey(s, delta), before + [OnTool(delta)], Record(s, delta);
      && k == Addressed(before, delta) && s1.tools.Keys == Keys(actions)
      && (forall j | j in s1.tools :: j != k ==> j in s.tools && s1.tools[j] == s.tools[j])
      && s1.tools[k].id == LatestId(actions, k) && s1.tools[k].arguments == Arrived(actions, k)
      && (s1.tools[k].started <==> Named(before, k))
      && (!s1.tools[k].started ==> s1.tools[k].name == NameIn(delta))
  {
    Before(before, OnTool(delta));
    assert |s.tools| == |s.tools.Keys|;
    var k := ToolKey(s, delta);
    assert Keeps(s.tools, before, k);
  }

  /** The response to a delta starts its tool if that has a name, and leaves ids and arguments alone. */
  lemma {:induction false} RespondsTo(s: Stream, k: int, s': Stream)
    requires Core(s) && k in s.tools && ToolsResponded(s, k, s')
    ensures s'.tools.Keys == s.tools.Keys
    ensures forall j {:trigger s'.tools[j]} | j in s.tools && j in s'.tools ::
      && s'.tools[j].id == s.tools[j].id && s'.tools[j].arguments == s.tools[j].arguments
      && (s'.tools[j].started <==> s.tools[j].started || (j == k && s.tools[k].name != ""))
  {
    assert ToolMatches(s, k, Contents(s));
  }

  /** What a delta for `k` does to what is known of the tool `j`. */
  lemma KeepsNext(tools: map<int, Tool>, tools': map<int, Tool>, before: seq<Action>, delta: ToolDelta, k: int, j: int)
    requires Keeps(tools, before, j) && k == Addressed(before, delta)
    requires j != k ==> (j in tools' <==> j in tools)
    requires j != k && j in tools && j in tools' ==>
      && tools'[j].id == tools[j].id && tools'[j].arguments == tools[j].arguments
      && (tools'[j].started <==> tools[j].started)
    requires j == k ==>
      && k in tools' && tools'[k].id == LatestId(before + [OnTool(delta)], k)
      && tools'[k].arguments == Arrived(before + [OnTool(delta)], k)
      && (tools'[k].started <==> Named(before, k) || NameIn(delta) != "")
    ensures Keeps(tools', before + [OnTool(delta)], j)
  {
    Before(before, OnTool(delta));
  }

  lemma {:induction false} ToolKeepsTools(s: Stream, before: seq<Action>, delta: ToolDelta)
    requires Inv(s) && KeepsAll(s.tools, before)
    ensures KeepsAll(HandleTool(s, delta).tools, before + [OnTool(delta)])
  {
    var k, s1, s' := ToolKey(s, delta), Record(s, delta), HandleTool(s, delta);
    Records(s, before, delta);
    HandleToolKeeps(s, delta);
    RecordCore(s, delta);
    RespondsTo(s1, k, s');
    forall j ensures Keeps(s'.tools, before + [OnTool(delta)], j) {
      assert Keeps(s.tools, before, j);
      assert j in s'.tools <==> j in s1.tools.Keys;
      KeepsNext(s.tools, s'.tools, before, delta, k, j);
    }
  }

  lemma {:induction false} DrawsTool(s: Stream, d: Draft, before: seq<Action>, delta: ToolDelta)
    requires Inv(s) && KeepsAll(s.tools, before) && d.Valid() && Draws(s, d)
    ensures Draws(HandleTool(s, delta), WithTool(d, before, delta))
  {
    Records(s, before, delta);
    RecordCore(s, delta);
    var k, s1 := ToolKey(s, delta), Record(s, delta);
    var tool := s1.tools[k];
    assert ToolMatches(s1, k, Contents(s1));
    assert RestedElsewhere(s1, k);
    if tool.started && !tool.done {
      GrowToolKeeps(s1, k);
      Appended(s.tools[k].arguments, delta.fnArguments, delta.arguments);
    } else if !tool.started && tool.name != "" {
      NewToolKeeps(s1, k);
    }
  }

  lemma Appended(first: string, second: string, third: string)
    ensures (first + second + third)[|first|..] == second + third
  {
  }

  ghost predicate Linked(s: Stream, actions: seq<Action>) {
    Inv(s) && KeepsAll(s.tools, actions) && Draws(s, Assembled(actions))
  }

  lemma {:induction false} AssembledNext(before: seq<Action>, action: Action)
    ensures Assembled(before + [action]) ==
            match action
            case OnText(text) => WithText(Assembled(before), text)
            case OnTool(delta) => WithTool(Assembled(before), before, delta)
            case OnReason(_) => Assembled(before)
  {
    Before(before, action);
  }

  lemma {:induction false} TextLinks(s: Stream, before: seq<Action>, text: string)
    requires Linked(s, before)
    ensures Linked(HandleText(s, text), before + [OnText(text)])
  {
    Deactivates(s);
    TextKeepsTools(s, text);
    OtherTools(s.tools, HandleText(s, text).tools, before, OnText(text));
    HandleTextKeeps(s, text);
    DrawsText(s, Assembled(before), text);
    AssembledNext(before, OnText(text));
  }

  lemma {:induction false} ToolLinks(s: Stream, before: seq<Action>, delta: ToolDelta)
    requires Linked(s, before)
    ensures Linked(HandleTool(s, delta), before + [OnTool(delta)])
  {
    ToolKeepsTools(s, before, delta);
    HandleToolKeeps(s, delta);
    DrawsTool(s, Assembled(before), before, delta);
    AssembledNext(before, OnTool(delta));
  }

  lemma {:induction false} ReasonLinks(s: Stream, before: seq<Action>, reason: string)
    requires Linked(s, before)
    ensures Linked(HandleReason(s, reason), before + [OnReason(reason)])
  {
    OtherTools(s.tools, s.tools, before, OnReason(reason));
    AssembledNext(before, OnReason(reason));
  }

  lemma {:induction false} RunLinks(actions: seq<Action>)
    ensures Linked(Run(OPENED, actions), actions)
  {
    if actions == [] {
      RunKeeps([]);
      AppendEvent([], MessageStart);
      assert [] + [MessageStart] == [MessageStart];
    } else {
      var before, last := actions[..|actions| - 1], actions[|actions| - 1];
      assert actions == before + [last];
      RunLinks(before);
      match last
      case OnText(text) => TextLinks(Run(OPENED, before), before, text);
      case OnTool(delta) => ToolLinks(Run(OPENED, before), before, delta);
      case OnReason(reason) => ReasonLinks(Run(OPENED, before), before, reason);
    }
  }

  /** After any deltas, the client has read the blocks that they assemble. */
  lemma {:induction false} StreamAssembles(actions: seq<Action>)
    ensures Contents(Run(OPENED, actions)) == Assembled(actions).blocks
  {
    RunLinks(actions);
  }

  // ----- payloads

  /** The tool deltas of one payload, in order. */
  function WithTools(d: Draft, before: seq<Action>, deltas: seq<ToolDelta>): (d': Draft)
    requires d.Valid()
    ensures d'.Valid()
    decreases |deltas|
  {
    if deltas == [] then d
    else WithTools(WithTool(d, before, deltas[0]), before + [OnTool(deltas[0])], deltas[1..])
  }

  lemma {:induction false} ToolActionsNext(deltas: seq<ToolDelta>)
    requires deltas != []
    ensures ToolActions(deltas) == [OnTool(deltas[0])] + ToolActions(deltas[1..])
  {
    if |deltas| > 1 {
      var init := deltas[..|deltas| - 1];
      ToolActionsNext(init);
      assert init[1..] == deltas[1..][..|deltas| - 2] && deltas[1..][|deltas| - 2] == deltas[|deltas| - 1];
    }
  }

  lemma {:induction false} ToolsAssemble(before: seq<Action>, deltas: seq<ToolDelta>)
    ensures Assembled(before + ToolActions(deltas)) == WithTools(Assembled(before), before, deltas)
    decreases |deltas|
  {
    if deltas == [] {
      assert before + [] == before;
    } else {
      var next := before + [OnTool(deltas[0])];
      ToolActionsNext(deltas);
      assert before + ToolActions(deltas) == next + ToolActions(deltas[1..]);
      AssembledNext(before, OnTool(deltas[0]));
      ToolsAssemble(next, deltas[1..]);
    }
  }

  /** A payload brings its text first, and then its tool deltas, in order. */
  lemma {:induction false} PayloadAssembles(chunks: seq<Chunk>, chunk: Chunk)
    ensures var before := Flatten(chunks);
      Assembled(Flatten(chunks + [chunk])).blocks ==
      WithTools(WithText(Assembled(before), chunk.text), before + [OnText(chunk.text)], chunk.tools).blocks
  {
    var before, text, reason := Flatten(chunks), OnText(chunk.text), OnReason(chunk.finishReason);
    var tools := ToolActions(chunk.tools);
    assert (chunks + [chunk])[..|chunks|] == chunks;
    assert Flatten(chunks + [chunk]) == (before + [text] + tools) + [reason];
    AssembledNext(before, text);
    ToolsAssemble(before + [text], chunk.tools);
    AssembledNext(before + [text] + tools, reason);
  }

  // ----- the end

  /** Arguments were sent for the tool, and never a name. */
  predicate Nameless(actions: seq<Action>, k: int) {
    !Named(actions, k) && Arrived(actions, k) != ""
  }

  /** The late block of a tool: its input as the one-shot answer would have it, printed unless it is empty. */
  ghost predicate LateFor(codec: Codec, actions: seq<Action>, k: int, block: Content) {
    var id := LatestId(actions, k);
    && block.ToolPart? && block.name == "tool" && block.id == (if id == "" then Random else Given(id))
    && exists input :: InputFor(codec, Arrived(actions, k), input)
         && block.json == if codec.stringify(input) == "{}" then "" else codec.stringify(input)
  }

  /** One late block for each nameless tool, in the order of the keys. */
  ghost predicate LateForAll(codec: Codec, actions: seq<Action>, keys: seq<int>, blocks: seq<Content>)
    decreases |keys|
  {
    if keys == [] then blocks == []
    else if Nameless(actions, keys[0]) then
      && blocks != [] && LateFor(codec, actions, keys[0], blocks[0])
      && LateForAll(codec, actions, keys[1..], blocks[1..])
    else LateForAll(codec, actions, keys[1..], blocks)
  }

  lemma LateIsLate(codec: Codec, tool: Tool, actions: seq<Action>, k: int)
    requires tool.id == LatestId(actions, k) && tool.arguments == Arrived(actions, k)
    requires !tool.started ==> tool.name == ""
    requires tool.started <==> Named(actions, k)
    ensures IsLate(tool) <==> Nameless(actions, k)
    ensures IsLate(tool) ==> LateFor(codec, actions, k, LateContent(codec, tool))
  {
    assert InputFor(codec, tool.arguments, ParseToolArguments(codec, tool.arguments));
  }

  lemma {:induction false} LateAreLate(codec: Codec, s: Stream, actions: seq<Action>, keys: seq<int>)
    requires SentWithin(s.tools) && Rested(s) && KeepsAll(s.tools, actions)
    requires forall i | 0 <= i < |keys| :: keys[i] in s.tools
    ensures LateForAll(codec, actions, keys, LateContents(codec, s.tools, keys))
  {
    if keys != [] {
      var k := keys[0];
      assert Keeps(s.tools, actions, k);
      LateIsLate(codec, s.tools[k], actions, k);
      LateAreLate(codec, s, actions, keys[1..]);
      var late := LateContents(codec, s.tools, keys[1..]);
      assert ([LateContent(codec, s.tools[k])] + late)[1..] == late && [] + late == late;
    }
  }

  /**
   A client that reads a whole stream has the blocks that the deltas assemble,
   then one for each tool that sent arguments and no name, by number; a message
   without any block has one empty text.
   */
  lemma {:induction false} FinishedMessage(codec: Codec, actions: seq<Action>) returns (late: seq<Content>)
    ensures LateForAll(codec, actions, SortedKeys(Keys(actions)), late)
    ensures var blocks := Assembled(actions).blocks + late;
      Contents(Finish(codec, Run(OPENED, actions))) == if blocks == [] then [TextPart("")] else blocks
  {
    var s := Run(OPENED, actions);
    RunLinks(actions);
    var keys := SortedKeys(s.tools.Keys);
    late := LateContents(codec, s.tools, keys);
    LateAreLate(codec, s, actions, keys);
    FinishKeeps(codec, s);
  }
}
