/** Every tool block carries exactly the argument fragments that arrived for it while it was open. */
module ClaudeConservation {
  import opened Wrappers
  import opened ClaudeEvents
  import opened ClaudeBridge
  import opened ClaudeInvariant

  function Arguments(s: Stream, k: int): string {
    if k in s.tools then s.tools[k].arguments else ""
  }

  /** The fragments that arrived for tool `k`, in order. */
  function Fragments(actions: seq<Action>, k: int): string {
    if actions == [] then ""
    else
      var before := actions[..|actions| - 1];
      var last := actions[|actions| - 1];
      Fragments(before, k)
      + (if last.OnTool? && ToolKey(Run(OPENED, before), last.delta) == k
         then last.delta.fnArguments + last.delta.arguments else "")
  }

  predicate Open(s: Stream, k: int) {
    k in s.tools && s.tools[k].started && !s.tools[k].done
  }

  predicate Done(s: Stream, k: int) {
    k in s.tools && s.tools[k].started && s.tools[k].done
  }

  /** What one step does to one tool. */
  ghost predicate ToolStep(s: Stream, s': Stream, k: int, arrived: string) {
    && Arguments(s', k) == Arguments(s, k) + arrived
    && (Open(s, k) ==>
          && (Open(s', k) || Done(s', k))
          && s'.tools[k].blockIndex == s.tools[k].blockIndex
          && (Done(s', k) ==> s'.tools[k].sentChars == s.tools[k].sentChars))
    && (Done(s, k) ==>
          && Done(s', k)
          && s'.tools[k].blockIndex == s.tools[k].blockIndex
          && s'.tools[k].sentChars == s.tools[k].sentChars)
  }

  lemma TextToolStep(s: Stream, text: string, k: int)
    requires Inv(s)
    ensures ToolStep(s, HandleText(s, text), k, "")
  {
    if text != "" { FinalizeActiveCore(s); }
  }

  lemma ToolsAfterStep(s: Stream, delta: ToolDelta, s': Stream, k: int)
    requires SentWithin(s.tools) && (s.activeTool.Some? ==> Open(s, s.activeTool.value))
    requires k in s.tools && s.tools[k].done ==> s.tools[k].started
    requires ToolsAfter(s, delta, s')
    ensures ToolStep(s, s', k, if ToolKey(s, delta) == k then delta.fnArguments + delta.arguments else "")
  {
    var j := ToolKey(s, delta);
    var tool := Merge(if j in s.tools then s.tools[j] else NEW_TOOL, delta);
    assert tool.arguments == Arguments(s, j) + (delta.fnArguments + delta.arguments);
    assert Arguments(s, k) + "" == Arguments(s, k);
  }

  lemma DeltaToolStep(s: Stream, delta: ToolDelta, k: int)
    requires Inv(s)
    ensures ToolStep(s, HandleTool(s, delta), k,
                     if ToolKey(s, delta) == k then delta.fnArguments + delta.arguments else "")
  {
    HandleToolKeeps(s, delta);
    assert k in s.tools ==> ToolMatches(s, k, Contents(s));
    ToolsAfterStep(s, delta, HandleTool(s, delta), k);
  }

  lemma {:induction false} StepToolStep(before: seq<Action>, action: Action, k: int)
    ensures var s := Run(OPENED, before);
      ToolStep(s, Step(s, action), k,
               if action.OnTool? && ToolKey(s, action.delta) == k
               then action.delta.fnArguments + action.delta.arguments else "")
  {
    RunKeeps(before);
    match action
    case OnText(text) => TextToolStep(Run(OPENED, before), text, k);
    case OnTool(delta) => DeltaToolStep(Run(OPENED, before), delta, k);
    case OnReason(_) =>
  }

  lemma {:induction false} ArgumentsAreFragments(actions: seq<Action>, k: int)
    ensures Arguments(Run(OPENED, actions), k) == Fragments(actions, k)
  {
    if actions != [] {
      var before := actions[..|actions| - 1];
      ArgumentsAreFragments(before, k);
      StepToolStep(before, actions[|actions| - 1], k);
    }
  }

  function SentJson(s: Stream, k: int): Option<string> {
    var contents := Contents(s);
    if k in s.tools && s.tools[k].blockIndex < |contents| && contents[s.tools[k].blockIndex].ToolPart?
    then Some(contents[s.tools[k].blockIndex].json) else None
  }

  /** While a tool's block is open it carries every fragment so far, those from before its name included. */
  lemma OpenToolCarriesFragments(actions: seq<Action>, k: int)
    requires Open(Run(OPENED, actions), k)
    ensures SentJson(Run(OPENED, actions), k) == Some(Fragments(actions, k))
  {
    RunKeeps(actions);
    ArgumentsAreFragments(actions, k);
    var s := Run(OPENED, actions);
    assert ToolMatches(s, k, Contents(s));
    assert s.tools[k].arguments[..|s.tools[k].arguments|] == s.tools[k].arguments;
  }

  /** A closed tool keeps its block and what was sent, and only gathers more arguments. */
  ghost predicate Stays(s: Stream, s': Stream, k: int) {
    && Done(s, k) && Done(s', k)
    && s'.tools[k].blockIndex == s.tools[k].blockIndex
    && s'.tools[k].sentChars == s.tools[k].sentChars
    && s.tools[k].arguments <= s'.tools[k].arguments
  }

  lemma StaysStep(s: Stream, s1: Stream, s2: Stream, k: int, arrived: string)
    requires Stays(s, s1, k) && ToolStep(s1, s2, k, arrived)
    ensures Stays(s, s2, k)
  {
  }

  lemma {:induction false} StaysAfter(s: Stream, before: seq<Action>, action: Action, k: int)
    requires Stays(s, Run(OPENED, before), k)
    ensures Stays(s, Run(OPENED, before + [action]), k)
  {
    var s1 := Run(OPENED, before);
    var arrived := if action.OnTool? && ToolKey(s1, action.delta) == k
                   then action.delta.fnArguments + action.delta.arguments else "";
    RunStep(before, action);
    StepToolStep(before, action, k);
    StaysStep(s, s1, Step(s1, action), k, arrived);
  }

  lemma OneMore(actions: seq<Action>, more: seq<Action>)
    requires more != []
    ensures (actions + more[..|more| - 1]) + [more[|more| - 1]] == actions + more
  {
  }

  lemma {:induction false} ClosedToolStays(actions: seq<Action>, more: seq<Action>, k: int)
    requires Done(Run(OPENED, actions), k)
    ensures Stays(Run(OPENED, actions), Run(OPENED, actions + more), k)
  {
    if more == [] {
      assert actions + more == actions;
    } else {
      var init, last := more[..|more| - 1], more[|more| - 1];
      ClosedToolStays(actions, init, k);
      StaysAfter(Run(OPENED, actions), actions + init, last, k);
      OneMore(actions, more);
    }
  }

  /**
   The block of a tool that was open after `before` and that `closing` closed
   carries, however the stream goes on, exactly the fragments that had arrived.
   */
  lemma ToolArgumentsConserved(before: seq<Action>, closing: Action, more: seq<Action>, k: int)
    requires Open(Run(OPENED, before), k) && Done(Run(OPENED, before + [closing]), k)
    ensures SentJson(Run(OPENED, before + [closing] + more), k) == Some(Fragments(before, k))
  {
    var closed := before + [closing];
    RunKeeps(before);
    ArgumentsAreFragments(before, k);
    RunStep(before, closing);
    StepToolStep(before, closing, k);
    ClosedToolStays(closed, more, k);
    RunKeeps(closed + more);
    var s, s' := Run(OPENED, before), Run(OPENED, closed + more);
    assert ToolMatches(s', k, Contents(s'));
    assert s'.tools[k].arguments[..s.tools[k].sentChars] == s.tools[k].arguments;
  }

  /** What the action at `i` brings for tool `k`. */
  function Fragment(actions: seq<Action>, i: nat, k: int): string
    requires i < |actions|
  {
    var action := actions[i];
    if action.OnTool? && ToolKey(Run(OPENED, actions[..i]), action.delta) == k
    then action.delta.fnArguments + action.delta.arguments else ""
  }

  lemma {:induction false} NextFragments(actions: seq<Action>, n: nat, k: int)
    requires 0 < n <= |actions|
    ensures Fragments(actions[..n], k) == Fragments(actions[..n - 1], k) + Fragment(actions, n - 1, k)
  {
    assert actions[..n][..n - 1] == actions[..n - 1];
  }

  /** Nothing arrives for tool `k` from `m` up to `n`. */
  predicate Quiet(actions: seq<Action>, m: nat, n: nat, k: int)
    requires n <= |actions|
  {
    forall i | m <= i < n :: Fragment(actions, i, k) == ""
  }

  /** A text that grows piece by piece stays the same exactly while the pieces are empty. */
  lemma {:induction false} Accumulates(total: nat -> string, piece: nat -> string, m: nat, n: nat)
    requires m <= n && forall i: nat {:trigger piece(i)} | m <= i < n :: total(i + 1) == total(i) + piece(i)
    ensures total(m) <= total(n)
    ensures total(m) == total(n) <==> forall i | m <= i < n :: piece(i) == ""
    decreases n - m
  {
    if m < n {
      Accumulates(total, piece, m, n - 1);
      assert piece(n - 1) == "" ==> total(n - 1) + "" == total(n - 1);
    }
  }

  /** Up to `n` the same fragments have arrived as up to `m` exactly when nothing arrives in between. */
  lemma {:induction false} LaterFragments(actions: seq<Action>, m: nat, n: nat, k: int)
    requires m <= n <= |actions|
    ensures Fragments(actions[..m], k) == Fragments(actions[..n], k) <==> Quiet(actions, m, n, k)
  {
    ghost var total := (i: nat) => if i <= |actions| then Fragments(actions[..i], k) else "";
    ghost var piece := (i: nat) => if i < |actions| then Fragment(actions, i, k) else "";
    forall i: nat | m <= i < n ensures total(i + 1) == total(i) + piece(i) {
      NextFragments(actions, i + 1, k);
    }
    Accumulates(total, piece, m, n);
    QuietPieces(actions, m, n, k, piece);
  }

  lemma {:induction false} QuietPieces(actions: seq<Action>, m: nat, n: nat, k: int, piece: nat -> string)
    requires n <= |actions| && forall i: nat | i < |actions| :: piece(i) == Fragment(actions, i, k)
    ensures Quiet(actions, m, n, k) <==> forall i | m <= i < n :: piece(i) == ""
  {
    if Quiet(actions, m, n, k) {
      forall i | m <= i < n ensures piece(i) == "" {
        assert piece(i) == Fragment(actions, i, k);
      }
    } else {
      var i :| m <= i < n && Fragment(actions, i, k) != "";
      assert piece(i) != "";
    }
  }

  /**
   Of a tool whose block was closed, the block carries all the fragments of the
   stream if and only if no fragment arrived for it once `before` was over.
   */
  lemma {:induction false} CarriesAllIff(before: seq<Action>, closing: Action, more: seq<Action>, k: int)
    requires Open(Run(OPENED, before), k) && Done(Run(OPENED, before + [closing]), k)
    ensures var all := before + [closing] + more;
      SentJson(Run(OPENED, all), k) == Some(Fragments(all, k)) <==> Quiet(all, |before|, |all|, k)
  {
    var all := before + [closing] + more;
    ToolArgumentsConserved(before, closing, more, k);
    LaterFragments(all, |before|, |all|, k);
    assert all[..|before|] == before && all[..|all|] == all;
  }

  /** A named delta for a new tool opens its block. */
  lemma {:induction false} NamedDeltaOpens(s: Stream, delta: ToolDelta, k: int)
    requires Inv(s) && delta.index == Some(k) && k !in s.tools && delta.fnName != ""
    ensures Open(HandleTool(s, delta), k) && HandleTool(s, delta).activeTool == Some(k)
  {
    var s1 := Record(s, delta);
    RecordCore(s, delta);
    NewToolKeeps(s1, k);
  }

  /** A new tool's block closes the one that was open. */
  lemma {:induction false} NamedDeltaCloses(s: Stream, delta: ToolDelta, j: int, k: int)
    requires Inv(s) && delta.index == Some(k) && k !in s.tools && delta.fnName != "" && j != k
    requires s.activeTool == Some(j)
    ensures Done(HandleTool(s, delta), j)
  {
    var s1 := Record(s, delta);
    assert ToolMatches(s, j, Contents(s));
    RecordCore(s, delta);
    NewToolKeeps(s1, k);
  }

  /** Two interleaved calls: what arrives for the first one after the second has begun is not sent. */
  lemma {:induction false} InterleavedFragmentIsLost(begin: ToolDelta, other: ToolDelta, rest: ToolDelta)
    requires begin.index == rest.index == Some(0) && other.index == Some(1)
    requires begin.fnName != "" && other.fnName != "" && rest.fnArguments != ""
    ensures var all := [OnTool(begin)] + [OnTool(other)] + [OnTool(rest)];
      && SentJson(Run(OPENED, all), 0) == Some(Fragments([OnTool(begin)], 0))
      && SentJson(Run(OPENED, all), 0) != Some(Fragments(all, 0))
  {
    var before, closing, more := [OnTool(begin)], OnTool(other), [OnTool(rest)];
    var all := before + [closing] + more;
    OpenedCore();
    assert [] + before == before;
    RunStep([], OnTool(begin));
    NamedDeltaOpens(OPENED, begin, 0);
    RunKeeps(before);
    RunStep(before, closing);
    HandleToolKeeps(OPENED, begin);
    NamedDeltaCloses(Run(OPENED, before), other, 0, 1);
    ToolArgumentsConserved(before, closing, more, 0);
    CarriesAllIff(before, closing, more, 0);
    assert Fragment(all, 2, 0) != "";
  }
}
