/** The split of a conversation into the messages to keep and those to summarise. */
module MessageSplit {
  datatype Block = ToolUse(id: string) | ToolResult(useId: string) | Other

  /** `tokens`: the estimate for the message's text. */
  datatype Message = Message(tokens: nat, blocks: seq<Block>)

  type Messages = seq<Message>

  const ALWAYS_KEPT: nat := 4

  // ----- the suffix within the budget

  function Cost(m: Message): nat { if m.tokens > 1 then m.tokens else 1 }

  function Total(ms: Messages, from: nat): nat
    requires from <= |ms|
    decreases |ms| - from
  {
    if from == |ms| then 0 else Cost(ms[from]) + Total(ms, from + 1)
  }

  /** The suffix from `start` on: at least four messages if there are as many, and no more than four over the budget. */
  ghost predicate RecentFrom(ms: Messages, budget: int, start: nat) {
    && start <= |ms|
    && (|ms| - start >= ALWAYS_KEPT || start == 0)
    && (|ms| - start > ALWAYS_KEPT ==> Total(ms, start) <= budget)
    && (start > 0 ==> Total(ms, start - 1) > budget)
  }

  lemma {:induction false} TotalGrows(ms: Messages, a: nat, b: nat)
    requires a <= b <= |ms|
    ensures Total(ms, a) >= Total(ms, b) + (b - a)
    decreases b - a
  {
    if a < b {
      TotalGrows(ms, a + 1, b);
    }
  }

  /** The conditions leave one start only. */
  lemma RecentFromUnique(ms: Messages, budget: int, a: nat, b: nat)
    requires RecentFrom(ms, budget, a) && RecentFrom(ms, budget, b)
    ensures a == b
  {
    if a < b {
      TotalGrows(ms, a, b - 1);
    } else if b < a {
      TotalGrows(ms, b, a - 1);
    }
  }

  method SelectRecent(ms: Messages, budget: int) returns (start: nat, selected: set<nat>)
    ensures RecentFrom(ms, budget, start)
    ensures forall i :: i in selected <==> start <= i < |ms|
  {
    start, selected := |ms|, {};
    var total := 0;
    while start > 0
      invariant start <= |ms| && total == Total(ms, start)
      invariant |ms| - start > ALWAYS_KEPT ==> total <= budget
      invariant |selected| == |ms| - start && forall i :: i in selected <==> start <= i < |ms|
      decreases start
    {
      var cost := Cost(ms[start - 1]);
      if |selected| >= ALWAYS_KEPT && total + cost > budget { break; }
      start := start - 1;
      selected := selected + {start};
      total := total + cost;
    }
  }

  // ----- tool pairs

  /** The message asks for a tool under this id, or brings its result; blocks without an id pair with nothing. */
  predicate Uses(m: Message, id: string) { id != "" && ToolUse(id) in m.blocks }

  predicate Brings(m: Message, id: string) { id != "" && ToolResult(id) in m.blocks }

  predicate Pairs(a: Message, b: Message) {
    exists i | 0 <= i < |a.blocks| ::
      match a.blocks[i]
      case ToolUse(id) => Brings(b, id)
      case ToolResult(id) => Uses(b, id)
      case Other => false
  }

  lemma PairsBoth(a: Message, b: Message)
    ensures Pairs(a, b) <==> exists id :: (Uses(a, id) && Brings(b, id)) || (Brings(a, id) && Uses(b, id))
  {
    if id :| (Uses(a, id) && Brings(b, id)) || (Brings(a, id) && Uses(b, id)) {
      if Uses(a, id) && Brings(b, id) {
        var i :| 0 <= i < |a.blocks| && a.blocks[i] == ToolUse(id);
      } else {
        var i :| 0 <= i < |a.blocks| && a.blocks[i] == ToolResult(id);
      }
    }
    if Pairs(a, b) {
      var i :| 0 <= i < |a.blocks| &&
        match a.blocks[i]
        case ToolUse(id) => Brings(b, id)
        case ToolResult(id) => Uses(b, id)
        case Other => false;
      var id := if a.blocks[i].ToolUse? then a.blocks[i].id else a.blocks[i].useId;
      assert (Uses(a, id) && Brings(b, id)) || (Brings(a, id) && Uses(b, id));
    }
  }

  /** The message pairs with one of those from `start` on. */
  predicate PairsWithRecent(ms: Messages, start: nat, i: nat)
    requires i < |ms|
  {
    exists r | start <= r < |ms| :: Pairs(ms[r], ms[i])
  }

  /** The messages from `start` on, and those that pair with one of them. */
  predicate Kept(ms: Messages, start: nat, i: nat)
    requires i < |ms|
  {
    start <= i || PairsWithRecent(ms, start, i)
  }

  /** No kept message pairs with one that is not kept. */
  predicate ClosedUnderPairs(ms: Messages, start: nat) {
    forall i, j | 0 <= i < |ms| && 0 <= j < |ms| && Kept(ms, start, i) && Pairs(ms[i], ms[j]) :: Kept(ms, start, j)
  }

  /** The shortest suffix that begins at `r` or earlier and holds what is always kept. */
  function Cut(ms: Messages, r: nat): (cut: nat)
    ensures cut <= r && (cut > 0 ==> cut + ALWAYS_KEPT <= |ms|)
  {
    if |ms| < ALWAYS_KEPT then 0
    else if r + ALWAYS_KEPT <= |ms| then r
    else |ms| - ALWAYS_KEPT
  }

  /**
   Whenever message `r` pairs with an earlier one that pairs with another
   earlier one, that other one too pairs with a message from `r` on, or with
   one that is always kept.
   */
  ghost predicate ChainsHold(ms: Messages) {
    forall b: nat, c: nat, r: nat | b < Cut(ms, r) && c < Cut(ms, r) && r < |ms| && Pairs(ms[r], ms[b]) &&
      Pairs(ms[b], ms[c]) ::
      PairsWithRecent(ms, Cut(ms, r), c)
  }

  /** Chains that hold are kept whole, whatever the budget selects. */
  lemma {:induction false} ChainsHoldIsClosed(ms: Messages, budget: int, start: nat)
    requires ChainsHold(ms) && RecentFrom(ms, budget, start)
    ensures ClosedUnderPairs(ms, start)
  {
    forall i, j | 0 <= i < |ms| && 0 <= j < |ms| && Kept(ms, start, i) && Pairs(ms[i], ms[j])
      ensures Kept(ms, start, j)
    {
      if i < start && j < start {
        EarlierIsKept(ms, start, i, j);
      } else if start <= i {
        assert PairsWithRecent(ms, start, j);
      }
    }
  }

  lemma EarlierIsKept(ms: Messages, start: nat, b: nat, c: nat)
    requires ChainsHold(ms) && (start > 0 ==> start + ALWAYS_KEPT <= |ms|)
    requires b < start && c < start && b < |ms| && c < |ms| && PairsWithRecent(ms, start, b) && Pairs(ms[b], ms[c])
    ensures PairsWithRecent(ms, start, c)
  {
    var r :| start <= r < |ms| && Pairs(ms[r], ms[b]);
    assert start <= Cut(ms, r);
    var late :| Cut(ms, r) <= late < |ms| && Pairs(ms[late], ms[c]);
  }

  /** Every start that leaves the messages that are always kept is selected by some budget. */
  lemma SelectedByTotal(ms: Messages, start: nat)
    requires start <= |ms| && (start > 0 ==> start + ALWAYS_KEPT <= |ms|)
    ensures RecentFrom(ms, Total(ms, start), start)
  {
    if start > 0 {
      TotalGrows(ms, start - 1, start);
    }
  }

  /** The tool pairs of a conversation are kept whole under every budget exactly when its chains hold. */
  lemma {:induction false} KeptWholeIff(ms: Messages)
    ensures (forall budget, start | RecentFrom(ms, budget, start) :: ClosedUnderPairs(ms, start)) <==> ChainsHold(ms)
  {
    if ChainsHold(ms) {
      forall budget, start | RecentFrom(ms, budget, start) ensures ClosedUnderPairs(ms, start) {
        ChainsHoldIsClosed(ms, budget, start);
      }
    } else {
      var b: nat, c: nat, r: nat :| b < Cut(ms, r) && c < Cut(ms, r) && r < |ms| && Pairs(ms[r], ms[b]) &&
        Pairs(ms[b], ms[c])
        && !PairsWithRecent(ms, Cut(ms, r), c);
      SelectedByTotal(ms, Cut(ms, r));
      assert Kept(ms, Cut(ms, r), b) && !Kept(ms, Cut(ms, r), c);
      assert !ClosedUnderPairs(ms, Cut(ms, r));
    }
  }

  /** A message that asks for tools brings no results, and results come in the message right after. */
  ghost predicate Orderly(ms: Messages) {
    && (forall i, id, other | 0 <= i < |ms| && Uses(ms[i], id) :: !Brings(ms[i], other))
    && (forall i, j, id | 0 <= i < |ms| && 0 <= j < |ms| && Uses(ms[i], id) && Brings(ms[j], id) :: j == i + 1)
  }

  /** In an orderly conversation no message before `r` is paired by `r` and pairs with another. */
  lemma OrderlyHasNoChain(ms: Messages, b: nat, c: nat, r: nat)
    requires Orderly(ms) && b < r && c < r && r < |ms| && Pairs(ms[r], ms[b])
    ensures !Pairs(ms[b], ms[c])
  {
    PairsBoth(ms[r], ms[b]);
    PairsBoth(ms[b], ms[c]);
  }

  /** So its chains hold, and it is kept whole wherever it is split. */
  lemma OrderlyIsClosed(ms: Messages, start: nat)
    requires Orderly(ms)
    ensures ChainsHold(ms) && ClosedUnderPairs(ms, start)
  {
    forall b: nat, c: nat, r: nat | b < r && c < r && r < |ms| && Pairs(ms[r], ms[b]) ensures !Pairs(ms[b], ms[c]) {
      OrderlyHasNoChain(ms, b, c, r);
    }
    forall i, j | 0 <= i < |ms| && 0 <= j < |ms| && Kept(ms, start, i) && Pairs(ms[i], ms[j])
      ensures Kept(ms, start, j)
    {
      if start <= i {
        assert PairsWithRecent(ms, start, j);
      }
    }
  }

  /** A chain of tool calls that carry the previous result is torn: the second call is kept, the first is not. */
  lemma ChainIsTorn()
    ensures var filler := Message(1, [Other]);
      var ms := [Message(1, [ToolUse("a")]), Message(1, [ToolResult("a"), ToolUse("b")]), Message(1, [ToolResult("b")]),
                 filler, filler, filler];
      RecentFrom(ms, 0, 2) && Kept(ms, 2, 1) && Pairs(ms[1], ms[0]) && !Kept(ms, 2, 0)
  {
    var filler := Message(1, [Other]);
    var first, second, third := Message(1, [ToolUse("a")]), Message(1, [ToolResult("a"), ToolUse("b")]),
      Message(1, [ToolResult("b")]);
    var ms := [first, second, third, filler, filler, filler];
    assert Total(ms, 2) == 4 && Total(ms, 1) == 5;
    assert third.blocks[0] == ToolResult("b") && second.blocks[1] == ToolUse("b") && Uses(second, "b");
    assert Pairs(ms[2], ms[1]);
    assert second.blocks[0] == ToolResult("a") && first.blocks[0] == ToolUse("a") && Uses(first, "a");
    forall r | 2 <= r < 6 ensures !Pairs(ms[r], ms[0]) {
      assert ms[r] == third || ms[r] == filler;
    }
  }

  // ----- the two lists

  /** The messages among the first `n` that are in `kept`, or that are not, in order. */
  function Select(ms: Messages, kept: set<nat>, wanted: bool, n: nat): Messages
    requires n <= |ms|
  {
    if n == 0 then [] else Select(ms, kept, wanted, n - 1) + if (n - 1 in kept) == wanted then [ms[n - 1]] else []
  }

  /** Nothing is lost or invented. */
  lemma {:induction false} SplitIsPartition(ms: Messages, kept: set<nat>, n: nat)
    requires n <= |ms|
    ensures multiset(Select(ms, kept, true, n)) + multiset(Select(ms, kept, false, n)) == multiset(ms[..n])
  {
    if n > 0 {
      SplitIsPartition(ms, kept, n - 1);
      SelectStep(ms, kept, true, n);
      SelectStep(ms, kept, false, n);
      OneMoreOf(Select(ms, kept, true, n - 1), Select(ms, kept, false, n - 1), ms[..n - 1], ms[n - 1]);
      LastOf(ms, n);
    } else {
      assert ms[..0] == [];
    }
  }

  lemma LastOf(ms: Messages, n: nat)
    requires 0 < n <= |ms|
    ensures ms[..n - 1] + [ms[n - 1]] == ms[..n]
  {
  }

  lemma SelectStep(ms: Messages, kept: set<nat>, wanted: bool, n: nat)
    requires 0 < n <= |ms|
    ensures var earlier := Select(ms, kept, wanted, n - 1);
      Select(ms, kept, wanted, n) == if (n - 1 in kept) == wanted then earlier + [ms[n - 1]] else earlier
  {
    assert Select(ms, kept, wanted, n - 1) + [] == Select(ms, kept, wanted, n - 1);
  }

  lemma OneMoreOf(a: Messages, b: Messages, all: Messages, m: Message)
    requires multiset(a) + multiset(b) == multiset(all)
    ensures multiset(a + [m]) + multiset(b) == multiset(all + [m])
    ensures multiset(a) + multiset(b + [m]) == multiset(all + [m])
  {
  }

  /** The positions among the first `n` that are in `kept`, or that are not, in increasing order. */
  function Positions(kept: set<nat>, wanted: bool, n: nat): (r: seq<nat>)
    ensures forall k | 0 <= k < |r| :: r[k] < n && (r[k] in kept) == wanted
    ensures forall i, j | 0 <= i < j < |r| :: r[i] < r[j]
  {
    if n == 0 then [] else Positions(kept, wanted, n - 1) + if (n - 1 in kept) == wanted then [n - 1] else []
  }

  lemma {:induction false} EveryPosition(kept: set<nat>, wanted: bool, n: nat, i: nat)
    requires i < n && (i in kept) == wanted
    ensures i in Positions(kept, wanted, n)
  {
    if i < n - 1 {
      EveryPosition(kept, wanted, n - 1, i);
    }
  }

  /** The list holds the messages at those positions, in that order. */
  lemma {:induction false} SelectInOrder(ms: Messages, kept: set<nat>, wanted: bool, n: nat)
    requires n <= |ms|
    ensures var r, at := Select(ms, kept, wanted, n), Positions(kept, wanted, n);
      |r| == |at| && forall k | 0 <= k < |r| :: r[k] == ms[at[k]]
  {
    if n > 0 {
      SelectInOrder(ms, kept, wanted, n - 1);
    }
  }

  /** When everything from `start` on is selected, the list ends with it. */
  lemma {:induction false} SelectEnds(ms: Messages, kept: set<nat>, start: nat, n: nat)
    requires start <= n <= |ms| && forall i: nat | start <= i < n :: i in kept
    ensures Select(ms, kept, true, n) == Select(ms, kept, true, start) + ms[start..n]
  {
    if n > start {
      SelectEnds(ms, kept, start, n - 1);
      assert ms[start..n] == ms[start..n - 1] + [ms[n - 1]];
    } else {
      assert ms[start..n] == [];
    }
  }

  // ----- the loops

  /** The ids that the selected messages ask for and bring. */
  ghost predicate NeededBy(ms: Messages, selected: set<nat>, n: nat, needUse: set<string>, needResult: set<string>)
    requires n <= |ms|
  {
    && (forall id :: id in needUse <==> exists i: nat | i < n && i in selected :: Brings(ms[i], id))
    && (forall id :: id in needResult <==> exists i: nat | i < n && i in selected :: Uses(ms[i], id))
  }

  method NeededIds(m: Message) returns (uses: set<string>, results: set<string>)
    ensures forall id :: id in uses <==> Brings(m, id)
    ensures forall id :: id in results <==> Uses(m, id)
  {
    uses, results := {}, {};
    for k := 0 to |m.blocks|
      invariant forall id :: id in uses <==> id != "" && ToolResult(id) in m.blocks[..k]
      invariant forall id :: id in results <==> id != "" && ToolUse(id) in m.blocks[..k]
    {
      var block := m.blocks[k];
      assert m.blocks[..k + 1] == m.blocks[..k] + [block];
      if block.ToolResult? && block.useId != "" {
        uses := uses + {block.useId};
      }
      if block.ToolUse? && block.id != "" {
        results := results + {block.id};
      }
    }
    assert m.blocks[..|m.blocks|] == m.blocks;
  }

  method CollectNeeds(ms: Messages, selected: set<nat>) returns (needUse: set<string>, needResult: set<string>)
    ensures NeededBy(ms, selected, |ms|, needUse, needResult)
  {
    needUse, needResult := {}, {};
    for i := 0 to |ms|
      invariant NeededBy(ms, selected, i, needUse, needResult)
    {
      if i in selected {
        var uses, results := NeededIds(ms[i]);
        needUse, needResult := needUse + uses, needResult + results;
      }
    }
  }

  method IsNeeded(m: Message, needUse: set<string>, needResult: set<string>) returns (needed: bool)
    requires "" !in needUse && "" !in needResult
    ensures needed <==> exists id :: (id in needUse && Uses(m, id)) || (id in needResult && Brings(m, id))
  {
    needed := false;
    for k := 0 to |m.blocks|
      invariant needed ==> exists id :: (id in needUse && Uses(m, id)) || (id in needResult && Brings(m, id))
      invariant !needed ==> forall j | 0 <= j < k ::
        && (m.blocks[j].ToolUse? ==> m.blocks[j].id !in needUse)
        && (m.blocks[j].ToolResult? ==> m.blocks[j].useId !in needResult)
    {
      var block := m.blocks[k];
      if block.ToolUse? && block.id in needUse {
        assert Uses(m, block.id);
        needed := true;
      }
      if block.ToolResult? && block.useId in needResult {
        assert Brings(m, block.useId);
        needed := true;
      }
    }
  }

  /** Adds the messages that pair with a selected one. */
  method ExpandToolPairs(ms: Messages, start: nat, selected: set<nat>) returns (expanded: set<nat>)
    requires forall i :: i in selected <==> start <= i < |ms|
    ensures forall i :: i in expanded <==> 0 <= i < |ms| && Kept(ms, start, i)
  {
    var needUse, needResult := CollectNeeds(ms, selected);
    expanded := selected;
    for i := 0 to |ms|
      invariant forall j :: j in expanded <==> j in selected || (0 <= j < i && PairsWithRecent(ms, start, j))
    {
      var needed := IsNeeded(ms[i], needUse, needResult);
      NeededIsPaired(ms, start, selected, needUse, needResult, i);
      if needed {
        expanded := expanded + {i};
      }
    }
  }

  lemma NeededIsPaired(ms: Messages, start: nat, selected: set<nat>, needUse: set<string>, needResult: set<string>,
                       i: nat)
    requires i < |ms| && NeededBy(ms, selected, |ms|, needUse, needResult)
    requires forall k :: k in selected <==> start <= k < |ms|
    ensures PairsWithRecent(ms, start, i)
      <==> exists id :: (id in needUse && Uses(ms[i], id)) || (id in needResult && Brings(ms[i], id))
  {
    if PairsWithRecent(ms, start, i) {
      var r :| start <= r < |ms| && Pairs(ms[r], ms[i]);
      PairsBoth(ms[r], ms[i]);
      var id :| (Uses(ms[r], id) && Brings(ms[i], id)) || (Brings(ms[r], id) && Uses(ms[i], id));
      assert r in selected;
      assert (id in needUse && Uses(ms[i], id)) || (id in needResult && Brings(ms[i], id));
    }
    if id :| (id in needUse && Uses(ms[i], id)) || (id in needResult && Brings(ms[i], id)) {
      var r: nat :| r < |ms| && r in selected &&
        ((Brings(ms[r], id) && Uses(ms[i], id)) || (Uses(ms[r], id) && Brings(ms[i], id)));
      PairsBoth(ms[r], ms[i]);
      assert Pairs(ms[r], ms[i]);
    }
  }

  method SelectBoth(ms: Messages, kept: set<nat>) returns (recent: Messages, summarized: Messages)
    ensures recent == Select(ms, kept, true, |ms|) && summarized == Select(ms, kept, false, |ms|)
  {
    recent, summarized := [], [];
    for i := 0 to |ms|
      invariant recent == Select(ms, kept, true, i) && summarized == Select(ms, kept, false, i)
    {
      SelectStep(ms, kept, true, i + 1);
      SelectStep(ms, kept, false, i + 1);
      if i in kept {
        recent := recent + [ms[i]];
      } else {
        summarized := summarized + [ms[i]];
      }
    }
  }

  method SplitMessages(ms: Messages, budget: int)
    returns (recent: Messages, summarized: Messages, ghost start: nat, ghost kept: set<nat>)
    ensures RecentFrom(ms, budget, start)
    ensures forall i :: i in kept <==> 0 <= i < |ms| && Kept(ms, start, i)
    ensures recent == Select(ms, kept, true, |ms|) && summarized == Select(ms, kept, false, |ms|)
    ensures multiset(recent) + multiset(summarized) == multiset(ms)
    ensures recent == Select(ms, kept, true, start) + ms[start..]
    ensures ChainsHold(ms) || Orderly(ms) ==> ClosedUnderPairs(ms, start)
  {
    var from, selected := SelectRecent(ms, budget);
    start := from;
    var expanded := ExpandToolPairs(ms, from, selected);
    kept := expanded;
    recent, summarized := SelectBoth(ms, expanded);
    SplitIsPartition(ms, kept, |ms|);
    assert ms[..|ms|] == ms && ms[start..|ms|] == ms[start..];
    SelectEnds(ms, kept, start, |ms|);
    if Orderly(ms) {
      OrderlyIsClosed(ms, start);
    } else if ChainsHold(ms) {
      ChainsHoldIsClosed(ms, budget, start);
    }
  }
}
