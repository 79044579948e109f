/**
 What the failure guard answers, said of the calls that were made to it and of
 the clients that it evicted, without any of its state.
 */
module AuthFailureAnswers {
  import opened AuthFailureGuard

  /** A run: the calls, and the clients that were evicted after each. */
  datatype Story = Story(c: Config, calls: seq<Call>, evictions: seq<seq<Key>>) {
    predicate Valid() { c.Valid() && |evictions| == |calls| }

    /** The call at `i` forgets the client. */
    predicate Wipes(key: Key, i: nat)
      requires Valid() && i < |calls|
    {
      calls[i] == Clear(key) || key in evictions[i]
    }

    predicate Fails(key: Key, i: nat)
      requires i < |calls|
    {
      calls[i].Record? && calls[i].key == key
    }

    /** The failures of a client before the call at `i`, since it was last banned or forgotten, that count at a time. */
    function Counted(key: Key, i: nat, at: nat): nat
      requires Valid() && i <= |calls|
      decreases i, 0
    {
      if i == 0 || Wipes(key, i - 1) || Bans(key, i - 1) then 0
      else Counted(key, i - 1, at) + if Fails(key, i - 1) && calls[i - 1].at + c.windowMs > at then 1 else 0
    }

    /** The call at `i` is the failure that makes it `maxFailures`. */
    predicate Bans(key: Key, i: nat)
      requires Valid() && i < |calls|
      decreases i, 1
    {
      Fails(key, i) && Counted(key, i, calls[i].at) + 1 >= c.maxFailures
    }

    /** The call at `j` was the last to ban the client before the one at `i`, and nothing has forgotten it since. */
    predicate LastBan(key: Key, i: nat, j: nat)
      requires Valid() && i <= |calls|
    {
      && j < i && Bans(key, j)
      && forall k | j <= k < i :: !Wipes(key, k) && (k > j ==> !Bans(key, k))
    }

    function End(j: nat): nat
      requires j < |calls| && calls[j].Record?
    {
      calls[j].at + c.banMs
    }

    ghost predicate Banned(key: Key, i: nat, at: nat)
      requires Valid() && i <= |calls|
    {
      exists j :: LastBan(key, i, j) && at < End(j)
    }
  }

  // ----- the history tells the story

  function HistoryAt(s: Story, i: nat): History
    requires s.Valid() && i <= |s.calls|
  {
    ExecFull(s.c, s.calls[..i], s.evictions[..i]).history
  }

  lemma {:induction false} HistoryNext(s: Story, i: nat)
    requires s.Valid() && i < |s.calls|
    ensures HistoryAt(s, i + 1) == Forget(ApplyFull(s.c, HistoryAt(s, i), s.calls[i]).0, s.evictions[i])
  {
    assert s.calls[..i + 1][..i] == s.calls[..i];
    assert s.evictions[..i + 1][..i] == s.evictions[..i];
  }

  function NextEntry(s: Story, key: Key, i: nat, e: Entry): Entry
    requires s.Valid() && i < |s.calls|
  {
    if s.Wipes(key, i) then NO_ENTRY else if s.Fails(key, i) then FullyFailed(s.c, e, s.calls[i].at) else e
  }

  lemma {:induction false} EntryNext(s: Story, key: Key, i: nat)
    requires s.Valid() && i < |s.calls|
    ensures Lookup(HistoryAt(s, i + 1).entries, key) == NextEntry(s, key, i, Lookup(HistoryAt(s, i).entries, key))
  {
    HistoryNext(s, i);
  }

  ghost predicate CountsAs(s: Story, key: Key, i: nat, e: Entry)
    requires s.Valid() && i <= |s.calls|
  {
    forall at :: |Recent(e.failures, at, s.c.windowMs)| == s.Counted(key, i, at)
  }

  ghost predicate BannedAs(s: Story, key: Key, i: nat, e: Entry)
    requires s.Valid() && i <= |s.calls|
  {
    && (forall j | s.LastBan(key, i, j) :: e.bannedUntil == s.End(j))
    && (e.bannedUntil > 0 ==> exists j :: s.LastBan(key, i, j))
  }

  lemma {:induction false} BansAgree(s: Story, key: Key, i: nat, e: Entry)
    requires s.Valid() && i < |s.calls| && CountsAs(s, key, i, e) && s.Fails(key, i)
    ensures s.Bans(key, i) <==> |Recent(e.failures + [s.calls[i].at], s.calls[i].at, s.c.windowMs)| >= s.c.maxFailures
  {
    RecentAppend(e.failures, s.calls[i].at, s.calls[i].at, s.c.windowMs);
  }

  lemma {:induction false} CountsNext(s: Story, key: Key, i: nat, e: Entry)
    requires s.Valid() && i < |s.calls| && CountsAs(s, key, i, e)
    ensures CountsAs(s, key, i + 1, NextEntry(s, key, i, e))
  {
    if s.Fails(key, i) {
      BansAgree(s, key, i, e);
    }
    forall at ensures |Recent(NextEntry(s, key, i, e).failures, at, s.c.windowMs)| == s.Counted(key, i + 1, at) {
      CountNext(s, key, i, e, at);
    }
  }

  lemma {:induction false} CountNext(s: Story, key: Key, i: nat, e: Entry, at: nat)
    requires s.Valid() && i < |s.calls| && |Recent(e.failures, at, s.c.windowMs)| == s.Counted(key, i, at)
    requires s.Fails(key, i) ==>
      (s.Bans(key, i) <==>
        |Recent(e.failures + [s.calls[i].at], s.calls[i].at, s.c.windowMs)| >= s.c.maxFailures)
    ensures |Recent(NextEntry(s, key, i, e).failures, at, s.c.windowMs)| == s.Counted(key, i + 1, at)
  {
    if s.Fails(key, i) {
      RecentAppend(e.failures, s.calls[i].at, at, s.c.windowMs);
    } else {
      assert !s.Bans(key, i);
    }
  }

  lemma {:induction false} LastBanNext(s: Story, key: Key, i: nat, j: nat)
    requires s.Valid() && i < |s.calls|
    ensures s.LastBan(key, i + 1, j)
      <==> !s.Wipes(key, i) && if s.Bans(key, i) then j == i else s.LastBan(key, i, j)
  {
  }

  lemma {:induction false} BannedNext(s: Story, key: Key, i: nat, e: Entry)
    requires s.Valid() && i < |s.calls| && CountsAs(s, key, i, e) && BannedAs(s, key, i, e)
    ensures BannedAs(s, key, i + 1, NextEntry(s, key, i, e))
  {
    forall j ensures s.LastBan(key, i + 1, j)
      <==> !s.Wipes(key, i) && if s.Bans(key, i) then j == i else s.LastBan(key, i, j)
    {
      LastBanNext(s, key, i, j);
    }
    if s.Fails(key, i) {
      BansAgree(s, key, i, e);
      RecentAppend(e.failures, s.calls[i].at, s.calls[i].at, s.c.windowMs);
    } else {
      assert !s.Bans(key, i);
    }
    if !s.Wipes(key, i) {
      if s.Bans(key, i) {
        assert s.LastBan(key, i + 1, i);
      } else if j :| s.LastBan(key, i, j) {
        assert s.LastBan(key, i + 1, j);
      }
    }
  }

  /** The entry of a client holds the failures that count against it, and the end of its last ban. */
  lemma {:induction false} HistoryTells(s: Story, key: Key, i: nat)
    requires s.Valid() && i <= |s.calls|
    ensures CountsAs(s, key, i, Lookup(HistoryAt(s, i).entries, key))
    ensures BannedAs(s, key, i, Lookup(HistoryAt(s, i).entries, key))
  {
    if i > 0 {
      HistoryTells(s, key, i - 1);
      EntryNext(s, key, i - 1);
      CountsNext(s, key, i - 1, Lookup(HistoryAt(s, i - 1).entries, key));
      BannedNext(s, key, i - 1, Lookup(HistoryAt(s, i - 1).entries, key));
    }
  }

  // ----- lists that grow by one item a call

  ghost predicate Appends<T(!new)>(parts: nat -> seq<T>, item: nat -> T, n: nat) {
    parts(0) == [] && forall k: nat | k < n :: parts(k + 1) == parts(k) + [item(k)]
  }

  lemma {:induction false} Collects<T(!new)>(parts: nat -> seq<T>, item: nat -> T, n: nat, i: nat)
    requires Appends(parts, item, n) && i <= n
    ensures |parts(n)| == n && |parts(i)| == i && parts(n)[..i] == parts(i)
    ensures i < n ==> parts(n)[i] == item(i)
  {
    if i < n {
      Collects(parts, item, n - 1, i);
    } else if n > 0 {
      Collects(parts, item, n - 1, n - 1);
    }
  }

  function FullAnswers(s: Story, i: nat): seq<Answer>
    requires s.Valid() && i <= |s.calls|
  {
    ExecFull(s.c, s.calls[..i], s.evictions[..i]).answers
  }

  lemma {:induction false} FullAnswersNext(s: Story, i: nat)
    requires s.Valid() && i < |s.calls|
    ensures FullAnswers(s, i + 1) == FullAnswers(s, i) + [ApplyFull(s.c, HistoryAt(s, i), s.calls[i]).1]
  {
    assert s.calls[..i + 1][..i] == s.calls[..i];
    assert s.evictions[..i + 1][..i] == s.evictions[..i];
  }

  lemma {:induction false} FullAnswerAt(s: Story, i: nat)
    requires s.Valid() && i < |s.calls|
    ensures ExecFull(s.c, s.calls, s.evictions).answers[i] == ApplyFull(s.c, HistoryAt(s, i), s.calls[i]).1
  {
    var n := |s.calls|;
    var parts: nat -> seq<Answer> := (k: nat) => if k <= n then FullAnswers(s, k) else [];
    var item: nat -> Answer := (k: nat) => if k < n then ApplyFull(s.c, HistoryAt(s, k), s.calls[k]).1 else Cleared;
    forall k: nat | k < n ensures parts(k + 1) == parts(k) + [item(k)] {
      FullAnswersNext(s, k);
    }
    Collects(parts, item, n, i);
    assert s.calls[..n] == s.calls && s.evictions[..n] == s.evictions;
  }

  // ----- what the guard answers

  /** The run of the guard as a story. */
  function Told(c: Config, calls: seq<Call>): (s: Story)
    ensures |s.evictions| == |s.calls|
  {
    Story(c, calls, Exec(c, calls).evictions)
  }

  lemma {:induction false} AnswerAt(c: Config, calls: seq<Call>, i: nat)
    requires c.Valid() && Ordered(calls) && i < |calls|
    ensures Exec(c, calls).answers[i] == ApplyFull(c, HistoryAt(Told(c, calls), i), calls[i]).1
  {
    RunRefines(c, calls);
    FullAnswerAt(Told(c, calls), i);
  }

  /**
   A failure is answered with a ban exactly when, with those that count inside
   the window since the client was last banned or forgotten, it is the
   `maxFailures`-th; otherwise with their number and how many are left.
   */
  lemma {:induction false} RecordBansIff(c: Config, calls: seq<Call>, i: nat)
    requires c.Valid() && Ordered(calls) && i < |calls| && calls[i].Record?
    ensures var n := Told(c, calls).Counted(calls[i].key, i, calls[i].at) + 1;
      Exec(c, calls).answers[i] ==
      if n >= c.maxFailures then Recorded(true, c.maxFailures, 0) else Recorded(false, n, c.maxFailures - n)
  {
    AnswerAt(c, calls, i);
    HistoryTells(Told(c, calls), calls[i].key, i);
  }

  /**
   A check is blocked, until the end of the client's last ban, exactly when that
   end lies ahead; a client that was never banned, or was forgotten since, is not
   blocked.
   */
  lemma {:induction false} CheckBlocksIff(c: Config, calls: seq<Call>, i: nat)
    requires c.Valid() && Ordered(calls) && i < |calls| && calls[i].Check?
    ensures var s, answer := Told(c, calls), Exec(c, calls).answers[i];
      && (forall j | s.LastBan(calls[i].key, i, j) && calls[i].at < s.End(j) :: answer == Checked(s.End(j)))
      && (answer == Checked(0) <==> !s.Banned(calls[i].key, i, calls[i].at))
  {
    AnswerAt(c, calls, i);
    HistoryTells(Told(c, calls), calls[i].key, i);
  }

  // ----- what it reports

  function BansIn(answers: seq<Answer>): nat {
    if answers == [] then 0
    else
      var last := answers[|answers| - 1];
      BansIn(answers[..|answers| - 1]) + if last.Recorded? && last.banned then 1 else 0
  }

  function BlocksIn(answers: seq<Answer>): nat {
    if answers == [] then 0
    else
      var last := answers[|answers| - 1];
      BlocksIn(answers[..|answers| - 1]) + if last.Checked? && last != Checked(0) then 1 else 0
  }

  /** The guard has counted every ban and every blocked request that it answered. */
  lemma {:induction false} CountersAreAnswers(c: Config, calls: seq<Call>, i: nat)
    requires i <= |calls|
    ensures var r := RunOf(c, calls, i);
      r.guard.bansIssued == BansIn(r.answers) && r.guard.blockedRequests == BlocksIn(r.answers)
  {
    if i > 0 {
      CountersAreAnswers(c, calls, i - 1);
      RunNext(c, calls, i - 1);
      CountsLast(c, RunOf(c, calls, i - 1), calls[i - 1]);
    }
  }

  lemma CountsLast(c: Config, r: Run, call: Call)
    ensures var (g, answer, evicted) := Apply(c, r.guard, call);
      && BansIn(r.answers + [answer]) - BansIn(r.answers) == g.bansIssued - r.guard.bansIssued
      && BlocksIn(r.answers + [answer]) - BlocksIn(r.answers) == g.blockedRequests - r.guard.blockedRequests
  {
    var answer := Apply(c, r.guard, call).1;
    assert (r.answers + [answer])[..|r.answers|] == r.answers;
  }

  /** A description names the clients whose last ban has not ended, and counts the answers so far. */
  lemma {:induction false} DescribesBans(c: Config, calls: seq<Call>, i: nat)
    requires c.Valid() && Ordered(calls) && i < |calls| && calls[i].Describe?
    ensures var s, answers := Told(c, calls), Exec(c, calls).answers;
      && answers[i].Described?
      && (forall key :: key in answers[i].clients <==> s.Banned(key, i, calls[i].at))
      && answers[i].bansIssued == BansIn(answers[..i])
      && answers[i].blockedRequests == BlocksIn(answers[..i])
  {
    var s := Told(c, calls);
    AnswerAt(c, calls, i);
    forall key ensures key in BannedKeys(HistoryAt(s, i).entries, calls[i].at) <==> s.Banned(key, i, calls[i].at) {
      HistoryTells(s, key, i);
    }
    CountersSoFar(c, calls, i);
  }

  function RunOf(c: Config, calls: seq<Call>, i: nat): (r: Run)
    requires i <= |calls|
    ensures |r.evictions| == |r.answers| == i
  {
    Exec(c, calls[..i])
  }

  lemma {:induction false} RunNext(c: Config, calls: seq<Call>, i: nat)
    requires i < |calls|
    ensures var before, after := RunOf(c, calls, i), RunOf(c, calls, i + 1);
      var (g, answer, evicted) := Apply(c, before.guard, calls[i]);
      after == Run(g, before.answers + [answer], before.evictions + [evicted])
  {
    assert calls[..i + 1][..i] == calls[..i];
  }

  /** The answers of a run begin with those of its beginning. */
  lemma {:induction false} AnswersPrefix(c: Config, calls: seq<Call>, i: nat)
    requires i <= |calls|
    ensures RunOf(c, calls, i).answers == Exec(c, calls).answers[..i]
  {
    var n := |calls|;
    var parts: nat -> seq<Answer> := (k: nat) => if k <= n then RunOf(c, calls, k).answers else [];
    var item: nat -> Answer := (k: nat) => if k < n then Apply(c, RunOf(c, calls, k).guard, calls[k]).1 else Cleared;
    forall k: nat | k < n ensures parts(k + 1) == parts(k) + [item(k)] {
      RunNext(c, calls, k);
    }
    Collects(parts, item, n, i);
    assert calls[..n] == calls;
  }

  /** The evictions of a run begin with those of its beginning. */
  lemma {:induction false} EvictionsPrefix(c: Config, calls: seq<Call>, i: nat)
    requires i <= |calls|
    ensures RunOf(c, calls, i).evictions == Exec(c, calls).evictions[..i]
  {
    var n := |calls|;
    var parts: nat -> seq<seq<Key>> := (k: nat) => if k <= n then RunOf(c, calls, k).evictions else [];
    var item: nat -> seq<Key> := (k: nat) => if k < n then Apply(c, RunOf(c, calls, k).guard, calls[k]).2 else [];
    forall k: nat | k < n ensures parts(k + 1) == parts(k) + [item(k)] {
      RunNext(c, calls, k);
    }
    Collects(parts, item, n, i);
    assert calls[..n] == calls;
  }

  lemma {:induction false} OrderedPrefix(calls: seq<Call>, i: nat)
    requires Ordered(calls) && i <= |calls|
    ensures Ordered(calls[..i])
  {
    if i < |calls| {
      OrderedPrefix(calls[..|calls| - 1], i);
      assert calls[..|calls| - 1][..i] == calls[..i];
    } else {
      assert calls[..i] == calls;
    }
  }

  lemma {:induction false} CountersSoFar(c: Config, calls: seq<Call>, i: nat)
    requires c.Valid() && Ordered(calls) && i <= |calls|
    ensures var h, answers := HistoryAt(Told(c, calls), i), Exec(c, calls).answers[..i];
      h.bansIssued == BansIn(answers) && h.blockedRequests == BlocksIn(answers)
  {
    OrderedPrefix(calls, i);
    AnswersPrefix(c, calls, i);
    EvictionsPrefix(c, calls, i);
    RunRefines(c, calls[..i]);
    CountersAreAnswers(c, calls, i);
  }

  // ----- who is evicted

  /** A client is tracked while it is banned or a failure of it counts. */
  ghost predicate Tracked(s: Story, key: Key, i: nat, at: nat)
    requires s.Valid() && i <= |s.calls|
  {
    s.Banned(key, i, at) || s.Counted(key, i, at) > 0
  }

  lemma {:induction false} ActiveIsTracked(s: Story, key: Key, i: nat, at: nat)
    requires s.Valid() && i <= |s.calls|
    ensures key in ActiveClients(s.c, HistoryAt(s, i), at) <==> Tracked(s, key, i, at)
  {
    HistoryTells(s, key, i);
  }

  /** The evictions at `i`, and the guard before it against the history. */
  lemma {:induction false} GuardAt(c: Config, calls: seq<Call>, i: nat)
    requires c.Valid() && Ordered(calls) && i < |calls|
    ensures var g, h, now := RunOf(c, calls, i).guard, HistoryAt(Told(c, calls), i), TimeOf(calls[i], Now(calls[..i]));
      && WellFormed(c, g) && Matches(c, g, h, now)
      && Apply(c, g, calls[i]).2 == Exec(c, calls).evictions[i]
  {
    OrderedPrefix(calls, i + 1);
    OrderedPrefix(calls, i);
    assert calls[..i + 1][..i] == calls[..i];
    EvictionsPrefix(c, calls, i);
    EvictionsPrefix(c, calls, i + 1);
    RunNext(c, calls, i);
    RunRefines(c, calls[..i]);
    MatchesLater(c, RunOf(c, calls, i).guard, HistoryAt(Told(c, calls), i), Now(calls[..i]),
                 TimeOf(calls[i], Now(calls[..i])));
    assert Exec(c, calls).evictions[..i + 1][i] == Exec(c, calls).evictions[i];
  }

  /** The story in which nobody is evicted at `i`. */
  function Spared(s: Story, i: nat): (s': Story)
    requires s.Valid() && i < |s.calls|
    ensures s'.Valid() && s'.calls == s.calls
  {
    s.(evictions := s.evictions[i := []])
  }

  lemma {:induction false} SparedAt(s: Story, i: nat)
    requires s.Valid() && i < |s.calls|
    ensures HistoryAt(Spared(s, i), i + 1) == ApplyFull(s.c, HistoryAt(s, i), s.calls[i]).0
  {
    assert Spared(s, i).evictions[..i] == s.evictions[..i];
    HistoryNext(Spared(s, i), i);
    ForgetNone(ApplyFull(s.c, HistoryAt(s, i), s.calls[i]).0);
  }

  /** Only a failure evicts, and exactly when it leaves more clients tracked than the cap. */
  lemma {:induction false} EvictsIffTooMany(c: Config, calls: seq<Call>, i: nat) returns (clients: set<Key>)
    requires c.Valid() && Ordered(calls) && i < |calls|
    ensures var s, at := Told(c, calls), TimeOf(calls[i], Now(calls[..i]));
      && (forall key :: key in clients <==> Tracked(Spared(s, i), key, i + 1, at))
      && (s.evictions[i] != [] <==> calls[i].Record? && |clients| > c.maxEntries)
  {
    var s, at := Told(c, calls), TimeOf(calls[i], Now(calls[..i]));
    var g, h := RunOf(c, calls, i).guard, HistoryAt(s, i);
    GuardAt(c, calls, i);
    SparedAt(s, i);
    clients := ActiveClients(c, ApplyFull(c, h, calls[i]).0, at);
    forall key ensures key in clients <==> Tracked(Spared(s, i), key, i + 1, at) {
      ActiveIsTracked(Spared(s, i), key, i + 1, at);
    }
    if calls[i].Record? {
      EvictsIff(c, g, h, calls[i].key, at);
    } else {
      EvictsNone(c, g, h, calls[i], at);
    }
  }
}
