/**
 The guard against credential guessing: a pruned, bounded window of failures
 for each client, against the full history of its failures.
 */
module AuthFailureGuard {
  datatype Key = Key(address: string)

  datatype Config = Config(maxFailures: nat, windowMs: nat, banMs: nat, maxEntries: nat) {
    predicate Valid() { maxFailures >= 1 && windowMs >= 1 && banMs >= 1 && maxEntries >= 1 }
  }

  /** The failures that count against a client, in order, and the end of its ban (0 when there was none). */
  datatype Entry = Entry(failures: seq<nat>, bannedUntil: nat)

  const NO_ENTRY := Entry([], 0)

  /** The failures inside the window that ends at `at`. */
  function Recent(failures: seq<nat>, at: nat, windowMs: nat): seq<nat> {
    if failures == [] then []
    else
      var last := failures[|failures| - 1];
      Recent(failures[..|failures| - 1], at, windowMs) + if last + windowMs > at then [last] else []
  }

  predicate Active(c: Config, e: Entry, at: nat) {
    e.bannedUntil > at || Recent(e.failures, at, c.windowMs) != []
  }

  datatype Call =
    | Record(key: Key, at: nat)
    | Check(key: Key, at: nat)
    | Clear(key: Key)
    | Describe(at: nat)

  datatype Answer =
    | Recorded(banned: bool, failures: nat, remaining: nat)
    | Checked(blockedUntil: nat)
    | Described(clients: set<Key>, bansIssued: nat, blockedRequests: nat)
    | Cleared

  /** What the caller is told about one more failure. */
  function RecordAnswer(c: Config, e: Entry, at: nat): Answer {
    var failures := |Recent(e.failures, at, c.windowMs)| + 1;
    if failures >= c.maxFailures then Recorded(true, c.maxFailures, 0)
      else Recorded(false, failures, c.maxFailures - failures)
  }

  /** The end of the ban that blocks a request, 0 when none does. */
  function Blocked(e: Entry, at: nat): nat {
    if e.bannedUntil > at then e.bannedUntil else 0
  }

  // ----- the guard

  /** `order` lists the keys of `entries` as they were inserted. */
  datatype Guard = Guard(order: seq<Key>, entries: map<Key, Entry>, bansIssued: nat, blockedRequests: nat)

  const EMPTY := Guard([], map[], 0, 0)

  function Lookup(entries: map<Key, Entry>, key: Key): Entry {
    if key in entries then entries[key] else NO_ENTRY
  }

  function Store(g: Guard, key: Key, e: Entry): Guard {
    g.(entries := g.entries[key := e], order := if key in g.entries then g.order else g.order + [key])
  }

  function ActiveKeys(c: Config, entries: map<Key, Entry>, order: seq<Key>, at: nat): seq<Key> {
    if order == [] then []
    else
      var last := order[|order| - 1];
      ActiveKeys(c, entries, order[..|order| - 1], at) + if Active(c, Lookup(entries, last), at) then [last] else []
  }

  function Keep(g: Guard, order: seq<Key>): Guard {
    g.(order := order, entries := map key | key in g.entries && key in order :: g.entries[key])
  }

  /** How many of `active` keys are over the cap. */
  function Excess(c: Config, active: seq<Key>): (n: nat)
    ensures n <= |active|
  {
    if |active| <= c.maxEntries then 0 else |active| - c.maxEntries
  }

  /** Inactive entries go first; when there are still too many, so do the oldest. */
  function Prune(c: Config, g: Guard, at: nat): Guard {
    var active := ActiveKeys(c, g.entries, g.order, at);
    Keep(g, active[Excess(c, active)..])
  }

  /** The keys that a prune drops although they are active. */
  function Evicted(c: Config, g: Guard, at: nat): seq<Key> {
    var active := ActiveKeys(c, g.entries, g.order, at);
    active[..Excess(c, active)]
  }

  /** The entry after one more failure; a ban starts the count again. */
  function Failed(c: Config, e: Entry, at: nat): Entry {
    var failures := Recent(e.failures, at, c.windowMs) + [at];
    if |failures| >= c.maxFailures then Entry([], at + c.banMs) else Entry(failures, e.bannedUntil)
  }

  function BanCount(answer: Answer): nat {
    if answer.Recorded? && answer.banned then 1 else 0
  }

  function AfterRecord(c: Config, g: Guard, key: Key, at: nat): Guard {
    var e := Lookup(g.entries, key);
    Store(g, key, Failed(c, e, at)).(bansIssued := g.bansIssued + BanCount(RecordAnswer(c, e, at)))
  }

  function BannedKeys(entries: map<Key, Entry>, at: nat): set<Key> {
    set key | key in entries && entries[key].bannedUntil > at
  }

  /** The guard after a call, what it answers, and the active keys that it evicted. */
  function Apply(c: Config, g: Guard, call: Call): (Guard, Answer, seq<Key>) {
    match call
    case Record(key, at) =>
      var answer := RecordAnswer(c, Lookup(g.entries, key), at);
      var g' := AfterRecord(c, g, key, at);
      if |g'.order| > c.maxEntries then (Prune(c, g', at), answer, Evicted(c, g', at)) else (g', answer, [])
    case Check(key, at) =>
      var until := Blocked(Lookup(g.entries, key), at);
      (g.(blockedRequests := g.blockedRequests + if until > 0 then 1 else 0), Checked(until), [])
    case Clear(key) => (Drop(g, key), Cleared, [])
    case Describe(at) =>
      var g' := Prune(c, g, at);
      (g', Described(BannedKeys(g'.entries, at), g'.bansIssued, g'.blockedRequests), Evicted(c, g, at))
  }

  function Without(order: seq<Key>, key: Key): seq<Key> {
    if order == [] then []
    else if order[0] == key then order[1..]
    else [order[0]] + Without(order[1..], key)
  }

  function Drop(g: Guard, key: Key): Guard {
    g.(entries := g.entries - {key}, order := Without(g.order, key))
  }

  // ----- the full history

  /** Every failure of a client since its last ban or clear, however old, and the end of that ban. */
  datatype History = History(entries: map<Key, Entry>, bansIssued: nat, blockedRequests: nat)

  const NO_HISTORY := History(map[], 0, 0)

  function FullyFailed(c: Config, e: Entry, at: nat): Entry {
    var failures := e.failures + [at];
    if |Recent(failures, at, c.windowMs)| >= c.maxFailures then Entry([], at + c.banMs)
      else Entry(failures, e.bannedUntil)
  }

  /** The history after a call, without any pruning. */
  function ApplyFull(c: Config, h: History, call: Call): (History, Answer) {
    match call
    case Record(key, at) =>
      var e := Lookup(h.entries, key);
      var answer := RecordAnswer(c, e, at);
      (h.(entries := h.entries[key := FullyFailed(c, e, at)], bansIssued := h.bansIssued + BanCount(answer)), answer)
    case Check(key, at) =>
      var until := Blocked(Lookup(h.entries, key), at);
      (h.(blockedRequests := h.blockedRequests + if until > 0 then 1 else 0), Checked(until))
    case Clear(key) => (h.(entries := h.entries - {key}), Cleared)
    case Describe(at) => (h, Described(BannedKeys(h.entries, at), h.bansIssued, h.blockedRequests))
  }

  /** The history that also forgets, after each call, the clients that were evicted. */
  function Forget(h: History, keys: seq<Key>): History {
    h.(entries := map key | key in h.entries && key !in keys :: h.entries[key])
  }

  // ----- the window

  lemma {:induction false} RecentAgain(failures: seq<nat>, at: nat, later: nat, windowMs: nat)
    requires at <= later
    ensures Recent(Recent(failures, at, windowMs), later, windowMs) == Recent(failures, later, windowMs)
  {
    if failures != [] {
      var init, last := failures[..|failures| - 1], failures[|failures| - 1];
      RecentAgain(init, at, later, windowMs);
      RecentAppend(Recent(init, at, windowMs), last, later, windowMs);
      assert Recent(init, at, windowMs) + [] == Recent(init, at, windowMs);
      assert Recent(init, later, windowMs) + [] == Recent(init, later, windowMs);
    }
  }

  lemma RecentAppend(failures: seq<nat>, last: nat, at: nat, windowMs: nat)
    ensures Recent(failures + [last], at, windowMs)
         == Recent(failures, at, windowMs) + if last + windowMs > at then [last] else []
  {
    assert (failures + [last])[..|failures|] == failures;
  }

  lemma {:induction false} RecentShorter(failures: seq<nat>, at: nat, windowMs: nat)
    ensures |Recent(failures, at, windowMs)| <= |failures|
  {
    if failures != [] {
      RecentShorter(failures[..|failures| - 1], at, windowMs);
    }
  }

  // ----- refinement

  /** From `now` on no call can tell the two entries apart. */
  predicate Agrees(c: Config, e: Entry, full: Entry, now: nat) {
    && Recent(e.failures, now, c.windowMs) == Recent(full.failures, now, c.windowMs)
    && (e.bannedUntil == full.bannedUntil || (e.bannedUntil <= now && full.bannedUntil <= now))
  }

  lemma AgreesLater(c: Config, e: Entry, full: Entry, now: nat, later: nat)
    requires Agrees(c, e, full, now) && now <= later
    ensures Agrees(c, e, full, later)
  {
    RecentAgain(e.failures, now, later, c.windowMs);
    RecentAgain(full.failures, now, later, c.windowMs);
  }

  /** An inactive entry may be dropped: from then on it cannot be told from a missing one. */
  lemma InactiveIsNone(c: Config, e: Entry, full: Entry, now: nat)
    requires Agrees(c, e, full, now)
    ensures Active(c, e, now) <==> Active(c, full, now)
    ensures !Active(c, e, now) ==> Agrees(c, NO_ENTRY, full, now)
  {
  }

  lemma FailureAgrees(c: Config, e: Entry, full: Entry, at: nat)
    requires c.Valid() && Agrees(c, e, full, at)
    ensures RecordAnswer(c, e, at) == RecordAnswer(c, full, at)
    ensures Agrees(c, Failed(c, e, at), FullyFailed(c, full, at), at)
    ensures |Failed(c, e, at).failures| < c.maxFailures
  {
    RecentAppend(full.failures, at, at, c.windowMs);
    RecentAgain(e.failures, at, at, c.windowMs);
    RecentAppend(Recent(e.failures, at, c.windowMs), at, at, c.windowMs);
  }

  // ----- pruning

  predicate Distinct(order: seq<Key>) {
    forall i, j | 0 <= i < j < |order| :: order[i] != order[j]
  }

  /** The guard lists its entries once each, is within its cap, and holds fewer failures than ban a client. */
  ghost predicate WellFormed(c: Config, g: Guard) {
    && Distinct(g.order)
    && (forall key :: key in g.order <==> key in g.entries)
    && |g.order| <= c.maxEntries
    && forall key | key in g.entries :: |g.entries[key].failures| < c.maxFailures
  }

  lemma SplitLast(order: seq<Key>)
    requires Distinct(order) && order != []
    ensures var init, last := order[..|order| - 1], order[|order| - 1];
      last !in init && forall key :: key in order <==> key in init || key == last
  {
    assert order == order[..|order| - 1] + [order[|order| - 1]];
  }

  lemma SplitFirst(order: seq<Key>)
    requires Distinct(order) && order != []
    ensures order[0] !in order[1..] && forall key :: key in order <==> key in order[1..] || key == order[0]
  {
    assert order == [order[0]] + order[1..];
  }

  lemma OneMoreKey(order: seq<Key>, key: Key)
    requires Distinct(order) && key !in order
    ensures Distinct(order + [key]) && forall k :: k in order + [key] <==> k in order || k == key
  {
  }

  lemma {:induction false} ActiveOnes(c: Config, entries: map<Key, Entry>, order: seq<Key>, at: nat)
    requires Distinct(order)
    ensures var active := ActiveKeys(c, entries, order, at);
      && Distinct(active) && |active| <= |order|
      && forall key :: key in active <==> key in order && Active(c, Lookup(entries, key), at)
  {
    if order != [] {
      var init, last := order[..|order| - 1], order[|order| - 1];
      ActiveOnes(c, entries, init, at);
      var active := ActiveKeys(c, entries, init, at);
      SplitLast(order);
      forall key
        ensures key in ActiveKeys(c, entries, order, at)
          <==> key in active || (key == last && Active(c, Lookup(entries, last), at))
      {
      }
    }
  }

  /** The evicted keys and the kept ones are the active keys, in order: the oldest go first. */
  lemma OldestGoFirst(c: Config, g: Guard, at: nat)
    ensures Evicted(c, g, at) + Prune(c, g, at).order == ActiveKeys(c, g.entries, g.order, at)
  {
  }

  /** What a prune keeps and what it evicts; whatever else it drops is inactive. */
  lemma PruneParts(c: Config, g: Guard, at: nat)
    requires Distinct(g.order) && forall key :: key in g.order <==> key in g.entries
    ensures var g', evicted := Prune(c, g, at), Evicted(c, g, at);
      && Distinct(g'.order) && |g'.order| <= c.maxEntries && |evicted| + |g'.order| <= |g.order|
      && (forall key :: key in g'.order <==> key in g'.entries)
      && (forall key :: key in g'.entries ==>
        key !in evicted && g'.entries[key] == Lookup(g.entries, key) && key in g.entries)
      && (forall key :: key in evicted ==> key in g.entries)
      && (forall key | key in g.entries && key !in g'.entries && key !in evicted :: !Active(c, g.entries[key], at))
  {
    ActiveOnes(c, g.entries, g.order, at);
    var active := ActiveKeys(c, g.entries, g.order, at);
    var n := Excess(c, active);
    assert active == active[..n] + active[n..];
    forall key | key in active[..n] ensures key !in active[n..] {
    }
    forall key | key in active ensures key in active[..n] || key in active[n..] {
      assert key in active[..n] + active[n..];
    }
  }

  // ----- one call

  ghost predicate Matches(c: Config, g: Guard, h: History, now: nat) {
    && g.bansIssued == h.bansIssued && g.blockedRequests == h.blockedRequests
    && forall key :: Agrees(c, Lookup(g.entries, key), Lookup(h.entries, key), now)
  }

  lemma MatchesLater(c: Config, g: Guard, h: History, now: nat, later: nat)
    requires Matches(c, g, h, now) && now <= later
    ensures Matches(c, g, h, later)
  {
    forall key ensures Agrees(c, Lookup(g.entries, key), Lookup(h.entries, key), later) {
      AgreesLater(c, Lookup(g.entries, key), Lookup(h.entries, key), now, later);
    }
  }

  /** A prune cannot be observed, except that evicted clients are forgotten. */
  lemma PruneMatches(c: Config, g: Guard, h: History, at: nat)
    requires Matches(c, g, h, at) && Distinct(g.order) && forall key :: key in g.order <==> key in g.entries
    ensures Matches(c, Prune(c, g, at), Forget(h, Evicted(c, g, at)), at)
  {
    PruneParts(c, g, at);
    var g', evicted := Prune(c, g, at), Evicted(c, g, at);
    forall key ensures Agrees(c, Lookup(g'.entries, key), Lookup(Forget(h, evicted).entries, key), at) {
      assert Agrees(c, Lookup(g.entries, key), Lookup(h.entries, key), at);
      InactiveIsNone(c, Lookup(g.entries, key), Lookup(h.entries, key), at);
    }
  }

  lemma AfterRecordMatches(c: Config, g: Guard, h: History, key: Key, at: nat)
    requires c.Valid() && Matches(c, g, h, at) && WellFormed(c, g)
    ensures RecordAnswer(c, Lookup(g.entries, key), at) == RecordAnswer(c, Lookup(h.entries, key), at)
    ensures Matches(c, AfterRecord(c, g, key, at), ApplyFull(c, h, Record(key, at)).0, at)
  {
    FailureAgrees(c, Lookup(g.entries, key), Lookup(h.entries, key), at);
    var g', h' := AfterRecord(c, g, key, at), ApplyFull(c, h, Record(key, at)).0;
    forall other ensures Agrees(c, Lookup(g'.entries, other), Lookup(h'.entries, other), at) {
      assert other != key ==> Agrees(c, Lookup(g.entries, other), Lookup(h.entries, other), at);
    }
  }

  lemma AfterRecordForm(c: Config, g: Guard, h: History, key: Key, at: nat)
    requires c.Valid() && Matches(c, g, h, at) && WellFormed(c, g)
    ensures var g' := AfterRecord(c, g, key, at);
      && Distinct(g'.order) && (forall k :: k in g'.order <==> k in g'.entries)
      && (forall k | k in g'.entries :: |g'.entries[k].failures| < c.maxFailures)
      && (g'.order == g.order || g'.order == g.order + [key])
  {
    FailureAgrees(c, Lookup(g.entries, key), Lookup(h.entries, key), at);
    if key !in g.entries {
      OneMoreKey(g.order, key);
    }
  }

  lemma {:induction false} WithoutKey(order: seq<Key>, key: Key)
    requires Distinct(order)
    ensures Distinct(Without(order, key)) && |Without(order, key)| <= |order|
    ensures forall k :: k in Without(order, key) <==> k in order && k != key
  {
    if order != [] {
      var rest := order[1..];
      WithoutKey(rest, key);
      SplitFirst(order);
      if order[0] != key {
        forall k ensures k in Without(order, key) <==> k == order[0] || k in Without(rest, key) {
        }
      }
    }
  }

  function TimeOf(call: Call, now: nat): nat {
    if call.Clear? then now else call.at
  }

  lemma RecordRefines(c: Config, g: Guard, h: History, key: Key, at: nat)
    requires c.Valid() && WellFormed(c, g) && Matches(c, g, h, at)
    ensures var (g', answer, evicted) := Apply(c, g, Record(key, at));
      var (h', full) := ApplyFull(c, h, Record(key, at));
      answer == full && WellFormed(c, g') && Matches(c, g', Forget(h', evicted), at)
  {
    AfterRecordMatches(c, g, h, key, at);
    AfterRecordForm(c, g, h, key, at);
    var stored := AfterRecord(c, g, key, at);
    var h' := ApplyFull(c, h, Record(key, at)).0;
    if |stored.order| > c.maxEntries {
      PruneParts(c, stored, at);
      PruneMatches(c, stored, h', at);
    } else {
      ForgetNone(h');
    }
  }

  lemma ForgetNone(h: History)
    ensures Forget(h, []) == h
  {
    assert Forget(h, []).entries == h.entries;
  }

  lemma DescribeRefines(c: Config, g: Guard, h: History, at: nat)
    requires c.Valid() && WellFormed(c, g) && Matches(c, g, h, at)
    ensures var (g', answer, evicted) := Apply(c, g, Describe(at));
      var (h', full) := ApplyFull(c, h, Describe(at));
      answer == full && evicted == [] && WellFormed(c, g') && Matches(c, g', Forget(h', evicted), at)
  {
    QuietPrune(c, g, h, at);
    ForgetNone(h);
    SameBanned(c, Prune(c, g, at), h, at);
  }

  /** A guard within its cap evicts no one when it prunes. */
  lemma QuietPrune(c: Config, g: Guard, h: History, at: nat)
    requires WellFormed(c, g) && Matches(c, g, h, at)
    ensures Evicted(c, g, at) == [] && WellFormed(c, Prune(c, g, at)) && Matches(c, Prune(c, g, at), h, at)
  {
    PruneForm(c, g, at);
    PruneMatches(c, g, h, at);
    ForgetNone(h);
  }

  lemma PruneForm(c: Config, g: Guard, at: nat)
    requires WellFormed(c, g)
    ensures WellFormed(c, Prune(c, g, at)) && Evicted(c, g, at) == []
  {
    PruneParts(c, g, at);
    EvictedIff(c, g, at);
  }

  lemma SameBanned(c: Config, g: Guard, h: History, at: nat)
    requires Matches(c, g, h, at)
    ensures BannedKeys(g.entries, at) == BannedKeys(h.entries, at)
  {
    forall key ensures key in BannedKeys(g.entries, at) <==> key in BannedKeys(h.entries, at) {
      assert Agrees(c, Lookup(g.entries, key), Lookup(h.entries, key), at);
    }
  }

  lemma OtherRefines(c: Config, g: Guard, h: History, call: Call, now: nat)
    requires c.Valid() && WellFormed(c, g) && Matches(c, g, h, now) && (call.Check? || call.Clear?)
    requires call.Check? ==> call.at == now
    ensures var (g', answer, evicted) := Apply(c, g, call);
      var (h', full) := ApplyFull(c, h, call);
      answer == full && evicted == [] && WellFormed(c, g') && Matches(c, g', Forget(h', evicted), now)
  {
    assert Agrees(c, Lookup(g.entries, call.key), Lookup(h.entries, call.key), now);
    var g', h' := Apply(c, g, call).0, ApplyFull(c, h, call).0;
    ForgetNone(h');
    if call.Clear? {
      WithoutKey(g.order, call.key);
      forall key ensures Agrees(c, Lookup(g'.entries, key), Lookup(h'.entries, key), now) {
        assert Agrees(c, Lookup(g.entries, key), Lookup(h.entries, key), now);
      }
    }
  }

  /** One call answers as the full history does, and keeps the two in step. */
  lemma CallRefines(c: Config, g: Guard, h: History, call: Call, now: nat)
    requires c.Valid() && WellFormed(c, g) && Matches(c, g, h, now) && now <= TimeOf(call, now)
    ensures var (g', answer, evicted) := Apply(c, g, call);
      var (h', full) := ApplyFull(c, h, call);
      answer == full && WellFormed(c, g') && Matches(c, g', Forget(h', evicted), TimeOf(call, now))
  {
    MatchesLater(c, g, h, now, TimeOf(call, now));
    match call
    case Record(key, at) => RecordRefines(c, g, h, key, at);
    case Describe(at) => DescribeRefines(c, g, h, at);
    case _ => OtherRefines(c, g, h, call, TimeOf(call, now));
  }

  // ----- whole runs

  datatype Run = Run(guard: Guard, answers: seq<Answer>, evictions: seq<seq<Key>>)

  function Exec(c: Config, calls: seq<Call>): (r: Run)
    ensures |r.evictions| == |r.answers| == |calls|
  {
    if calls == [] then Run(EMPTY, [], [])
    else
      var r := Exec(c, calls[..|calls| - 1]);
      var (g, answer, evicted) := Apply(c, r.guard, calls[|calls| - 1]);
      Run(g, r.answers + [answer], r.evictions + [evicted])
  }

  datatype FullRun = FullRun(history: History, answers: seq<Answer>)

  /** The full history of the calls, in which the clients in `evictions` are forgotten after each call. */
  function ExecFull(c: Config, calls: seq<Call>, evictions: seq<seq<Key>>): (r: FullRun)
    requires |evictions| == |calls|
    ensures |r.answers| == |calls|
  {
    if calls == [] then FullRun(NO_HISTORY, [])
    else
      var n := |calls| - 1;
      var r := ExecFull(c, calls[..n], evictions[..n]);
      var (h, answer) := ApplyFull(c, r.history, calls[n]);
      FullRun(Forget(h, evictions[n]), r.answers + [answer])
  }

  /** The time of the last timed call. */
  function Now(calls: seq<Call>): nat {
    if calls == [] then 0 else TimeOf(calls[|calls| - 1], Now(calls[..|calls| - 1]))
  }

  /** Time does not run backwards. */
  predicate Ordered(calls: seq<Call>) {
    calls == [] || (Ordered(calls[..|calls| - 1]) && Now(calls[..|calls| - 1]) <= Now(calls))
  }

  /** Every run answers as the full history does that forgets the evicted clients. */
  lemma {:induction false} RunRefines(c: Config, calls: seq<Call>)
    requires c.Valid() && Ordered(calls)
    ensures var r := Exec(c, calls);
      var full := ExecFull(c, calls, r.evictions);
      r.answers == full.answers && WellFormed(c, r.guard) && Matches(c, r.guard, full.history, Now(calls))
  {
    if calls != [] {
      var n := |calls| - 1;
      RunRefines(c, calls[..n]);
      var before := Exec(c, calls[..n]);
      assert Exec(c, calls).evictions[..n] == before.evictions;
      CallRefines(c, before.guard, ExecFull(c, calls[..n], before.evictions).history, calls[n], Now(calls[..n]));
    }
  }

  // ----- evictions

  /** The clients that the full history still counts against at a time. */
  function ActiveClients(c: Config, h: History, at: nat): set<Key> {
    set key | key in h.entries && Active(c, h.entries[key], at)
  }

  lemma {:induction false} Cardinality(order: seq<Key>)
    requires Distinct(order)
    ensures |set key | key in order| == |order|
  {
    if order != [] {
      var init, last := order[..|order| - 1], order[|order| - 1];
      Cardinality(init);
      SplitLast(order);
      assert (set key | key in order) == (set key | key in init) + {last};
    }
  }

  lemma SameActive(c: Config, g: Guard, h: History, at: nat)
    requires Matches(c, g, h, at) && Distinct(g.order) && forall key :: key in g.order <==> key in g.entries
    ensures |ActiveKeys(c, g.entries, g.order, at)| == |ActiveClients(c, h, at)|
  {
    ActiveOnes(c, g.entries, g.order, at);
    var active := ActiveKeys(c, g.entries, g.order, at);
    Cardinality(active);
    forall key ensures key in active <==> key in ActiveClients(c, h, at) {
      InactiveIsNone(c, Lookup(g.entries, key), Lookup(h.entries, key), at);
    }
    assert (set key | key in active) == ActiveClients(c, h, at);
  }

  /** A record evicts exactly when the full history then counts against more clients than the cap. */
  lemma EvictsIff(c: Config, g: Guard, h: History, key: Key, at: nat)
    requires c.Valid() && WellFormed(c, g) && Matches(c, g, h, at)
    ensures Apply(c, g, Record(key, at)).2 != []
      <==> |ActiveClients(c, ApplyFull(c, h, Record(key, at)).0, at)| > c.maxEntries
  {
    AfterRecordMatches(c, g, h, key, at);
    AfterRecordForm(c, g, h, key, at);
    var stored := AfterRecord(c, g, key, at);
    SameActive(c, stored, ApplyFull(c, h, Record(key, at)).0, at);
    EvictedIff(c, stored, at);
  }

  lemma EvictedIff(c: Config, g: Guard, at: nat)
    requires Distinct(g.order)
    ensures var active := |ActiveKeys(c, g.entries, g.order, at)|;
      (Evicted(c, g, at) != [] <==> active > c.maxEntries) && active <= |g.order|
  {
    ActiveOnes(c, g.entries, g.order, at);
  }

  /** The client that just failed is never the one evicted. */
  lemma NewestStays(c: Config, g: Guard, h: History, key: Key, at: nat)
    requires c.Valid() && WellFormed(c, g) && Matches(c, g, h, at)
    ensures key !in Apply(c, g, Record(key, at)).2
  {
    AfterRecordForm(c, g, h, key, at);
    var stored := AfterRecord(c, g, key, at);
    if |stored.order| > c.maxEntries {
      ActiveOnes(c, stored.entries, stored.order, at);
      var active := ActiveKeys(c, stored.entries, stored.order, at);
      if key in Evicted(c, stored, at) {
        LastIsLast(c, stored.entries, g.order, key, at);
      }
    }
  }

  lemma LastIsLast(c: Config, entries: map<Key, Entry>, order: seq<Key>, key: Key, at: nat)
    requires Distinct(order + [key]) && key in ActiveKeys(c, entries, order + [key], at)
    ensures var active := ActiveKeys(c, entries, order + [key], at);
      active != [] && active[|active| - 1] == key
  {
    assert (order + [key])[..|order|] == order;
    ActiveOnes(c, entries, order, at);
    ActiveOnes(c, entries, order + [key], at);
  }

  function NoEvictions(n: nat): (r: seq<seq<Key>>)
    ensures |r| == n && forall i | 0 <= i < n :: r[i] == []
  {
    seq(n, i => [])
  }

  /** In the full history no record leaves more clients active than the cap. */
  predicate FewClients(c: Config, calls: seq<Call>) {
    calls == [] ||
    var n := |calls| - 1;
    && FewClients(c, calls[..n])
    && (calls[n].Record? ==>
      |ActiveClients(c, ExecFull(c, calls, NoEvictions(n + 1)).history, calls[n].at)| <= c.maxEntries)
  }

  /**
   While no more clients are active than the cap, nothing is evicted, and the
   guard bans, blocks and reports exactly as the full history of failures does.
   */
  lemma {:induction false} FewClientsRefine(c: Config, calls: seq<Call>)
    requires c.Valid() && Ordered(calls) && FewClients(c, calls)
    ensures Exec(c, calls).evictions == NoEvictions(|calls|)
    ensures Exec(c, calls).answers == ExecFull(c, calls, NoEvictions(|calls|)).answers
  {
    RunRefines(c, calls);
    if calls != [] {
      var n := |calls| - 1;
      FewClientsRefine(c, calls[..n]);
      RunRefines(c, calls[..n]);
      assert NoEvictions(n + 1)[..n] == NoEvictions(n);
      var g, h := Exec(c, calls[..n]).guard, ExecFull(c, calls[..n], NoEvictions(n)).history;
      MatchesLater(c, g, h, Now(calls[..n]), Now(calls));
      ForgetNone(ApplyFull(c, h, calls[n]).0);
      EvictsNone(c, g, h, calls[n], Now(calls));
      CallRefines(c, g, h, calls[n], Now(calls));
    }
  }

  /** A call evicts no one unless it leaves more clients active than the cap. */
  lemma EvictsNone(c: Config, g: Guard, h: History, call: Call, now: nat)
    requires c.Valid() && WellFormed(c, g) && Matches(c, g, h, now) && TimeOf(call, now) == now
    requires call.Record? ==> |ActiveClients(c, ApplyFull(c, h, call).0, call.at)| <= c.maxEntries
    ensures Apply(c, g, call).2 == []
  {
    match call
    case Record(key, at) => EvictsIff(c, g, h, key, at);
    case Describe(at) => QuietPrune(c, g, h, at);
    case _ =>
  }

  // ----- the guard as it runs

  class FailureGuard {
    const config: Config
    var entries: map<Key, Entry>
    var order: seq<Key>
    var bansIssued: nat
    var blockedRequests: nat

    function State(): Guard
      reads this
    {
      Guard(order, entries, bansIssued, blockedRequests)
    }

    constructor (config: Config)
      ensures this.config == config && State() == EMPTY
    {
      this.config := config;
      entries, order, bansIssued, blockedRequests := map[], [], 0, 0;
    }

    method PruneEntries(at: nat)
      requires WellFormedKeys(order, entries)
      modifies this`entries, this`order
      ensures State() == Prune(config, old(State()), at)
    {
      ghost var before := State();
      var active := DropInactive(at);
      assert active[0..] == active;
      if |active| <= config.maxEntries { return; }
      var excess := |active| - config.maxEntries;
      var dropped := 0;
      while dropped < excess
        invariant dropped <= excess && State() == Keep(before, active[dropped..])
      {
        KeepLess(before, active, dropped);
        entries, order := entries - {order[0]}, order[1..];
        dropped := dropped + 1;
      }
    }

    /** Deletes the entries that neither ban nor count. */
    method DropInactive(at: nat) returns (active: seq<Key>)
      requires WellFormedKeys(order, entries)
      modifies this`entries, this`order
      ensures active == ActiveKeys(config, old(entries), old(order), at) && Distinct(active)
      ensures State() == Keep(old(State()), active)
    {
      active := [];
      var keys, all, kept := order, entries, entries;
      ghost var before := State();
      for i := 0 to |keys|
        invariant active == ActiveKeys(config, all, keys[..i], at)
        invariant KeptSoFar(kept, all, active, keys[i..])
      {
        var key := keys[i];
        NextKey(config, all, keys, i, at);
        KeptNext(kept, all, active, key, keys[i..], keys[i + 1..]);
        if Active(config, Lookup(all, key), at) {
          active := active + [key];
        } else {
          kept := kept - {key};
        }
      }
      assert keys[..|keys|] == keys;
      ActiveOnes(config, all, keys, at);
      entries, order := kept, active;
      KeptIsKeep(before, active, kept);
    }

    method CheckClient(key: Key, at: nat) returns (answer: Answer)
      modifies this`blockedRequests
      ensures (State(), answer, []) == Apply(config, old(State()), Check(key, at))
    {
      if key !in entries || entries[key].bannedUntil <= at {
        return Checked(0);
      }
      blockedRequests := blockedRequests + 1;
      answer := Checked(entries[key].bannedUntil);
    }

    method RecordFailure(key: Key, at: nat) returns (answer: Answer)
      requires config.Valid() && WellFormedKeys(order, entries)
      modifies this
      ensures State() == Apply(config, old(State()), Record(key, at)).0
      ensures answer == Apply(config, old(State()), Record(key, at)).1
    {
      answer := CountFailure(key, at);
      if |order| > config.maxEntries {
        PruneEntries(at);
      }
    }

    /** Counts one more failure and bans the client when it was one too many. */
    method CountFailure(key: Key, at: nat) returns (answer: Answer)
      requires config.Valid() && WellFormedKeys(order, entries)
      modifies this
      ensures State() == AfterRecord(config, old(State()), key, at) && WellFormedKeys(order, entries)
      ensures answer == RecordAnswer(config, Lookup(old(entries), key), at)
    {
      var entry := Lookup(entries, key);
      var failures := Recent(entry.failures, at, config.windowMs) + [at];
      var banned := |failures| >= config.maxFailures;
      if banned {
        entry := Entry([], at + config.banMs);
        bansIssued := bansIssued + 1;
      } else {
        entry := Entry(failures, entry.bannedUntil);
      }
      assert entry == Failed(config, Lookup(entries, key), at);
      if key !in entries {
        OneMoreKey(order, key);
        order := order + [key];
      }
      entries := entries[key := entry];
      answer := if banned then Recorded(true, config.maxFailures, 0)
                else Recorded(false, |failures|, config.maxFailures - |failures|);
    }

    method ClearClient(key: Key)
      modifies this
      ensures State() == Apply(config, old(State()), Clear(key)).0
    {
      entries, order := entries - {key}, Without(order, key);
    }

    method DescribeGuard(at: nat) returns (answer: Answer)
      requires WellFormedKeys(order, entries)
      modifies this
      ensures State() == Apply(config, old(State()), Describe(at)).0
      ensures answer == Apply(config, old(State()), Describe(at)).1
    {
      PruneEntries(at);
      answer := Described((set key | key in entries && entries[key].bannedUntil > at), bansIssued, blockedRequests);
    }
  }

  ghost predicate WellFormedKeys(order: seq<Key>, entries: map<Key, Entry>) {
    Distinct(order) && forall key :: key in order <==> key in entries
  }

  /** Of the keys gone through the active ones are kept, and all that are still to come. */
  ghost predicate KeptSoFar(kept: map<Key, Entry>, all: map<Key, Entry>, active: seq<Key>, later: seq<Key>) {
    && (forall key :: key in kept <==> key in all && (key in active || key in later))
    && forall key | key in kept :: kept[key] == all[key]
  }

  lemma KeptNext(kept: map<Key, Entry>, all: map<Key, Entry>, active: seq<Key>, key: Key, later: seq<Key>,
                 rest: seq<Key>)
    requires KeptSoFar(kept, all, active, later)
    requires key !in active && key !in rest && forall k :: k in later <==> k in rest || k == key
    ensures KeptSoFar(kept, all, active + [key], rest) && KeptSoFar(kept - {key}, all, active, rest)
  {
  }

  lemma KeptIsKeep(g: Guard, active: seq<Key>, kept: map<Key, Entry>)
    requires KeptSoFar(kept, g.entries, active, [])
    ensures g.(order := active, entries := kept) == Keep(g, active)
  {
    assert kept == Keep(g, active).entries;
  }

  lemma KeepLess(g: Guard, active: seq<Key>, dropped: nat)
    requires Distinct(active) && dropped < |active|
    ensures var kept := Keep(g, active[dropped..]);
      kept.order != [] &&
        kept.(entries := kept.entries - {kept.order[0]}, order := kept.order[1..]) == Keep(g, active[dropped + 1..])
  {
    var kept := Keep(g, active[dropped..]);
    DropOldest(active, dropped);
    assert kept.entries - {kept.order[0]} == Keep(g, active[dropped + 1..]).entries;
  }

  lemma NextKey(c: Config, entries: map<Key, Entry>, order: seq<Key>, i: nat, at: nat)
    requires Distinct(order) && i < |order|
    ensures ActiveKeys(c, entries, order[..i + 1], at)
         == ActiveKeys(c, entries, order[..i], at) + if Active(c, Lookup(entries, order[i]), at) then [order[i]] else []
    ensures forall key :: key in order[i..] <==> key in order[i + 1..] || key == order[i]
    ensures order[i] !in order[i + 1..] && order[i] !in ActiveKeys(c, entries, order[..i], at)
  {
    assert order[..i + 1][..i] == order[..i];
    SplitFirst(order[i..]);
    assert order[i..][1..] == order[i + 1..];
    ActiveOnes(c, entries, order[..i], at);
  }

  lemma DropOldest(active: seq<Key>, dropped: nat)
    requires Distinct(active) && dropped < |active|
    ensures active[dropped..][1..] == active[dropped + 1..] && active[dropped..][0] == active[dropped]
    ensures active[dropped] !in active[dropped + 1..]
    ensures forall key :: key in active[dropped..] <==> key in active[dropped + 1..] || key == active[dropped]
  {
    SplitFirst(active[dropped..]);
    assert active[dropped..][1..] == active[dropped + 1..];
  }
}
