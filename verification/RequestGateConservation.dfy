/** What the gate keeps when every request brings its own settings. */
module RequestGateConservation {
  import opened RequestGate

  datatype Move =
    | Entering(key: Key, settings: Settings)
    | Quitting(id: nat, timedOut: bool)
    | Finishing(id: nat, key: Key, settings: Settings)

  function Perform(g: Gate, move: Move): Gate {
    match move
    case Entering(key, settings) => Arrive(g, key, settings)
    case Quitting(id, timedOut) => Leave(g, id, if timedOut then TimedOut else Aborted)
    case Finishing(id, key, settings) => Release(g, id, key, settings)
  }

  function Play(moves: seq<Move>): Gate {
    if moves == [] then OPENED else Perform(Play(moves[..|moves| - 1]), moves[|moves| - 1])
  }

  /** The settings that a move brings allow no more than `top`. */
  predicate Within(move: Move, top: Settings) {
    move.Quitting? || (move.settings.limit <= top.limit && move.settings.queueLimit <= top.queueLimit)
  }

  // ----- the invariant

  /** As many slots taken as held, within the highest limit. */
  predicate SlotsKept(g: Gate, key: Key, top: Settings) {
    && Count(g, key) == |Held(g, key)| <= top.limit
    && (key in g.buckets ==> g.buckets[key] > 0)
    && (key in g.queues ==> g.queues[key] != [])
    && |Queue(g, key)| <= top.queueLimit
  }

  /** In the queue only requests of the key that were told nothing, in order of arrival. */
  predicate LineKept(g: Gate, key: Key) {
    && InLine(Queue(g, key), key, g.arrivals, g.told, {})
    && forall id | id in Granted(g, key) :: id in g.told && id < |g.arrivals| && g.arrivals[id] == key
  }

  predicate KeyKept(g: Gate, key: Key, top: Settings) { SlotsKept(g, key, top) && LineKept(g, key) }

  /** Every request is told something at most once, about its own key. */
  predicate LogKept(g: Gate) {
    && (forall i | 0 <= i < |g.log| ::
      g.log[i].id in g.told && g.log[i].id < |g.arrivals| && g.arrivals[g.log[i].id] == g.log[i].key)
    && (forall i, j | 0 <= i < j < |g.log| :: g.log[i].id != g.log[j].id)
  }

  ghost predicate Kept(g: Gate, top: Settings) {
    LogKept(g) && Logged(g) && SharedInv(g) && forall key :: KeyKept(g, key, top)
  }

  /** The step tells a request something for the first time. */
  predicate TellsOne(g: Gate, g': Gate, s: Settlement) {
    && s.id !in g.told && s.id < |g'.arrivals| && g'.arrivals[s.id] == s.key
    && g.arrivals <= g'.arrivals && g'.log == g.log + [s] && g'.told == g.told + {s.id}
  }

  ghost predicate TellsNoMore(g: Gate, g': Gate) {
    || (g'.log == g.log && g'.told == g.told && g.arrivals <= g'.arrivals)
    || exists s :: TellsOne(g, g', s)
  }

  /** What every step about a key establishes. */
  ghost predicate StepKept(g: Gate, g': Gate, key: Key, top: Settings) {
    Touches(g, g', key) && SharedInv(g') && KeyKept(g', key, top) && TellsNoMore(g, g')
  }

  lemma LogKeptAfter(g: Gate, g': Gate, s: Settlement)
    requires LogKept(g) && TellsOne(g, g', s)
    ensures LogKept(g')
  {
    forall i | 0 <= i < |g'.log|
      ensures g'.log[i].id in g'.told && g'.log[i].id < |g'.arrivals| && g'.arrivals[g'.log[i].id] == g'.log[i].key
    {
      assert i < |g.log| ==> g'.log[i] == g.log[i];
    }
    forall i, j | 0 <= i < j < |g'.log| ensures g'.log[i].id != g'.log[j].id {
      assert g'.log[i] == g.log[i] && (j < |g.log| ==> g'.log[j] == g.log[j]);
    }
  }

  lemma LoggedAfter(g: Gate, g': Gate, s: Settlement)
    requires Logged(g) && TellsOne(g, g', s)
    ensures Logged(g')
  {
    forall id | id in g'.told ensures exists i | 0 <= i < |g'.log| :: g'.log[i].id == id {
      if id == s.id {
        assert g'.log[|g.log|].id == id;
      } else {
        var i :| 0 <= i < |g.log| && g.log[i].id == id;
        assert g'.log[i].id == id;
      }
    }
  }

  lemma HistoryKept(g: Gate, g': Gate)
    requires LogKept(g) && Logged(g) && TellsNoMore(g, g')
    ensures LogKept(g') && Logged(g')
  {
    if g'.log != g.log {
      var s :| TellsOne(g, g', s);
      LogKeptAfter(g, g', s);
      LoggedAfter(g, g', s);
    }
  }

  lemma OtherSlotsKept(g: Gate, g': Gate, key: Key, other: Key, top: Settings)
    requires Touches(g, g', key) && other != key && SlotsKept(g, other, top) && LineKept(g, other)
    ensures SlotsKept(g', other, top)
  {
    assert Held(g', other) == Held(g, other);
  }

  lemma OtherLineKept(g: Gate, g': Gate, key: Key, other: Key)
    requires Touches(g, g', key) && other != key && LineKept(g, other)
    ensures LineKept(g', other)
  {
    assert Queue(g', other) == Queue(g, other) && Granted(g', other) == Granted(g, other);
  }

  lemma OtherKept(g: Gate, g': Gate, key: Key, other: Key, top: Settings)
    requires Touches(g, g', key) && other != key && KeyKept(g, other, top)
    ensures KeyKept(g', other, top)
  {
    OtherSlotsKept(g, g', key, other, top);
    OtherLineKept(g, g', key, other);
  }

  lemma {:induction false} AllKept(g: Gate, g': Gate, key: Key, top: Settings)
    requires Kept(g, top) && StepKept(g, g', key, top)
    ensures Kept(g', top)
  {
    HistoryKept(g, g');
    forall other ensures KeyKept(g', other, top) {
      if other != key {
        OtherKept(g, g', key, other, top);
      }
    }
  }

  // ----- steps

  predicate Ready(g: Gate, key: Key, top: Settings) {
    SharedInv(g) && KeyKept(g, key, top)
  }

  lemma GrantSlotsKept(g: Gate, id: nat, key: Key, top: Settings)
    requires SlotsKept(g, key, top) && Count(g, key) < top.limit && id !in Granted(g, key) && id !in g.released
    ensures SlotsKept(Grant(g, id, key), key, top)
  {
    HeldAfterGrant(g, id, key);
    OneMore(Held(g, key), id);
  }

  lemma GrantLineKept(g: Gate, key: Key)
    requires LineKept(g, key)
    ensures LineKept(Grant(g.(arrivals := g.arrivals + [key]), |g.arrivals|, key), key)
  {
  }

  lemma GrantKept(g: Gate, key: Key, top: Settings)
    requires Ready(g, key, top) && Count(g, key) < top.limit
    ensures StepKept(g, Grant(g.(arrivals := g.arrivals + [key]), |g.arrivals|, key), key, top)
  {
    GrantTouches(g, key);
    GrantShared(g, key);
    GrantSlotsKept(g.(arrivals := g.arrivals + [key]), |g.arrivals|, key, top);
    GrantLineKept(g, key);
    GrantTellsOne(g, key);
  }

  lemma GrantTellsOne(g: Gate, key: Key)
    requires SharedInv(g)
    ensures TellsOne(g, Grant(g.(arrivals := g.arrivals + [key]), |g.arrivals|, key),
      Settlement(|g.arrivals|, key, Admitted))
  {
  }

  lemma RefusalKept(g: Gate, key: Key, top: Settings, result: Result)
    requires Ready(g, key, top) && result != Admitted
    ensures StepKept(g, Settle(g.(arrivals := g.arrivals + [key]), |g.arrivals|, key, result), key, top)
  {
    SettleTouches(g, key, result);
    RefusalShared(g, key, result);
    RefusalKeyKept(g, key, top, result);
    RefusalTellsOne(g, key, result);
  }

  lemma RefusalShared(g: Gate, key: Key, result: Result)
    requires SharedInv(g)
    ensures SharedInv(Settle(g.(arrivals := g.arrivals + [key]), |g.arrivals|, key, result))
  {
    StillNoneLost(g, Settle(g.(arrivals := g.arrivals + [key]), |g.arrivals|, key, result), key);
  }

  lemma RefusalKeyKept(g: Gate, key: Key, top: Settings, result: Result)
    requires Ready(g, key, top) && result != Admitted
    ensures KeyKept(Settle(g.(arrivals := g.arrivals + [key]), |g.arrivals|, key, result), key, top)
  {
    assert Held(Settle(g.(arrivals := g.arrivals + [key]), |g.arrivals|, key, result), key) == Held(g, key);
  }

  lemma RefusalTellsOne(g: Gate, key: Key, result: Result)
    requires SharedInv(g)
    ensures TellsOne(g, Settle(g.(arrivals := g.arrivals + [key]), |g.arrivals|, key, result),
      Settlement(|g.arrivals|, key, result))
  {
  }

  lemma QueuedKeyKept(g: Gate, key: Key, top: Settings)
    requires Ready(g, key, top) && |Queue(g, key)| < top.queueLimit
    ensures KeyKept(SetQueue(g.(arrivals := g.arrivals + [key]), key, Queue(g, key) + [|g.arrivals|]), key, top)
  {
    LastInLine(Queue(g, key), key, g.arrivals, g.told, {});
    assert Held(SetQueue(g.(arrivals := g.arrivals + [key]), key, Queue(g, key) + [|g.arrivals|]), key) == Held(g, key);
  }

  lemma QueuedShared(g: Gate, key: Key)
    requires SharedInv(g)
    ensures SharedInv(SetQueue(g.(arrivals := g.arrivals + [key]), key, Queue(g, key) + [|g.arrivals|]))
  {
    StillNoneLost(g, SetQueue(g.(arrivals := g.arrivals + [key]), key, Queue(g, key) + [|g.arrivals|]), key);
  }

  lemma QueuedKept(g: Gate, key: Key, top: Settings)
    requires Ready(g, key, top) && |Queue(g, key)| < top.queueLimit
    ensures StepKept(g, SetQueue(g.(arrivals := g.arrivals + [key]), key, Queue(g, key) + [|g.arrivals|]), key, top)
  {
    QueuedTouches(g, key);
    QueuedKeyKept(g, key, top);
    QueuedShared(g, key);
  }

  lemma EnteringKept(g: Gate, key: Key, settings: Settings, top: Settings)
    requires Ready(g, key, top) && Within(Entering(key, settings), top)
    ensures StepKept(g, Arrive(g, key, settings), key, top)
  {
    if Count(g, key) < settings.limit {
      GrantKept(g, key, top);
    } else if settings.queueLimit == 0 {
      RefusalKept(g, key, top, LimitExceeded);
    } else if |Queue(g, key)| >= settings.queueLimit {
      RefusalKept(g, key, top, QueueFull);
    } else {
      QueuedKept(g, key, top);
    }
  }

  lemma QuittingKept(g: Gate, id: nat, result: Result, top: Settings)
    requires id < |g.arrivals| && id in Queue(g, g.arrivals[id]) && result != Admitted && Ready(g, g.arrivals[id], top)
    ensures StepKept(g, Leave(g, id, result), g.arrivals[id], top)
  {
    var key := g.arrivals[id];
    LeaveTouches(g, id, result);
    WithoutOne(Queue(g, key), id);
    LeftLine(Queue(g, key), id, key, g.arrivals, g.told, {});
    StillNoneLost(g, Leave(g, id, result), key);
    assert TellsOne(g, Leave(g, id, result), Settlement(id, key, result));
  }

  /** Giving back a slot. */
  lemma FreedKept(g: Gate, id: nat, key: Key, top: Settings)
    requires Ready(g, key, top) && id in Held(g, key)
    ensures StepKept(g, LowerBucket(g.(released := g.released + {id}), key), key, top)
  {
    var g' := LowerBucket(g.(released := g.released + {id}), key);
    FreeTouches(g, id, key);
    assert Held(g', key) == Held(g, key) - {id};
    StillNoneLost(g, g', key);
  }

  /** The gate after the first waiter got a slot. */
  function FirstGranted(g: Gate, key: Key): Gate
    requires key in g.queues && g.queues[key] != []
  {
    SetQueue(Grant(g, g.queues[key][0], key), key, g.queues[key][1..])
  }

  lemma FirstGrantedTouches(g: Gate, key: Key)
    requires key in g.queues && g.queues[key] != []
    requires g.queues[key][0] < |g.arrivals| && g.arrivals[g.queues[key][0]] == key
    ensures Touches(g, FirstGranted(g, key), key)
  {
  }

  lemma FirstGrantedSlots(g: Gate, key: Key, top: Settings)
    requires SlotsKept(g, key, top) && key in g.queues && Count(g, key) < top.limit
    requires g.queues[key][0] !in Granted(g, key) && g.queues[key][0] !in g.released
    ensures SlotsKept(FirstGranted(g, key), key, top)
  {
    var first := g.queues[key][0];
    GrantSlotsKept(g, first, key, top);
    assert Held(FirstGranted(g, key), key) == Held(Grant(g, first, key), key);
  }

  lemma FirstGrantedLine(g: Gate, key: Key)
    requires LineKept(g, key) && key in g.queues && g.queues[key] != []
    ensures LineKept(FirstGranted(g, key), key)
  {
    FirstOut(g.queues[key], key, g.arrivals, g.told, {});
  }

  lemma FirstGrantedShared(g: Gate, key: Key)
    requires SharedInv(g) && LineKept(g, key) && key in g.queues && g.queues[key] != []
    ensures SharedInv(FirstGranted(g, key))
  {
    FirstOut(g.queues[key], key, g.arrivals, g.told, {});
    StillNoneLost(g, FirstGranted(g, key), key);
  }

  lemma FirstGrantedKept(g: Gate, key: Key, top: Settings)
    requires Ready(g, key, top) && key in g.queues && Count(g, key) < top.limit
    ensures StepKept(g, FirstGranted(g, key), key, top)
  {
    var queue, g' := g.queues[key], FirstGranted(g, key);
    FirstOut(queue, key, g.arrivals, g.told, {});
    FirstGrantedTouches(g, key);
    FirstGrantedSlots(g, key, top);
    FirstGrantedLine(g, key);
    FirstGrantedShared(g, key);
    assert TellsOne(g, g', Settlement(queue[0], key, Admitted));
  }

  /** With nobody cancelled in the queue, the slot goes to the first waiter or to nobody. */
  lemma ResolvesFirstOrNone(g: Gate, key: Key, limit: nat, top: Settings)
    requires Ready(g, key, top) && key in g.queues
    ensures ResolveNext(g, key, limit, g.queues[key]) == if Count(g, key) < limit then FirstGranted(g, key) else g
  {
    assert g.queues[key][0] in g.queues[key];
    assert g.queues[key := g.queues[key]] == g.queues;
  }

  lemma {:induction false} FinishingKept(g: Gate, id: nat, key: Key, settings: Settings, top: Settings)
    requires Kept(g, top) && id in Held(g, key) && settings.limit <= top.limit
    ensures Kept(Release(g, id, key, settings), top)
  {
    var freed := LowerBucket(g.(released := g.released + {id}), key);
    assert KeyKept(g, key, top);
    FreedKept(g, id, key, top);
    AllKept(g, freed, key, top);
    if key in freed.queues {
      ResolvesFirstOrNone(freed, key, settings.limit, top);
      if Count(freed, key) < settings.limit {
        FirstGrantedKept(freed, key, top);
        AllKept(freed, FirstGranted(freed, key), key, top);
      }
    }
  }

  lemma {:induction false} PerformKeeps(g: Gate, move: Move, top: Settings)
    requires Kept(g, top) && Within(move, top)
    ensures Kept(Perform(g, move), top)
  {
    match move
    case Entering(key, settings) =>
      assert KeyKept(g, key, top);
      EnteringKept(g, key, settings, top);
      AllKept(g, Arrive(g, key, settings), key, top);
    case Quitting(id, timedOut) =>
      if id < |g.arrivals| && id in Queue(g, g.arrivals[id]) {
        var result := if timedOut then TimedOut else Aborted;
        assert KeyKept(g, g.arrivals[id], top);
        QuittingKept(g, id, result, top);
        AllKept(g, Leave(g, id, result), g.arrivals[id], top);
      }
    case Finishing(id, key, settings) =>
      if id in Held(g, key) {
        FinishingKept(g, id, key, settings, top);
      }
  }

  lemma {:induction false} PlayKeeps(moves: seq<Move>, top: Settings)
    requires forall i | 0 <= i < |moves| :: Within(moves[i], top)
    ensures Kept(Play(moves), top)
  {
    if moves != [] {
      PlayKeeps(moves[..|moves| - 1], top);
      PerformKeeps(Play(moves[..|moves| - 1]), moves[|moves| - 1], top);
    }
  }

  // ----- what a run guarantees

  /** The highest of the settings in a run. */
  function Highest(moves: seq<Move>): (top: Settings)
    ensures forall i | 0 <= i < |moves| :: Within(moves[i], top)
  {
    if moves == [] then Settings(0, 0)
    else
      var top, last := Highest(moves[..|moves| - 1]), moves[|moves| - 1];
      assert forall i | 0 <= i < |moves| - 1 :: moves[i] == moves[..|moves| - 1][i];
      if last.Quitting? then top
      else Settings(if last.settings.limit > top.limit then last.settings.limit else top.limit,
                    if last.settings.queueLimit > top.queueLimit then last.settings.queueLimit else top.queueLimit)
  }

  /** Whatever settings the requests bring, the slots in use are the grants not given back, within the highest limit. */
  lemma {:induction false} SlotsAlwaysConserved(moves: seq<Move>, key: Key)
    ensures var g := Play(moves);
      && Count(g, key) == |Held(g, key)| <= Highest(moves).limit
      && |Queue(g, key)| <= Highest(moves).queueLimit
      && (Held(g, key) == {} ==> key !in g.buckets)
  {
    PlayKeeps(moves, Highest(moves));
    assert KeyKept(Play(moves), key, Highest(moves));
  }

  /** Whatever settings the requests bring, each is told something at most once, and waits exactly until then. */
  lemma {:induction false} AlwaysSettledOnce(moves: seq<Move>)
    ensures var g := Play(moves);
      && (forall i, j | 0 <= i < j < |g.log| :: g.log[i].id != g.log[j].id)
      && (forall id: nat | id < |g.arrivals| ::
        id in Queue(g, g.arrivals[id]) <==> !exists i | 0 <= i < |g.log| :: g.log[i].id == id)
  {
    PlayKeeps(moves, Highest(moves));
    var g := Play(moves);
    forall id: nat | id < |g.arrivals|
      ensures id in Queue(g, g.arrivals[id]) <==> !exists i | 0 <= i < |g.log| :: g.log[i].id == id
    {
      assert WaitsOrTold(g, id) && KeyKept(g, g.arrivals[id], Highest(moves));
    }
  }

  /** Whatever settings the requests bring, those that wait for a key wait in order of arrival. */
  lemma {:induction false} WaitInOrder(moves: seq<Move>, key: Key)
    ensures Increasing(Queue(Play(moves), key))
  {
    PlayKeeps(moves, Highest(moves));
    assert KeyKept(Play(moves), key, Highest(moves));
  }
}
