/**
 What each request is told and when, over every run of the gate: said of the
 log, the queues and the slots held, whatever settings the requests bring.
 */
module RequestGateAnswers {
  import opened RequestGate
  import opened RequestGateConservation

  /** After a run, as many slots are taken as held, and only requests that arrived gave one back. */
  lemma {:induction false} RunCounts(moves: seq<Move>, key: Key)
    ensures Count(Play(moves), key) == |Held(Play(moves), key)|
    ensures NewIsFree(Play(moves))
    ensures Ready(Play(moves), key, Highest(moves))
  {
    PlayKeeps(moves, Highest(moves));
    assert KeyKept(Play(moves), key, Highest(moves));
  }

  predicate NewIsFree(g: Gate) { |g.arrivals| !in g.released }

  lemma {:induction false} PlayNext(moves: seq<Move>, move: Move)
    ensures Play(moves + [move]) == Perform(Play(moves), move)
  {
    assert (moves + [move])[..|moves|] == moves;
  }

  /** The queue of the key, and what was told and who arrived in between. */
  predicate Becomes(g: Gate, g': Gate, key: Key, arrivals: seq<Key>, queue: seq<nat>, told: seq<Settlement>) {
    g'.arrivals == g.arrivals + arrivals && Queue(g', key) == queue && g'.log == g.log + told
  }

  // ----- arriving

  lemma GrantSays(g: Gate, key: Key)
    requires NewIsFree(g)
    ensures var g' := Grant(g.(arrivals := g.arrivals + [key]), |g.arrivals|, key);
      && Becomes(g, g', key, [key], Queue(g, key), [Settlement(|g.arrivals|, key, Admitted)])
      && Held(g', key) == Held(g, key) + {|g.arrivals|}
  {
    HeldAfterGrant(g.(arrivals := g.arrivals + [key]), |g.arrivals|, key);
  }

  lemma RefusalSays(g: Gate, key: Key, result: Result)
    requires result != Admitted
    ensures var g' := Settle(g.(arrivals := g.arrivals + [key]), |g.arrivals|, key, result);
      && Becomes(g, g', key, [key], Queue(g, key), [Settlement(|g.arrivals|, key, result)])
      && Held(g', key) == Held(g, key)
  {
  }

  lemma QueueSays(g: Gate, key: Key)
    ensures var g' := SetQueue(g.(arrivals := g.arrivals + [key]), key, Queue(g, key) + [|g.arrivals|]);
      && Becomes(g, g', key, [key], Queue(g, key) + [|g.arrivals|], [])
      && Held(g', key) == Held(g, key)
  {
  }

  /** The newcomer gets a slot, is refused, or waits at the end. */
  predicate Answered(g: Gate, g': Gate, key: Key, settings: Settings, held: nat) {
    var id, queue := |g.arrivals|, Queue(g, key);
    if held < settings.limit then
      Becomes(g, g', key, [key], queue, [Settlement(id, key, Admitted)]) && Held(g', key) == Held(g, key) + {id}
    else
      && Held(g', key) == Held(g, key)
      && if settings.queueLimit == 0 then Becomes(g, g', key, [key], queue, [Settlement(id, key, LimitExceeded)])
         else if |queue| >= settings.queueLimit then
           Becomes(g, g', key, [key], queue, [Settlement(id, key, QueueFull)])
         else Becomes(g, g', key, [key], queue + [id], [])
  }

  lemma ArriveAnswers(g: Gate, key: Key, settings: Settings)
    requires NewIsFree(g)
    ensures Answered(g, Arrive(g, key, settings), key, settings, Count(g, key))
  {
    if Count(g, key) < settings.limit {
      GrantSays(g, key);
    } else if settings.queueLimit == 0 {
      RefusalSays(g, key, LimitExceeded);
    } else if |Queue(g, key)| >= settings.queueLimit {
      RefusalSays(g, key, QueueFull);
    } else {
      QueueSays(g, key);
    }
  }

  /**
   A newcomer gets a slot while fewer are held than it allows.  Otherwise it is
   told that the limit is exceeded when it allows no queue, and that the queue is
   full when the queue holds as many as it allows; it waits at the end in every
   other case, and is told nothing yet.
   */
  lemma {:induction false} NewcomerIsTold(moves: seq<Move>, key: Key, settings: Settings)
    ensures var g := Play(moves);
      Answered(g, Play(moves + [Entering(key, settings)]), key, settings, |Held(g, key)|)
  {
    PlayNext(moves, Entering(key, settings));
    RunCounts(moves, key);
    ArriveAnswers(Play(moves), key, settings);
  }

  // ----- leaving the queue

  /** The place of a request in a queue. */
  function Place(queue: seq<nat>, id: nat): (k: nat)
    requires id in queue
    ensures k < |queue| && queue[k] == id && forall j | 0 <= j < k :: queue[j] != id
  {
    if queue[0] == id then 0 else 1 + Place(queue[1..], id)
  }

  lemma {:induction false} WithoutAtPlace(queue: seq<nat>, id: nat)
    requires id in queue
    ensures Without(queue, id) == queue[..Place(queue, id)] + queue[Place(queue, id) + 1..]
  {
    if queue[0] != id {
      WithoutAtPlace(queue[1..], id);
    }
  }

  /**
   A waiting request that closes is told that it was aborted, and one whose time
   runs out that it timed out; those behind it move up.  One that is not waiting
   is told nothing and changes nothing.
   */
  lemma {:induction false} LeaverIsTold(moves: seq<Move>, id: nat, timedOut: bool)
    ensures var g, g' := Play(moves), Play(moves + [Quitting(id, timedOut)]);
      if id < |g.arrivals| && id in Queue(g, g.arrivals[id]) then
        var key := g.arrivals[id];
        var queue, k := Queue(g, key), Place(Queue(g, key), id);
        && Becomes(g, g', key, [], queue[..k] + queue[k + 1..],
                   [Settlement(id, key, if timedOut then TimedOut else Aborted)])
        && Held(g', key) == Held(g, key) && g'.cancelled == g.cancelled + {id}
      else g' == g
  {
    PlayNext(moves, Quitting(id, timedOut));
    var g := Play(moves);
    if id < |g.arrivals| && id in Queue(g, g.arrivals[id]) {
      WithoutAtPlace(Queue(g, g.arrivals[id]), id);
    }
  }

  // ----- giving a slot back

  predicate PassesTo(g: Gate, g': Gate, id: nat, key: Key, settings: Settings) {
    var queue, left := Queue(g, key), Held(g, key) - {id};
    if queue != [] && |left| < settings.limit then
      && Becomes(g, g', key, [], queue[1..], [Settlement(queue[0], key, Admitted)])
      && Held(g', key) == left + {queue[0]}
    else Becomes(g, g', key, [], queue, []) && Held(g', key) == left
  }

  /**
   A slot that is given back goes to the first waiter if the settings of the
   request that had it still allow one more, and stays free otherwise; a slot is
   given back once.
   */
  lemma {:induction false} SlotIsPassedOn(moves: seq<Move>, id: nat, key: Key, settings: Settings)
    ensures var g, g' := Play(moves), Play(moves + [Finishing(id, key, settings)]);
      if id in Held(g, key) then PassesTo(g, g', id, key, settings) else g' == g
  {
    PlayNext(moves, Finishing(id, key, settings));
    RunCounts(moves, key);
    if id in Held(Play(moves), key) {
      GivesBack(Play(moves), id, key, settings, Highest(moves));
    }
  }

  lemma FreedSays(g: Gate, id: nat, key: Key, top: Settings)
    requires Ready(g, key, top) && id in Held(g, key)
    ensures var freed := LowerBucket(g.(released := g.released + {id}), key);
      && Becomes(g, freed, key, [], Queue(g, key), [])
      && Held(freed, key) == Held(g, key) - {id}
      && Count(freed, key) == |Held(g, key) - {id}|
  {
    FreedKept(g, id, key, top);
    var freed := LowerBucket(g.(released := g.released + {id}), key);
    assert Held(freed, key) == Held(g, key) - {id};
  }

  lemma FirstGrantedSays(g: Gate, key: Key)
    requires key in g.queues && g.queues[key] != [] && g.queues[key][0] !in g.released
    ensures var g' := FirstGranted(g, key);
      && Becomes(g, g', key, [], g.queues[key][1..], [Settlement(g.queues[key][0], key, Admitted)])
      && Held(g', key) == Held(g, key) + {g.queues[key][0]}
  {
    HeldAfterGrant(g, g.queues[key][0], key);
    assert Held(FirstGranted(g, key), key) == Held(Grant(g, g.queues[key][0], key), key);
  }

  lemma GivesBack(g: Gate, id: nat, key: Key, settings: Settings, top: Settings)
    requires Ready(g, key, top) && id in Held(g, key)
    ensures PassesTo(g, Release(g, id, key, settings), id, key, settings)
  {
    var freed := LowerBucket(g.(released := g.released + {id}), key);
    FreedSays(g, id, key, top);
    FreedKept(g, id, key, top);
    if key in freed.queues {
      ResolvesFirstOrNone(freed, key, settings.limit, top);
      FirstWaits(freed, key, top);
      FirstGrantedSays(freed, key);
    }
  }

  /** The first waiter still waits, and has nothing to give back. */
  lemma FirstWaits(g: Gate, key: Key, top: Settings)
    requires Ready(g, key, top) && key in g.queues
    ensures g.queues[key] != [] && g.queues[key][0] !in g.released
  {
    assert g.queues[key][0] in g.queues[key];
  }

  /** A waiter that cancelled, should it still be in the queue, is passed over and leaves the queue with no slot. */
  lemma {:induction false} CancelledIsPassedOver(g: Gate, key: Key, limit: nat, queue: seq<nat>, k: nat)
    requires k <= |queue| && forall j | 0 <= j < k :: queue[j] in g.cancelled
    requires k < |queue| ==> queue[k] !in g.cancelled
    ensures ResolveNext(g, key, limit, queue) ==
            if k == |queue| then SetQueue(g, key, [])
            else if Count(g, key) < limit then SetQueue(Grant(g, queue[k], key), key, queue[k + 1..])
            else SetQueue(g, key, queue[k..])
  {
    if k > 0 {
      CancelledIsPassedOver(g, key, limit, queue[1..], k - 1);
      assert queue[1..][k - 1..] == queue[k..];
      assert k < |queue| ==> queue[1..][k..] == queue[k + 1..];
    }
  }

  // ----- what the log says of slots

  predicate Matches(g: Gate, key: Key, id: nat) {
    id in Granted(g, key) <==> Settlement(id, key, Admitted) in g.log
  }

  lemma {:induction false} ResolveMatches(g: Gate, of: Key, limit: nat, queue: seq<nat>, key: Key, id: nat)
    requires Matches(g, key, id)
    ensures Matches(ResolveNext(g, of, limit, queue), key, id)
  {
    if queue != [] {
      ResolveMatches(g, of, limit, queue[1..], key, id);
    }
  }

  lemma {:induction false} PerformMatches(g: Gate, move: Move, key: Key, id: nat)
    requires Matches(g, key, id)
    ensures Matches(Perform(g, move), key, id)
  {
    if move.Finishing? && move.id in Held(g, move.key) {
      var freed := LowerBucket(g.(released := g.released + {move.id}), move.key);
      if move.key in freed.queues {
        ResolveMatches(freed, move.key, move.settings.limit, freed.queues[move.key], key, id);
      }
    }
  }

  /** Those that were granted a slot of a key are those that were told so. */
  lemma {:induction false} GrantsAreLogged(moves: seq<Move>, key: Key, id: nat)
    ensures id in Granted(Play(moves), key) <==> Settlement(id, key, Admitted) in Play(moves).log
  {
    if moves != [] {
      GrantsAreLogged(moves[..|moves| - 1], key, id);
      PerformMatches(Play(moves[..|moves| - 1]), moves[|moves| - 1], key, id);
    }
  }

  // ----- runs in which each key keeps its settings

  lemma {:induction false} ExecNext(policy: Policy, actions: seq<Action>, action: Action)
    ensures Exec(policy, actions + [action]) == Apply(policy, Exec(policy, actions), action)
  {
    assert (actions + [action])[..|actions|] == actions;
  }

  /** An action as a move that brings the settings of its key. */
  function MoveOf(policy: Policy, action: Action): Move {
    match action
    case Arriving(key) => Entering(key, policy(key))
    case Closing(id) => Quitting(id, false)
    case Expiring(id) => Quitting(id, true)
    case Answering(id, key) => Finishing(id, key, policy(key))
  }

  function Moves(policy: Policy, actions: seq<Action>): (moves: seq<Move>)
    ensures |moves| == |actions|
  {
    seq(|actions|, i requires 0 <= i < |actions| => MoveOf(policy, actions[i]))
  }

  lemma ApplyIsPerform(policy: Policy, g: Gate, action: Action)
    ensures Apply(policy, g, action) == Perform(g, MoveOf(policy, action))
  {
  }

  lemma MovesBefore(policy: Policy, actions: seq<Action>)
    requires actions != []
    ensures var n := |actions| - 1;
      && Moves(policy, actions)[..n] == Moves(policy, actions[..n])
      && Moves(policy, actions)[n] == MoveOf(policy, actions[n])
  {
  }

  /** Runs in which each key keeps its settings are runs like all others. */
  lemma {:induction false} ExecIsPlay(policy: Policy, actions: seq<Action>)
    ensures Exec(policy, actions) == Play(Moves(policy, actions))
  {
    if actions != [] {
      var n := |actions| - 1;
      ExecIsPlay(policy, actions[..n]);
      MovesBefore(policy, actions);
      ApplyIsPerform(policy, Exec(policy, actions[..n]), actions[n]);
    }
  }

  predicate IsLast(queue: seq<nat>, id: nat) { queue != [] && queue[|queue| - 1] == id }

  predicate Told(g: Gate, g': Gate, key: Key, settings: Settings) {
    var id, free := |g.arrivals|, |Held(g, key)| < settings.limit;
    var queued, room := |Queue(g, key)|, settings.queueLimit;
    && (Settlement(id, key, Admitted) in g'.log <==> free)
    && (IsLast(Queue(g', key), id) <==> !free && queued < room)
    && (Settlement(id, key, LimitExceeded) in g'.log <==> !free && room == 0)
    && (Settlement(id, key, QueueFull) in g'.log <==> !free && queued == room > 0)
  }

  /**
   While each key keeps its settings, a newcomer gets a slot exactly when one is
   free; it waits at the end of the queue exactly when all are taken and the
   queue has room; and it is refused, as too many requests or as too long a
   queue, exactly when all are taken and the key has no queue or a full one.
   */
  lemma {:induction false} NewcomerWaitsIff(policy: Policy, actions: seq<Action>, key: Key)
    ensures Told(Exec(policy, actions), Exec(policy, actions + [Arriving(key)]), key, policy(key))
  {
    ExecNext(policy, actions, Arriving(key));
    RunIsOrderly(policy, actions, key);
    var g := Exec(policy, actions);
    ArriveAnswers(g, key, policy(key));
    LogTells(g, Exec(policy, actions + [Arriving(key)]), key, policy(key));
  }

  lemma {:induction false} RunIsOrderly(policy: Policy, actions: seq<Action>, key: Key)
    ensures var g := Exec(policy, actions);
      && NewIsFree(g) && Unknown(g, key)
      && Count(g, key) == |Held(g, key)| && |Queue(g, key)| <= policy(key).queueLimit
  {
    ExecKeeps(policy, actions);
    assert KeyInv(Exec(policy, actions), key, policy(key));
  }

  /** The next request was told nothing and does not wait. */
  predicate Unknown(g: Gate, key: Key) {
    && (forall i | 0 <= i < |g.log| :: g.log[i].id < |g.arrivals|)
    && (forall id | id in Queue(g, key) :: id < |g.arrivals|)
  }

  lemma LogTells(g: Gate, g': Gate, key: Key, settings: Settings)
    requires Unknown(g, key) && Answered(g, g', key, settings, |Held(g, key)|)
    requires |Queue(g, key)| <= settings.queueLimit
    ensures Told(g, g', key, settings)
  {
    var id := |g.arrivals|;
    forall result ensures Settlement(id, key, result) !in g.log {}
    if g'.log != g.log {
      assert g'.log[|g.log|] in g'.log;
    }
    if Queue(g, key) != [] {
      assert Queue(g, key)[|Queue(g, key)| - 1] in Queue(g, key);
    }
  }
}
