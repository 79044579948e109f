/** The per-key concurrency gate of the service gateway, with its first-in first-out wait queues. */
module RequestGate {
  datatype Key = Key(name: string)

  datatype Settings = Settings(limit: nat, queueLimit: nat)

  /** What a waiting request is told, once. */
  datatype Result = Admitted | Aborted | TimedOut | LimitExceeded | QueueFull

  datatype Settlement = Settlement(id: nat, key: Key, result: Result)

  /**
   Requests are numbered as they arrive. The gate itself keeps `buckets` and
   `queues`, and each waiter its `cancelled` flag; the rest is history: the key
   of each request, the requests that were told something, those that were
   granted a slot of a key, those that gave it back, and all that was told, in order.
   */
  datatype Gate = Gate(buckets: map<Key, nat>, queues: map<Key, seq<nat>>, cancelled: set<nat>,
                       arrivals: seq<Key>, told: set<nat>, granted: map<Key, set<nat>>, released: set<nat>,
                       log: seq<Settlement>)

  const OPENED := Gate(map[], map[], {}, [], {}, map[], {}, [])

  function Count(g: Gate, key: Key): nat {
    if key in g.buckets then g.buckets[key] else 0
  }

  function Queue(g: Gate, key: Key): seq<nat> {
    if key in g.queues then g.queues[key] else []
  }

  function Granted(g: Gate, key: Key): set<nat> {
    if key in g.granted then g.granted[key] else {}
  }

  /** The slots of a key that are held: grants that were not given back. */
  function Held(g: Gate, key: Key): set<nat> { Granted(g, key) - g.released }

  /** An empty queue is not kept. */
  function SetQueue(g: Gate, key: Key, queue: seq<nat>): Gate {
    g.(queues := if queue == [] then g.queues - {key} else g.queues[key := queue])
  }

  function Settle(g: Gate, id: nat, key: Key, result: Result): Gate {
    g.(told := g.told + {id}, log := g.log + [Settlement(id, key, result)],
       granted := if result == Admitted then g.granted[key := Granted(g, key) + {id}] else g.granted)
  }

  /** Takes a slot for a request. */
  function Grant(g: Gate, id: nat, key: Key): Gate {
    Settle(g.(buckets := g.buckets[key := Count(g, key) + 1]), id, key, Admitted)
  }

  function Arrive(g: Gate, key: Key, settings: Settings): Gate {
    var id, next := |g.arrivals|, g.(arrivals := g.arrivals + [key]);
    if Count(g, key) < settings.limit then Grant(next, id, key)
    else if settings.queueLimit == 0 then Settle(next, id, key, LimitExceeded)
    else if |Queue(g, key)| >= settings.queueLimit then Settle(next, id, key, QueueFull)
    else SetQueue(next, key, Queue(g, key) + [id])
  }

  function Without(queue: seq<nat>, id: nat): seq<nat> {
    if queue == [] then []
    else if queue[0] == id then queue[1..]
    else [queue[0]] + Without(queue[1..], id)
  }

  /** A waiting request closes or times out; one that is not waiting no longer listens. */
  function Leave(g: Gate, id: nat, result: Result): Gate {
    if id >= |g.arrivals| || id !in Queue(g, g.arrivals[id]) then g
    else
      var key := g.arrivals[id];
      Settle(SetQueue(g.(cancelled := g.cancelled + {id}), key, Without(Queue(g, key), id)), id, key, result)
  }

  /** The first waiter that did not cancel gets a slot, if there is one. */
  function ResolveNext(g: Gate, key: Key, limit: nat, queue: seq<nat>): Gate {
    if queue == [] then SetQueue(g, key, [])
    else if queue[0] in g.cancelled then ResolveNext(g, key, limit, queue[1..])
    else if Count(g, key) < limit then SetQueue(Grant(g, queue[0], key), key, queue[1..])
    else SetQueue(g, key, queue)
  }

  function LowerBucket(g: Gate, key: Key): Gate {
    g.(buckets := if Count(g, key) <= 1 then g.buckets - {key} else g.buckets[key := Count(g, key) - 1])
  }

  /** A request that was granted a slot has been answered; it gives the slot back once. */
  function Release(g: Gate, id: nat, key: Key, settings: Settings): Gate {
    if id !in Held(g, key) then g
    else
      var freed := LowerBucket(g.(released := g.released + {id}), key);
      if key in freed.queues then ResolveNext(freed, key, settings.limit, freed.queues[key]) else freed
  }

  datatype Action = Arriving(key: Key) | Closing(id: nat) | Expiring(id: nat) | Answering(id: nat, key: Key)

  /** Each key keeps its settings during a run. */
  type Policy = p: Key -> Settings | forall key :: p(key).limit >= 1 witness (key => Settings(1, 0))

  function Apply(policy: Policy, g: Gate, action: Action): Gate {
    match action
    case Arriving(key) => Arrive(g, key, policy(key))
    case Closing(id) => Leave(g, id, Aborted)
    case Expiring(id) => Leave(g, id, TimedOut)
    case Answering(id, key) => Release(g, id, key, policy(key))
  }

  function Exec(policy: Policy, actions: seq<Action>): Gate {
    if actions == [] then OPENED else Apply(policy, Exec(policy, actions[..|actions| - 1]), actions[|actions| - 1])
  }

  // ----- the invariant

  predicate Increasing(ids: seq<nat>) {
    forall i, j | 0 <= i < j < |ids| :: ids[i] < ids[j]
  }

  /** Slots: as many taken as held, never more than the limit, and all of them while anyone waits. */
  predicate SlotsInv(g: Gate, key: Key, settings: Settings) {
    && Count(g, key) == |Held(g, key)| <= settings.limit
    && (key in g.buckets ==> g.buckets[key] > 0)
    && (key in g.queues ==> g.queues[key] != [] && Count(g, key) == settings.limit)
    && |Queue(g, key)| <= settings.queueLimit
  }

  /** A queue holds requests of its key that are still to be told something, in order of arrival, behind every grant. */
  predicate InLine(queue: seq<nat>, key: Key, arrivals: seq<Key>, told: set<nat>, granted: set<nat>) {
    && Increasing(queue)
    && (forall id | id in queue :: id < |arrivals| && arrivals[id] == key && id !in told)
    && (queue != [] ==> forall id | id in granted :: id < queue[0])
  }

  predicate KeyInv(g: Gate, key: Key, settings: Settings) {
    && SlotsInv(g, key, settings)
    && InLine(Queue(g, key), key, g.arrivals, g.told, Granted(g, key))
    && forall id | id in Granted(g, key) :: id in g.told && id < |g.arrivals| && g.arrivals[id] == key
  }

  predicate WaitsOrTold(g: Gate, id: nat) {
    id in g.told || (id < |g.arrivals| && id in Queue(g, g.arrivals[id]))
  }

  /** No request is lost: it waits or has been told something. */
  predicate NoneLost(g: Gate) {
    forall id: nat | id < |g.arrivals| :: WaitsOrTold(g, id)
  }

  predicate SharedInv(g: Gate) {
    NoneLost(g) && g.released <= g.told && g.cancelled <= g.told && forall id | id in g.told :: id < |g.arrivals|
  }

  /**
   Every request is told something at most once, about its own key, and slots
   of a key are granted in order of arrival.
   */
  predicate LogInv(g: Gate) {
    && (forall i | 0 <= i < |g.log| ::
      g.log[i].id in g.told && g.log[i].id < |g.arrivals| && g.arrivals[g.log[i].id] == g.log[i].key)
    && (forall i | 0 <= i < |g.log| && g.log[i].result == Admitted :: g.log[i].id in Granted(g, g.log[i].key))
    && (forall i, j | 0 <= i < j < |g.log| :: g.log[i].id != g.log[j].id)
    && (forall i, j | 0 <= i < j < |g.log| && g.log[i].key == g.log[j].key &&
      g.log[i].result == g.log[j].result == Admitted ::
      g.log[i].id < g.log[j].id)
  }

  /** What has been told is in the log. */
  predicate Logged(g: Gate) {
    forall id | id in g.told :: exists i | 0 <= i < |g.log| :: g.log[i].id == id
  }

  ghost predicate Inv(policy: Policy, g: Gate) {
    LogInv(g) && Logged(g) && SharedInv(g) && forall key :: KeyInv(g, key, policy(key))
  }

  /** The step tells a request something for the first time, a grant not before an earlier request of the same key. */
  predicate Tells(g: Gate, g': Gate, s: Settlement) {
    && s.id !in g.told && s.id < |g'.arrivals| && g'.arrivals[s.id] == s.key
    && g.arrivals <= g'.arrivals && g'.log == g.log + [s] && g'.told == g.told + {s.id}
    && g'.granted == (if s.result == Admitted then g.granted[s.key := Granted(g, s.key) + {s.id}] else g.granted)
    && (s.result == Admitted ==> forall id | id in Granted(g, s.key) :: id < s.id)
  }

  lemma LogGrows(g: Gate, g': Gate, s: Settlement)
    requires LogInv(g) && Tells(g, g', s)
    ensures LogInv(g')
  {
    var n := |g.log|;
    forall i | 0 <= i < |g'.log|
      ensures g'.log[i].id in g'.told && g'.log[i].id < |g'.arrivals| && g'.arrivals[g'.log[i].id] == g'.log[i].key
      ensures g'.log[i].result == Admitted ==> g'.log[i].id in Granted(g', g'.log[i].key)
    {
      assert i < n ==> g'.log[i] == g.log[i];
    }
    forall i, j | 0 <= i < j < |g'.log|
      ensures g'.log[i].id != g'.log[j].id
      ensures g'.log[i].key == g'.log[j].key && g'.log[i].result == g'.log[j].result == Admitted ==>
        g'.log[i].id < g'.log[j].id
    {
      assert g'.log[i] == g.log[i] && (j < n ==> g'.log[j] == g.log[j]);
    }
  }

  lemma LoggedGrows(g: Gate, g': Gate, s: Settlement)
    requires Logged(g) && Tells(g, g', s)
    ensures Logged(g')
  {
    forall id | id in g'.told ensures exists i | 0 <= i < |g'.log| :: g'.log[i].id == id {
      if id == s.id {
        assert g'.log[|g.log|].id == id;
      } else {
        var i :| 0 <= i < |g.log| && g.log[i].id == id;
        assert g'.log[i].id == id;
      }
    }
  }

  // ----- keys that a step does not touch

  /** The step is about `key`: it leaves the buckets, queues and slots of other keys alone. */
  ghost predicate Touches(g: Gate, g': Gate, key: Key) {
    && g.arrivals <= g'.arrivals
    && (forall k | k != key ::
      && (k in g'.buckets <==> k in g.buckets) && Count(g', k) == Count(g, k)
      && (k in g'.queues <==> k in g.queues) && Queue(g', k) == Queue(g, k)
      && Granted(g', k) == Granted(g, k))
    && (forall id: nat | id < |g.arrivals| && g.arrivals[id] != key ::
      (id in g'.told <==> id in g.told) && (id in g'.released <==> id in g.released))
  }

  lemma OtherSlots(g: Gate, g': Gate, key: Key, other: Key, settings: Settings)
    requires Touches(g, g', key) && other != key && KeyInv(g, other, settings)
    ensures SlotsInv(g', other, settings)
  {
    assert Held(g', other) == Held(g, other);
  }

  lemma OtherLine(g: Gate, g': Gate, key: Key, other: Key, settings: Settings)
    requires Touches(g, g', key) && other != key && KeyInv(g, other, settings)
    ensures InLine(Queue(g', other), other, g'.arrivals, g'.told, Granted(g', other))
    ensures forall id | id in Granted(g', other) :: id in g'.told && id < |g'.arrivals| && g'.arrivals[id] == other
  {
    assert Queue(g', other) == Queue(g, other) && Granted(g', other) == Granted(g, other);
  }

  lemma OthersKeep(g: Gate, g': Gate, key: Key, other: Key, settings: Settings)
    requires Touches(g, g', key) && other != key && KeyInv(g, other, settings)
    ensures KeyInv(g', other, settings)
  {
    OtherSlots(g, g', key, other, settings);
    OtherLine(g, g', key, other, settings);
  }

  /** A step that keeps the invariant of its own key keeps the whole invariant. */
  lemma {:induction false} KeyByKey(policy: Policy, g: Gate, g': Gate, key: Key)
    requires Inv(policy, g) && KeepsKey(g, g', key, policy(key)) && LogInv(g') && Logged(g')
    ensures Inv(policy, g')
  {
    forall other ensures KeyInv(g', other, policy(other)) {
      if other != key {
        OthersKeep(g, g', key, other, policy(other));
      }
    }
  }

  /** What every step about a key establishes. */
  ghost predicate KeepsKey(g: Gate, g': Gate, key: Key, settings: Settings) {
    Touches(g, g', key) && SharedInv(g') && KeyInv(g', key, settings)
  }

  predicate Before(g: Gate, key: Key, settings: Settings) {
    SharedInv(g) && KeyInv(g, key, settings)
  }

  /** Nobody is lost when those who leave the queue have been told, and so has a new request unless it waits. */
  lemma StillNoneLost(g: Gate, g': Gate, key: Key)
    requires NoneLost(g) && g.arrivals <= g'.arrivals && g.told <= g'.told
    requires forall k | k != key :: Queue(g', k) == Queue(g, k)
    requires forall id | id in Queue(g, key) :: id in Queue(g', key) || id in g'.told
    requires forall id: nat | |g.arrivals| <= id < |g'.arrivals| ::
      g'.arrivals[id] == key && (id in Queue(g', key) || id in g'.told)
    ensures NoneLost(g')
  {
    forall id: nat | id < |g'.arrivals| ensures WaitsOrTold(g', id) {
      if id < |g.arrivals| {
        assert WaitsOrTold(g, id);
      }
    }
  }

  // ----- queues

  lemma LastInLine(queue: seq<nat>, key: Key, arrivals: seq<Key>, told: set<nat>, granted: set<nat>)
    requires InLine(queue, key, arrivals, told, granted)
    requires (forall id | id in told :: id < |arrivals|) && granted <= told
    ensures InLine(queue + [|arrivals|], key, arrivals + [key], told, granted)
  {
    forall i | 0 <= i < |queue| ensures queue[i] < |arrivals| {
      assert queue[i] in queue;
    }
  }

  lemma {:induction false} WithoutOne(queue: seq<nat>, id: nat)
    requires Increasing(queue) && id in queue
    ensures var rest := Without(queue, id);
      Increasing(rest) && |rest| == |queue| - 1 && forall x :: x in rest <==> x in queue && x != id
  {
    if queue[0] != id {
      var tail := queue[1..];
      WithoutOne(tail, id);
      forall j | 0 <= j < |Without(tail, id)| ensures queue[0] < Without(tail, id)[j] {
        assert Without(tail, id)[j] in tail;
      }
    }
  }

  lemma LeftLine(queue: seq<nat>, id: nat, key: Key, arrivals: seq<Key>, told: set<nat>, granted: set<nat>)
    requires InLine(queue, key, arrivals, told, granted) && id in queue
    ensures InLine(Without(queue, id), key, arrivals, told + {id}, granted)
    ensures forall x | x in queue :: x in Without(queue, id) || x == id
  {
    WithoutOne(queue, id);
    var rest := Without(queue, id);
    if rest != [] {
      assert rest[0] in queue;
    }
  }

  lemma FirstOut(queue: seq<nat>, key: Key, arrivals: seq<Key>, told: set<nat>, granted: set<nat>)
    requires InLine(queue, key, arrivals, told, granted) && queue != []
    ensures InLine(queue[1..], key, arrivals, told + {queue[0]}, granted + {queue[0]})
    ensures forall x | x in queue :: x in queue[1..] || x == queue[0]
    ensures queue[0] < |arrivals| && arrivals[queue[0]] == key && queue[0] !in told
    ensures forall id | id in granted :: id < queue[0]
  {
    assert queue[0] in queue;
    forall x | x in queue && x != queue[0] ensures x in queue[1..] {
      var i :| 0 <= i < |queue| && queue[i] == x;
      assert queue[1..][i - 1] == x;
    }
    forall x | x in queue[1..] ensures queue[0] < x {
      var i :| 0 <= i < |queue| - 1 && queue[1..][i] == x;
      assert queue[0] < queue[i + 1];
    }
  }

  // ----- steps

  lemma GrantedOnArrival(g: Gate, key: Key, settings: Settings)
    requires Before(g, key, settings) && Count(g, key) < settings.limit
    ensures KeepsKey(g, Grant(g.(arrivals := g.arrivals + [key]), |g.arrivals|, key), key, settings)
  {
    GrantTouches(g, key);
    GrantSlots(g.(arrivals := g.arrivals + [key]), |g.arrivals|, key, settings);
    GrantLine(g, key, settings);
    GrantShared(g, key);
  }

  lemma GrantLine(g: Gate, key: Key, settings: Settings)
    requires KeyInv(g, key, settings) && Count(g, key) < settings.limit
    ensures var g' := Grant(g.(arrivals := g.arrivals + [key]), |g.arrivals|, key);
      && InLine(Queue(g', key), key, g'.arrivals, g'.told, Granted(g', key))
      && forall id | id in Granted(g', key) :: id in g'.told && id < |g'.arrivals| && g'.arrivals[id] == key
  {
  }

  lemma GrantShared(g: Gate, key: Key)
    requires SharedInv(g)
    ensures SharedInv(Grant(g.(arrivals := g.arrivals + [key]), |g.arrivals|, key))
  {
    StillNoneLost(g, Grant(g.(arrivals := g.arrivals + [key]), |g.arrivals|, key), key);
  }

  lemma GrantSlots(g: Gate, id: nat, key: Key, settings: Settings)
    requires SlotsInv(g, key, settings) && Count(g, key) < settings.limit
    requires id !in Granted(g, key) && id !in g.released
    ensures SlotsInv(Grant(g, id, key), key, settings)
  {
    HeldAfterGrant(g, id, key);
    OneMore(Held(g, key), id);
  }

  lemma HeldAfterGrant(g: Gate, id: nat, key: Key)
    requires id !in g.released
    ensures Held(Grant(g, id, key), key) == Held(g, key) + {id}
  {
  }

  lemma OneMore(ids: set<nat>, id: nat)
    ensures |ids + {id}| == |ids| + if id in ids then 0 else 1
  {
    if id in ids {
      assert ids + {id} == ids;
    }
  }

  lemma GrantTouches(g: Gate, key: Key)
    ensures Touches(g, Grant(g.(arrivals := g.arrivals + [key]), |g.arrivals|, key), key)
  {
  }

  lemma SettleTouches(g: Gate, key: Key, result: Result)
    ensures Touches(g, Settle(g.(arrivals := g.arrivals + [key]), |g.arrivals|, key, result), key)
  {
  }

  lemma RefusedOnArrival(g: Gate, key: Key, settings: Settings, result: Result)
    requires Before(g, key, settings) && result != Admitted
    ensures KeepsKey(g, Settle(g.(arrivals := g.arrivals + [key]), |g.arrivals|, key, result), key, settings)
  {
    SettleTouches(g, key, result);
    StillNoneLost(g, Settle(g.(arrivals := g.arrivals + [key]), |g.arrivals|, key, result), key);
  }

  lemma QueuedOnArrival(g: Gate, key: Key, settings: Settings)
    requires Before(g, key, settings)
    requires Count(g, key) >= settings.limit && |Queue(g, key)| < settings.queueLimit
    ensures KeepsKey(g, SetQueue(g.(arrivals := g.arrivals + [key]), key, Queue(g, key) + [|g.arrivals|]), key,
      settings)
  {
    var g' := SetQueue(g.(arrivals := g.arrivals + [key]), key, Queue(g, key) + [|g.arrivals|]);
    QueuedTouches(g, key);
    LastInLine(Queue(g, key), key, g.arrivals, g.told, Granted(g, key));
    StillNoneLost(g, g', key);
  }

  lemma QueuedTouches(g: Gate, key: Key)
    ensures Touches(g, SetQueue(g.(arrivals := g.arrivals + [key]), key, Queue(g, key) + [|g.arrivals|]), key)
  {
  }

  lemma LeaveTouches(g: Gate, id: nat, result: Result)
    requires id < |g.arrivals| && id in Queue(g, g.arrivals[id]) && result != Admitted
    ensures Touches(g, Leave(g, id, result), g.arrivals[id])
  {
  }

  lemma LeaveKeeps(g: Gate, id: nat, result: Result, settings: Settings)
    requires id < |g.arrivals| && id in Queue(g, g.arrivals[id]) && result != Admitted
    requires Before(g, g.arrivals[id], settings)
    ensures KeepsKey(g, Leave(g, id, result), g.arrivals[id], settings)
  {
    var key := g.arrivals[id];
    LeaveTouches(g, id, result);
    WithoutOne(Queue(g, key), id);
    LeftLine(Queue(g, key), id, key, g.arrivals, g.told, Granted(g, key));
    StillNoneLost(g, Leave(g, id, result), key);
  }

  /** Giving back a slot that no one waits for. */
  lemma FreeKeeps(g: Gate, id: nat, key: Key, settings: Settings)
    requires Before(g, key, settings) && id in Held(g, key) && key !in g.queues
    ensures KeepsKey(g, LowerBucket(g.(released := g.released + {id}), key), key, settings)
  {
    var g' := LowerBucket(g.(released := g.released + {id}), key);
    FreeTouches(g, id, key);
    FreeSlots(g, id, key, settings);
    StillNoneLost(g, g', key);
  }

  lemma FreeTouches(g: Gate, id: nat, key: Key)
    requires id < |g.arrivals| && g.arrivals[id] == key
    ensures Touches(g, LowerBucket(g.(released := g.released + {id}), key), key)
  {
  }

  lemma FreeSlots(g: Gate, id: nat, key: Key, settings: Settings)
    requires SlotsInv(g, key, settings) && id in Held(g, key) && key !in g.queues
    ensures SlotsInv(LowerBucket(g.(released := g.released + {id}), key), key, settings)
  {
    var g' := LowerBucket(g.(released := g.released + {id}), key);
    assert Held(g', key) == Held(g, key) - {id};
  }

  /** With a free slot the next waiter is the first one, for no one in the queue has cancelled. */
  lemma ResolvesFirst(g: Gate, key: Key, limit: nat)
    requires key in g.queues && g.queues[key] != [] && g.queues[key][0] !in g.cancelled && Count(g, key) < limit
    ensures ResolveNext(g, key, limit, g.queues[key])
      == SetQueue(Grant(g, g.queues[key][0], key), key, g.queues[key][1..])
  {
  }

  /** The gate after the first waiter got the slot. */
  function PassedOn(g: Gate, id: nat, key: Key): Gate
    requires key in g.queues && g.queues[key] != []
  {
    SetQueue(Settle(g.(released := g.released + {id}), g.queues[key][0], key, Admitted), key, g.queues[key][1..])
  }

  /** Giving back a slot passes it to the first waiter: the bucket is as full as before. */
  lemma PassesOn(g: Gate, id: nat, key: Key, settings: Settings)
    requires id in Held(g, key) && key in g.queues && g.queues[key] != [] && g.queues[key][0] !in g.cancelled
    requires 0 < Count(g, key) <= settings.limit
    ensures Release(g, id, key, settings) == PassedOn(g, id, key)
  {
    var freed := LowerBucket(g.(released := g.released + {id}), key);
    ResolvesFirst(freed, key, settings.limit);
    assert freed.buckets[key := Count(freed, key) + 1] == g.buckets;
  }

  lemma PassedTouches(g: Gate, id: nat, key: Key)
    requires key in g.queues && g.queues[key] != [] && id < |g.arrivals| && g.arrivals[id] == key
    requires g.queues[key][0] < |g.arrivals| && g.arrivals[g.queues[key][0]] == key
    ensures Touches(g, PassedOn(g, id, key), key)
  {
  }

  lemma {:induction false} PassOnKeeps(g: Gate, id: nat, key: Key, settings: Settings)
    requires Before(g, key, settings) && key in g.queues && id in Held(g, key)
    ensures KeepsKey(g, PassedOn(g, id, key), key, settings)
    ensures g.queues[key][0] !in g.cancelled && 0 < Count(g, key) <= settings.limit
  {
    var queue, g' := g.queues[key], PassedOn(g, id, key);
    FirstOut(queue, key, g.arrivals, g.told, Granted(g, key));
    PassedTouches(g, id, key);
    PassedSlots(g, id, key, settings);
    StillNoneLost(g, g', key);
  }

  lemma PassedSlots(g: Gate, id: nat, key: Key, settings: Settings)
    requires SlotsInv(g, key, settings) && key in g.queues && id in Held(g, key)
    requires g.queues[key][0] !in Granted(g, key) + g.released
    ensures SlotsInv(PassedOn(g, id, key), key, settings) && 0 < Count(g, key)
  {
    var first := g.queues[key][0];
    assert Held(PassedOn(g, id, key), key) == Held(g, key) - {id} + {first};
  }

  ghost predicate TellsAtMost(g: Gate, g': Gate) {
    || (g'.log == g.log && g'.told == g.told && g'.granted == g.granted && g.arrivals <= g'.arrivals)
    || exists s :: Tells(g, g', s)
  }

  lemma HistoryGrows(g: Gate, g': Gate)
    requires LogInv(g) && Logged(g) && TellsAtMost(g, g')
    ensures LogInv(g') && Logged(g')
  {
    if g'.log != g.log {
      var s :| Tells(g, g', s);
      LogGrows(g, g', s);
      LoggedGrows(g, g', s);
    }
  }

  lemma ArriveTells(g: Gate, key: Key, settings: Settings)
    requires Before(g, key, settings)
    ensures TellsAtMost(g, Arrive(g, key, settings))
  {
    if Count(g, key) < settings.limit {
      GrantTells(g, key, settings);
    } else if settings.queueLimit == 0 {
      RefusalTells(g, key, LimitExceeded);
    } else if |Queue(g, key)| >= settings.queueLimit {
      RefusalTells(g, key, QueueFull);
    }
  }

  lemma GrantTells(g: Gate, key: Key, settings: Settings)
    requires Before(g, key, settings)
    ensures Tells(g, Grant(g.(arrivals := g.arrivals + [key]), |g.arrivals|, key),
      Settlement(|g.arrivals|, key, Admitted))
  {
  }

  lemma RefusalTells(g: Gate, key: Key, result: Result)
    requires SharedInv(g) && result != Admitted
    ensures Tells(g, Settle(g.(arrivals := g.arrivals + [key]), |g.arrivals|, key, result),
      Settlement(|g.arrivals|, key, result))
  {
  }

  lemma ArriveStep(g: Gate, key: Key, settings: Settings)
    requires Before(g, key, settings)
    ensures KeepsKey(g, Arrive(g, key, settings), key, settings)
  {
    if Count(g, key) < settings.limit {
      GrantedOnArrival(g, key, settings);
    } else if settings.queueLimit == 0 {
      RefusedOnArrival(g, key, settings, LimitExceeded);
    } else if |Queue(g, key)| >= settings.queueLimit {
      RefusedOnArrival(g, key, settings, QueueFull);
    } else {
      QueuedOnArrival(g, key, settings);
    }
  }

  lemma LeaveStep(g: Gate, id: nat, result: Result, settings: Settings)
    requires id < |g.arrivals| && id in Queue(g, g.arrivals[id]) && result != Admitted &&
      Before(g, g.arrivals[id], settings)
    ensures KeepsKey(g, Leave(g, id, result), g.arrivals[id], settings) && TellsAtMost(g, Leave(g, id, result))
  {
    LeaveKeeps(g, id, result, settings);
    assert Tells(g, Leave(g, id, result), Settlement(id, g.arrivals[id], result));
  }

  lemma ReleaseStep(g: Gate, id: nat, key: Key, settings: Settings)
    requires id in Held(g, key) && Before(g, key, settings)
    ensures KeepsKey(g, Release(g, id, key, settings), key, settings) && TellsAtMost(g, Release(g, id, key, settings))
  {
    if key in g.queues {
      PassOnKeeps(g, id, key, settings);
      PassesOn(g, id, key, settings);
      FirstOut(g.queues[key], key, g.arrivals, g.told, Granted(g, key));
      assert Tells(g, PassedOn(g, id, key), Settlement(g.queues[key][0], key, Admitted));
    } else {
      FreeKeeps(g, id, key, settings);
    }
  }

  /** One step about a key, from the parts that it keeps. */
  lemma {:induction false} StepKeeps(policy: Policy, g: Gate, g': Gate, key: Key)
    requires Inv(policy, g) && KeepsKey(g, g', key, policy(key)) && TellsAtMost(g, g')
    ensures Inv(policy, g')
  {
    HistoryGrows(g, g');
    KeyByKey(policy, g, g', key);
  }

  lemma {:induction false} LeavingKeeps(policy: Policy, g: Gate, id: nat, result: Result)
    requires Inv(policy, g) && result != Admitted
    ensures Inv(policy, Leave(g, id, result))
  {
    if id < |g.arrivals| && id in Queue(g, g.arrivals[id]) {
      var key := g.arrivals[id];
      assert KeyInv(g, key, policy(key));
      LeaveStep(g, id, result, policy(key));
      StepKeeps(policy, g, Leave(g, id, result), key);
    }
  }

  lemma {:induction false} ApplyKeeps(policy: Policy, g: Gate, action: Action)
    requires Inv(policy, g)
    ensures Inv(policy, Apply(policy, g, action))
  {
    match action
    case Arriving(key) =>
      assert KeyInv(g, key, policy(key));
      ArriveStep(g, key, policy(key));
      ArriveTells(g, key, policy(key));
      StepKeeps(policy, g, Arrive(g, key, policy(key)), key);
    case Closing(id) => LeavingKeeps(policy, g, id, Aborted);
    case Expiring(id) => LeavingKeeps(policy, g, id, TimedOut);
    case Answering(id, key) =>
      if id in Held(g, key) {
        assert KeyInv(g, key, policy(key));
        ReleaseStep(g, id, key, policy(key));
        StepKeeps(policy, g, Release(g, id, key, policy(key)), key);
      }
  }

  /** The key that an action is about; `otherwise` when it is about no request that arrived. */
  function KeyOf(g: Gate, action: Action, otherwise: Key): Key {
    match action
    case Arriving(key) => key
    case Closing(id) => if id < |g.arrivals| then g.arrivals[id] else otherwise
    case Expiring(id) => if id < |g.arrivals| then g.arrivals[id] else otherwise
    case Answering(_, key) => key
  }

  lemma LeavingTouches(g: Gate, id: nat, result: Result, otherwise: Key)
    requires result != Admitted
    ensures Touches(g, Leave(g, id, result), if id < |g.arrivals| then g.arrivals[id] else otherwise)
  {
    if id < |g.arrivals| && id in Queue(g, g.arrivals[id]) {
      LeaveTouches(g, id, result);
    }
  }

  /** An action leaves the slots, the queue and the requests of every other key alone. */
  lemma {:induction false} ActionTouchesOneKey(policy: Policy, g: Gate, action: Action, otherwise: Key)
    requires Inv(policy, g)
    ensures Touches(g, Apply(policy, g, action), KeyOf(g, action, otherwise))
  {
    match action
    case Arriving(key) =>
      assert KeyInv(g, key, policy(key));
      ArriveStep(g, key, policy(key));
    case Closing(id) => LeavingTouches(g, id, Aborted, otherwise);
    case Expiring(id) => LeavingTouches(g, id, TimedOut, otherwise);
    case Answering(id, key) =>
      if id in Held(g, key) {
        assert KeyInv(g, key, policy(key));
        ReleaseStep(g, id, key, policy(key));
      }
  }

  /** Every run keeps the gate in order: slots, queues and log, for every key. */
  lemma {:induction false} ExecKeeps(policy: Policy, actions: seq<Action>)
    ensures Inv(policy, Exec(policy, actions))
  {
    if actions != [] {
      ExecKeeps(policy, actions[..|actions| - 1]);
      ApplyKeeps(policy, Exec(policy, actions[..|actions| - 1]), actions[|actions| - 1]);
    }
  }

  // ----- what a run guarantees

  /** Slots of a key are granted in order of arrival, and nobody who still waits arrived before someone with a slot. */
  lemma FirstInFirstOut(policy: Policy, actions: seq<Action>, key: Key)
    ensures var g := Exec(policy, actions);
      && (forall i, j | 0 <= i < j < |g.log| && g.log[i].key == g.log[j].key == key &&
        g.log[i].result == g.log[j].result == Admitted ::
        g.log[i].id < g.log[j].id)
      && (forall i, k | 0 <= i < |g.log| && g.log[i].key == key && g.log[i].result == Admitted &&
        0 <= k < |Queue(g, key)| ::
        g.log[i].id < Queue(g, key)[k])
  {
    ExecKeeps(policy, actions);
    var g := Exec(policy, actions);
    assert KeyInv(g, key, policy(key));
    BehindGrants(g, key, policy(key));
  }

  lemma BehindGrants(g: Gate, key: Key, settings: Settings)
    requires LogInv(g) && KeyInv(g, key, settings)
    ensures forall i, k | 0 <= i < |g.log| && g.log[i].key == key && g.log[i].result == Admitted &&
      0 <= k < |Queue(g, key)| ::
      g.log[i].id < Queue(g, key)[k]
  {
    forall i, k | 0 <= i < |g.log| && g.log[i].key == key && g.log[i].result == Admitted && 0 <= k < |Queue(g, key)|
      ensures g.log[i].id < Queue(g, key)[k]
    {
      assert g.log[i].id in Granted(g, key) && Queue(g, key)[0] <= Queue(g, key)[k];
    }
  }

  /** Each request is told something at most once, and either has been told or waits in the queue of its key. */
  lemma SettledOnce(policy: Policy, actions: seq<Action>)
    ensures var g := Exec(policy, actions);
      && (forall i, j | 0 <= i < j < |g.log| :: g.log[i].id != g.log[j].id)
      && (forall id: nat | id < |g.arrivals| ::
        id in Queue(g, g.arrivals[id]) <==> !exists i | 0 <= i < |g.log| :: g.log[i].id == id)
  {
    ExecKeeps(policy, actions);
    var g := Exec(policy, actions);
    forall id: nat | id < |g.arrivals|
      ensures id in Queue(g, g.arrivals[id]) <==> !exists i | 0 <= i < |g.log| :: g.log[i].id == id
    {
      assert WaitsOrTold(g, id) && KeyInv(g, g.arrivals[id], policy(g.arrivals[id]));
    }
  }

  /** The slots in use are the grants not given back, never more than the limit, and none is idle while anyone waits. */
  lemma {:induction false} SlotsConserved(policy: Policy, actions: seq<Action>, key: Key)
    ensures var g := Exec(policy, actions);
      && Count(g, key) == |Held(g, key)| <= policy(key).limit
      && (Queue(g, key) != [] ==> Count(g, key) == policy(key).limit)
      && |Queue(g, key)| <= policy(key).queueLimit
      && (Held(g, key) == {} ==> key !in g.buckets && key !in g.queues)
  {
    ExecKeeps(policy, actions);
    assert KeyInv(Exec(policy, actions), key, policy(key));
  }

  /**
   A newcomer gets a slot ahead of a waiting queue exactly when its settings
   allow more slots than the settings that the queue formed under.
   */
  lemma {:induction false} OvertakesIff(policy: Policy, actions: seq<Action>, key: Key, settings: Settings)
    requires Queue(Exec(policy, actions), key) != []
    ensures var g := Exec(policy, actions);
      |g.arrivals| in Granted(Arrive(g, key, settings), key) <==> settings.limit > policy(key).limit
  {
    ExecKeeps(policy, actions);
    assert KeyInv(Exec(policy, actions), key, policy(key));
    AdmittedIffFree(Exec(policy, actions), key, settings, policy(key));
  }

  /** Two requests of a key with one slot, and a newcomer that is allowed two: it gets a slot while the second waits. */
  lemma RaisedLimitOvertakes(policy: Policy, key: Key)
    requires policy(key) == Settings(1, 1)
    ensures var g := Exec(policy, [Arriving(key), Arriving(key)]);
      Queue(g, key) == [1] && 2 in Granted(Arrive(g, key, Settings(2, 1)), key)
  {
    var actions := [Arriving(key), Arriving(key)];
    assert actions[..1] == [Arriving(key)] && actions[..1][..0] == [];
    assert Exec(policy, actions[..1][..0]) == OPENED;
    var first := Exec(policy, actions[..1]);
    assert first == Arrive(OPENED, key, policy(key));
    assert [] + [key] == [key] && first.arrivals == [key] && Count(first, key) == 1;
    var second := Exec(policy, actions);
    assert second == Arrive(first, key, policy(key));
    assert Queue(first, key) == [] && Queue(first, key) + [1] == [1] && [key] + [key] == [key, key];
    assert second == SetQueue(first.(arrivals := [key, key]), key, [1]);
  }

  lemma AdmittedIffFree(g: Gate, key: Key, settings: Settings, usual: Settings)
    requires SharedInv(g) && KeyInv(g, key, usual)
    ensures |g.arrivals| in Granted(Arrive(g, key, settings), key) <==> Count(g, key) < settings.limit
  {
  }

  // ----- the gate as it runs

  class Gateway {
    var buckets: map<Key, nat>
    var queues: map<Key, seq<nat>>
    var cancelled: set<nat>
    var arrivals: seq<Key>
    var told: set<nat>
    var granted: map<Key, set<nat>>
    var released: set<nat>
    var log: seq<Settlement>

    function State(): Gate
      reads this
    {
      Gate(buckets, queues, cancelled, arrivals, told, granted, released, log)
    }

    constructor ()
      ensures State() == OPENED
    {
      buckets, queues, cancelled := map[], map[], {};
      arrivals, told, granted, released, log := [], {}, map[], {}, [];
    }

    /** Takes a slot when one is free. */
    method EnterConcurrency(key: Key, limit: nat) returns (ok: bool)
      modifies this`buckets
      ensures ok <==> Count(old(State()), key) < limit
      ensures buckets == if ok then old(buckets)[key := Count(old(State()), key) + 1] else old(buckets)
    {
      var current := if key in buckets then buckets[key] else 0;
      ok := current < limit;
      if ok {
        buckets := buckets[key := current + 1];
      }
    }

    method LeaveConcurrency(key: Key)
      modifies this`buckets
      ensures State() == LowerBucket(old(State()), key)
    {
      var current := if key in buckets then buckets[key] else 0;
      if current <= 1 {
        buckets := buckets - {key};
      } else {
        buckets := buckets[key := current - 1];
      }
    }

    method Tell(id: nat, key: Key, result: Result)
      modifies this`told, this`log, this`granted
      ensures State() == Settle(old(State()), id, key, result)
    {
      told, log := told + {id}, log + [Settlement(id, key, result)];
      if result == Admitted {
        granted := granted[key := (if key in granted then granted[key] else {}) + {id}];
      }
    }

    method StoreQueue(key: Key, queue: seq<nat>)
      modifies this`queues
      ensures State() == SetQueue(old(State()), key, queue)
    {
      if queue == [] {
        queues := queues - {key};
      } else {
        queues := queues[key := queue];
      }
    }

    method WaitForConcurrency(key: Key, settings: Settings)
      modifies this
      ensures State() == Arrive(old(State()), key, settings)
    {
      var id := |arrivals|;
      arrivals := arrivals + [key];
      var ok := EnterConcurrency(key, settings.limit);
      if ok {
        Tell(id, key, Admitted);
        return;
      }
      if settings.queueLimit == 0 {
        Tell(id, key, LimitExceeded);
        return;
      }
      var queue := if key in queues then queues[key] else [];
      if |queue| >= settings.queueLimit {
        Tell(id, key, QueueFull);
        return;
      }
      StoreQueue(key, queue + [id]);
    }

    /** A waiting request closes, or its time runs out. */
    method StopWaiting(id: nat, result: Result)
      modifies this
      ensures State() == Leave(old(State()), id, result)
    {
      if id >= |arrivals| { return; }
      var key := arrivals[id];
      var queue := if key in queues then queues[key] else [];
      if id !in queue { return; }
      cancelled := cancelled + {id};
      var rest := RemoveWaiter(queue, id);
      StoreQueue(key, rest);
      Tell(id, key, result);
    }

    /** The first waiter that did not cancel is shifted off the queue and resolved, if a slot is free. */
    method ResolveNextWaiter(key: Key, limit: nat)
      modifies this
      ensures State() == if key in old(queues) then ResolveNext(old(State()), key, limit, old(queues[key]))
        else old(State())
    {
      if key !in queues { return; }
      var queue := queues[key];
      while queue != []
        invariant State() == old(State())
        invariant ResolveNext(old(State()), key, limit, old(queues[key]))
          == ResolveNext(old(State()), key, limit, queue)
        decreases |queue|
      {
        var waiter := queue[0];
        if waiter in cancelled {
          queue := queue[1..];
          continue;
        }
        var ok := EnterConcurrency(key, limit);
        if ok {
          queue := queue[1..];
          Tell(waiter, key, Admitted);
          StoreQueue(key, queue);
          return;
        }
        break;
      }
      StoreQueue(key, queue);
    }

    /** A request that has a slot has been answered or has closed. */
    method ReleaseSlot(id: nat, key: Key, settings: Settings)
      modifies this
      ensures State() == Release(old(State()), id, key, settings)
    {
      if id in released || key !in granted || id !in granted[key] { return; }
      released := released + {id};
      LeaveConcurrency(key);
      ResolveNextWaiter(key, settings.limit);
    }
  }

  method RemoveWaiter(queue: seq<nat>, waiter: nat) returns (rest: seq<nat>)
    ensures rest == Without(queue, waiter)
  {
    var index := 0;
    while index < |queue| && queue[index] != waiter
      invariant index <= |queue|
      invariant Without(queue, waiter) == queue[..index] + Without(queue[index..], waiter)
    {
      WithoutNext(queue, waiter, index);
      index := index + 1;
    }
    if index < |queue| {
      WithoutFirst(queue, waiter, index);
      rest := queue[..index] + queue[index + 1..];
    } else {
      assert queue[..index] + [] == queue;
      rest := queue;
    }
  }

  lemma WithoutNext(queue: seq<nat>, waiter: nat, index: nat)
    requires index < |queue| && queue[index] != waiter
    ensures queue[..index] + Without(queue[index..], waiter) == queue[..index + 1] + Without(queue[index + 1..], waiter)
  {
    assert queue[index..][1..] == queue[index + 1..];
  }

  lemma WithoutFirst(queue: seq<nat>, waiter: nat, index: nat)
    requires index < |queue| && queue[index] == waiter
    ensures Without(queue[index..], waiter) == queue[index + 1..]
  {
  }
}
