/**
 The lease ledger of the admission controller: acquire, renew, commit, release
 and expiry, and the side-effect-free preview of an acquire.  Leases are kept in
 the insertion order of the stored object.
 */
module AdmissionLedger {
  import opened Wrappers
  import opened AdmissionBudget

  datatype Reservation = Reservation(gpuKey: string, mb: nat)

  datatype LeaseState = Pending | Committed

  /** `expiresAt` is None when the stored stamp cannot be parsed. */
  datatype Lease = Lease(
    id: nat,
    state: LeaseState,
    containerName: string,
    expiresAt: Option<int>,
    reservations: seq<Reservation>)

  type Leases = seq<Lease>

  datatype AdmissionError =
    PolicyUnavailable | TelemetryUnavailable | SelectionUnavailable | EstimateUnavailable | InsufficientVram

  datatype Plan = Plan(decisions: seq<Decision>) | NoPlan(error: AdmissionError)

  datatype Acquired = Granted(lease: Lease, decisions: seq<Decision>) | Refused(error: AdmissionError)

  /** What one call reads from outside the ledger; None stands for a failed read. */
  datatype World = World(now: int, policy: Option<Policy>, gpus: Option<seq<Gpu>>)

  // ----- sums and filters over leases

  predicate Expired(lease: Lease, now: int) {
    lease.expiresAt.None? || lease.expiresAt.value <= now
  }

  function Prune(leases: Leases, now: int): Leases {
    if leases == [] then []
    else (if Expired(leases[0], now) then [] else [leases[0]]) + Prune(leases[1..], now)
  }

  function Without(leases: Leases, ids: set<nat>): Leases {
    if leases == [] then []
    else (if leases[0].id in ids then [] else [leases[0]]) + Without(leases[1..], ids)
  }

  function LeaseMb(reservations: seq<Reservation>, key: string): nat {
    if reservations == [] then 0
    else (if reservations[0].gpuKey == key then reservations[0].mb else 0) + LeaseMb(reservations[1..], key)
  }

  function ReservedMb(leases: Leases, key: string, excluded: set<nat>): nat {
    if leases == [] then 0
    else (if leases[0].id in excluded then 0 else LeaseMb(leases[0].reservations, key))
         + ReservedMb(leases[1..], key, excluded)
  }

  lemma {:induction false} ReservedAppend(first: Leases, second: Leases, key: string, excluded: set<nat>)
    ensures ReservedMb(first + second, key, excluded)
         == ReservedMb(first, key, excluded) + ReservedMb(second, key, excluded)
  {
    if first == [] {
      assert first + second == second;
    } else {
      assert (first + second)[1..] == first[1..] + second;
      ReservedAppend(first[1..], second, key, excluded);
    }
  }

  lemma {:induction false} ReservedWithout(leases: Leases, ids: set<nat>, key: string)
    ensures ReservedMb(Without(leases, ids), key, {}) == ReservedMb(leases, key, ids)
    ensures ReservedMb(leases, key, ids) <= ReservedMb(leases, key, {})
  {
    if leases != [] {
      ReservedWithout(leases[1..], ids, key);
      var head: Leases := if leases[0].id in ids then [] else [leases[0]];
      ReservedAppend(head, Without(leases[1..], ids), key, {});
    }
  }

  lemma {:induction false} ReservedPrune(leases: Leases, now: int, key: string)
    ensures ReservedMb(Prune(leases, now), key, {}) <= ReservedMb(leases, key, {})
  {
    if leases != [] {
      ReservedPrune(leases[1..], now, key);
      var head: Leases := if Expired(leases[0], now) then [] else [leases[0]];
      ReservedAppend(head, Prune(leases[1..], now), key, {});
    }
  }

  // ----- the decisions of one request

  function FindGpu(gpus: seq<Gpu>, alias: string): (gpu: Option<Gpu>)
    ensures gpu.Some? ==> gpu.value in gpus && alias in gpu.value.aliases
  {
    if gpus == [] then None
    else if alias in gpus[0].aliases then Some(gpus[0])
    else FindGpu(gpus[1..], alias)
  }

  predicate DistinctKeys(gpus: seq<Gpu>) {
    forall i, j | 0 <= i < j < |gpus| :: gpus[i].key != gpus[j].key
  }

  function SelectByAlias(gpus: seq<Gpu>, aliases: seq<string>, selected: seq<Gpu>): (r: Option<seq<Gpu>>)
    requires DistinctKeys(selected) && forall gpu | gpu in selected :: gpu in gpus
    ensures r.Some? ==> DistinctKeys(r.value) && forall gpu | gpu in r.value :: gpu in gpus
  {
    if aliases == [] then Some(selected)
    else
      var found := FindGpu(gpus, aliases[0]);
      if found.None? then None
      else if exists i | 0 <= i < |selected| :: selected[i].key == found.value.key
      then SelectByAlias(gpus, aliases[1..], selected)
      else SelectByAlias(gpus, aliases[1..], selected + [found.value])
  }

  /** The GPUs a launch is placed on; None when a requested one has no telemetry. */
  function SelectAdmissionGpus(gpus: seq<Gpu>, request: Request): (r: Option<seq<Gpu>>)
    ensures r.Some? ==> forall gpu | gpu in r.value :: gpu in gpus
    ensures r.Some? && DistinctKeys(gpus) ==> DistinctKeys(r.value)
  {
    if request.gpuIds != [] then SelectByAlias(gpus, request.gpuIds, [])
    else if request.useAllGpus || gpus == [] then Some(gpus)
    else Some(gpus[..1])
  }

  lemma {:induction false} FindGpuIff(gpus: seq<Gpu>, alias: string)
    ensures FindGpu(gpus, alias).Some? <==> exists i | 0 <= i < |gpus| :: alias in gpus[i].aliases
  {
    if gpus != [] {
      FindGpuIff(gpus[1..], alias);
      if i :| 0 <= i < |gpus| && alias in gpus[i].aliases {
        assert i > 0 ==> gpus[1..][i - 1] == gpus[i];
      }
    }
  }

  /** Every requested alias is matched, and every selected GPU was selected before or is the match of one. */
  ghost predicate Matches(gpus: seq<Gpu>, aliases: seq<string>, before: seq<Gpu>, selected: seq<Gpu>) {
    && before <= selected
    && (forall a | 0 <= a < |aliases| ::
      FindGpu(gpus, aliases[a]).Some? && exists i | 0 <= i < |selected| ::
        selected[i].key == FindGpu(gpus, aliases[a]).value.key)
    && (forall i | |before| <= i < |selected| :: exists a | 0 <= a < |aliases| ::
      FindGpu(gpus, aliases[a]) == Some(selected[i]))
  }

  lemma {:induction false} SelectByAliasMatches(gpus: seq<Gpu>, aliases: seq<string>, selected: seq<Gpu>)
    requires DistinctKeys(selected) && forall gpu | gpu in selected :: gpu in gpus
    ensures var r := SelectByAlias(gpus, aliases, selected);
      && (r.Some? <==> forall a | 0 <= a < |aliases| :: FindGpu(gpus, aliases[a]).Some?)
      && (r.Some? ==> Matches(gpus, aliases, selected, r.value))
    decreases |aliases|
  {
    if aliases != [] && FindGpu(gpus, aliases[0]).Some? {
      var found := FindGpu(gpus, aliases[0]).value;
      var next := if exists i | 0 <= i < |selected| :: selected[i].key == found.key then selected
        else selected + [found];
      SelectByAliasMatches(gpus, aliases[1..], next);
      var r := SelectByAlias(gpus, aliases, selected);
      assert forall a | 0 < a < |aliases| :: aliases[a] == aliases[1..][a - 1];
      if r.Some? {
        OneAliasMore(gpus, aliases, selected, next, r.value);
      }
    }
  }

  lemma OneAliasMore(gpus: seq<Gpu>, aliases: seq<string>, before: seq<Gpu>, next: seq<Gpu>, selected: seq<Gpu>)
    requires aliases != [] && FindGpu(gpus, aliases[0]).Some? && Matches(gpus, aliases[1..], next, selected)
    requires var found := FindGpu(gpus, aliases[0]).value;
      next == if exists i | 0 <= i < |before| :: before[i].key == found.key then before else before + [found]
    ensures Matches(gpus, aliases, before, selected)
  {
    var found := FindGpu(gpus, aliases[0]).value;
    var k :| 0 <= k < |next| && next[k].key == found.key;
    assert selected[k] == next[k];
    forall a | 0 <= a < |aliases|
      ensures FindGpu(gpus, aliases[a]).Some? && exists i | 0 <= i < |selected| ::
        selected[i].key == FindGpu(gpus, aliases[a]).value.key
    {
      if a > 0 {
        assert aliases[a] == aliases[1..][a - 1];
      }
    }
    forall i | |before| <= i < |selected|
      ensures exists a | 0 <= a < |aliases| :: FindGpu(gpus, aliases[a]) == Some(selected[i])
    {
      if i < |next| {
        assert selected[i] == next[i] == found;
      } else {
        var a :| 0 <= a < |aliases[1..]| && FindGpu(gpus, aliases[1..][a]) == Some(selected[i]);
        assert aliases[a + 1] == aliases[1..][a];
      }
    }
  }

  /**
   A launch that names GPUs gets exactly the GPUs it names, or none when one of
   them has no telemetry; otherwise it gets all of them or the first.
   */
  lemma {:induction false} SelectsWhatIsNamed(gpus: seq<Gpu>, request: Request)
    ensures var r := SelectAdmissionGpus(gpus, request);
      if request.gpuIds == [] then
        r.Some? && r.value == if request.useAllGpus || gpus == [] then gpus else [gpus[0]]
      else
        && (r.Some? <==> forall a | 0 <= a < |request.gpuIds| :: exists i | 0 <= i < |gpus| ::
          request.gpuIds[a] in gpus[i].aliases)
        && (r.Some? ==> Matches(gpus, request.gpuIds, [], r.value))
  {
    if request.gpuIds != [] {
      SelectByAliasMatches(gpus, request.gpuIds, []);
      forall a | 0 <= a < |request.gpuIds|
        ensures FindGpu(gpus, request.gpuIds[a]).Some?
          <==> exists i | 0 <= i < |gpus| :: request.gpuIds[a] in gpus[i].aliases
      {
        FindGpuIff(gpus, request.gpuIds[a]);
      }
    }
  }

  /** One decision per selected GPU, or None when one has no trustworthy estimate. */
  function DecideAll(request: Request, selected: seq<Gpu>, leases: Leases, excluded: set<nat>, policy: Policy)
    : (r: Option<seq<Decision>>)
    ensures r.Some? ==> |r.value| == |selected|
    ensures r.Some? ==> forall i | 0 <= i < |selected| ::
      Some(r.value[i])
        == DecideGpuReservation(request, selected[i], ReservedMb(leases, selected[i].key, excluded), policy)
  {
    if selected == [] then Some([])
    else
      var first := DecideGpuReservation(request, selected[0], ReservedMb(leases, selected[0].key, excluded), policy);
      var rest := DecideAll(request, selected[1..], leases, excluded, policy);
      if first.None? || rest.None? then None else Some([first.value] + rest.value)
  }

  lemma {:induction false} DecidesWhenEach(request: Request, selected: seq<Gpu>, leases: Leases, excluded: set<nat>,
                                           policy: Policy)
    requires forall i | 0 <= i < |selected| ::
      DecideGpuReservation(request, selected[i], ReservedMb(leases, selected[i].key, excluded), policy).Some?
    ensures DecideAll(request, selected, leases, excluded, policy).Some?
  {
    if selected != [] {
      assert forall i | 0 <= i < |selected[1..]| :: selected[1..][i] == selected[i + 1];
      DecidesWhenEach(request, selected[1..], leases, excluded, policy);
    }
  }

  function AdmissionDecisions(request: Request, gpus: seq<Gpu>, leases: Leases, excluded: set<nat>,
                              policy: Policy): Plan {
    var selected := SelectAdmissionGpus(gpus, request);
    if selected.None? || selected.value == [] then NoPlan(SelectionUnavailable)
    else
      var decisions := DecideAll(request, selected.value, leases, excluded, policy);
      if decisions.None? then NoPlan(EstimateUnavailable) else Plan(decisions.value)
  }

  predicate AnyBlocked(decisions: seq<Decision>) {
    exists i | 0 <= i < |decisions| :: decisions[i].verdict.Blocked?
  }

  predicate AnyClamped(decisions: seq<Decision>) {
    exists i | 0 <= i < |decisions| :: decisions[i].verdict.Clamped?
  }

  function Reservations(decisions: seq<Decision>): (r: seq<Reservation>)
    ensures |r| == |decisions|
    ensures forall i | 0 <= i < |r| :: r[i] == Reservation(decisions[i].gpuKey, decisions[i].reservedMb)
  {
    seq(|decisions|, i requires 0 <= i < |decisions| => Reservation(decisions[i].gpuKey, decisions[i].reservedMb))
  }

  // ----- acquire

  function NewLease(request: Request, decisions: seq<Decision>, now: int, ttl: nat, id: nat): Lease {
    Lease(id, Pending, request.containerName, Some(now + ttl), Reservations(decisions))
  }

  function Acquire(leases: Leases, request: Request, world: World, ttl: nat, id: nat): Acquired {
    if world.policy.None? then Refused(PolicyUnavailable)
    else if world.gpus.None? || world.gpus.value == [] then Refused(TelemetryUnavailable)
    else
      match AdmissionDecisions(request, world.gpus.value, Prune(leases, world.now), request.retireLeaseIds,
        world.policy.value)
      case NoPlan(error) => Refused(error)
      case Plan(decisions) =>
        if AnyBlocked(decisions) then Refused(InsufficientVram)
        else Granted(NewLease(request, decisions, world.now, ttl, id), decisions)
  }

  /** Refusals after the telemetry was read, and only those, save the pruned ledger. */
  function LedgerAfterAcquire(leases: Leases, request: Request, world: World, ttl: nat, id: nat): Leases {
    match Acquire(leases, request, world, ttl, id)
    case Granted(lease, _) => Without(Prune(leases, world.now), request.retireLeaseIds) + [lease]
    case Refused(InsufficientVram) => Prune(leases, world.now)
    case Refused(TelemetryUnavailable) => Prune(leases, world.now)
    case Refused(_) => leases
  }

  // ----- renew, commit and release

  function RenewLease(lease: Lease, until: int): Lease {
    if lease.state.Pending? then lease.(expiresAt := Some(until)) else lease
  }

  function CommitLease(lease: Lease, until: int, containerName: string): Lease {
    lease.(state := Committed,
           expiresAt := Some(until),
           containerName := if containerName == "" then lease.containerName else containerName)
  }

  function RenewIn(leases: Leases, id: nat, until: int): Leases {
    if leases == [] then []
    else [if leases[0].id == id then RenewLease(leases[0], until) else leases[0]] + RenewIn(leases[1..], id, until)
  }

  function CommitIn(leases: Leases, id: nat, until: int, containerName: string): Leases {
    if leases == [] then []
    else [if leases[0].id == id then CommitLease(leases[0], until, containerName) else leases[0]]
         + CommitIn(leases[1..], id, until, containerName)
  }

  function Renew(leases: Leases, id: nat, now: int, ttl: nat): Leases {
    RenewIn(Prune(leases, now), id, now + ttl)
  }

  function Commit(leases: Leases, id: nat, now: int, cooldown: nat, containerName: string): Leases {
    if cooldown == 0 then Without(Prune(leases, now), {id})
    else CommitIn(Prune(leases, now), id, now + cooldown, containerName)
  }

  function Release(leases: Leases, id: nat, now: int): Leases {
    Without(Prune(leases, now), {id})
  }

  lemma {:induction false} ReservedRenewIn(leases: Leases, id: nat, until: int, key: string)
    ensures ReservedMb(RenewIn(leases, id, until), key, {}) == ReservedMb(leases, key, {})
  {
    if leases != [] {
      ReservedRenewIn(leases[1..], id, until, key);
      assert RenewIn(leases, id, until)[1..] == RenewIn(leases[1..], id, until);
    }
  }

  lemma {:induction false} ReservedCommitIn(leases: Leases, id: nat, until: int, containerName: string, key: string)
    ensures ReservedMb(CommitIn(leases, id, until, containerName), key, {}) == ReservedMb(leases, key, {})
  {
    if leases != [] {
      ReservedCommitIn(leases[1..], id, until, containerName, key);
      assert CommitIn(leases, id, until, containerName)[1..] == CommitIn(leases[1..], id, until, containerName);
    }
  }

  // ----- no overcommit

  /** Whenever the GPU has reservations, they fit the budget together. */
  predicate Safe(gpu: Gpu, policy: Policy, leases: Leases) {
    var reserved := ReservedMb(leases, gpu.key, {});
    reserved > 0 ==> WithinBudget(gpu, policy, reserved)
  }

  lemma {:induction false} ReservationsOf(decisions: seq<Decision>, key: string)
    requires forall i, j | 0 <= i < j < |decisions| :: decisions[i].gpuKey != decisions[j].gpuKey
    ensures forall i | 0 <= i < |decisions| && decisions[i].gpuKey == key ::
      LeaseMb(Reservations(decisions), key) == decisions[i].reservedMb
    ensures (forall i | 0 <= i < |decisions| :: decisions[i].gpuKey != key) ==>
      LeaseMb(Reservations(decisions), key) == 0
  {
    if decisions != [] {
      ReservationsOf(decisions[1..], key);
      assert Reservations(decisions)[1..] == Reservations(decisions[1..]);
      if decisions[0].gpuKey == key {
        assert forall i | 0 <= i < |decisions[1..]| :: decisions[1..][i].gpuKey != key;
      } else {
        forall i | 0 <= i < |decisions| && decisions[i].gpuKey == key
          ensures LeaseMb(Reservations(decisions), key) == decisions[i].reservedMb
        {
          assert decisions[1..][i - 1] == decisions[i];
        }
      }
    }
  }

  /** A successful acquire puts every selected GPU within budget, whatever the telemetry was before. */
  lemma AcquireWithinBudget(leases: Leases, request: Request, world: World, ttl: nat, id: nat, i: nat)
    requires Acquire(leases, request, world, ttl, id).Granted? && DistinctKeys(world.gpus.value)
    requires i < |SelectAdmissionGpus(world.gpus.value, request).value|
    ensures var gpu := SelectAdmissionGpus(world.gpus.value, request).value[i];
      var reserved := ReservedMb(LedgerAfterAcquire(leases, request, world, ttl, id), gpu.key, {});
      0 < reserved && WithinBudget(gpu, world.policy.value, reserved)
  {
    var Granted(lease, decisions) := Acquire(leases, request, world, ttl, id);
    var selected := SelectAdmissionGpus(world.gpus.value, request).value;
    var gpu, policy := selected[i], world.policy.value;
    var pruned := Prune(leases, world.now);
    var kept := Without(pruned, request.retireLeaseIds);
    ReservedWithout(pruned, request.retireLeaseIds, gpu.key);
    ReservedAppend(kept, [lease], gpu.key, {});
    ReservationsOf(decisions, gpu.key);
    assert decisions[i].gpuKey == gpu.key;
    AdmittedWithinBudget(request, gpu, ReservedMb(pruned, gpu.key, request.retireLeaseIds), policy);
  }

  /** A GPU that was not selected has no more reservations than before. */
  lemma AcquireElsewhere(leases: Leases, request: Request, world: World, ttl: nat, id: nat, key: string)
    requires Acquire(leases, request, world, ttl, id).Granted? && DistinctKeys(world.gpus.value)
    requires forall gpu | gpu in SelectAdmissionGpus(world.gpus.value, request).value :: gpu.key != key
    ensures ReservedMb(LedgerAfterAcquire(leases, request, world, ttl, id), key, {}) <= ReservedMb(leases, key, {})
  {
    var Granted(lease, decisions) := Acquire(leases, request, world, ttl, id);
    var pruned := Prune(leases, world.now);
    ReservedPrune(leases, world.now, key);
    ReservedWithout(pruned, request.retireLeaseIds, key);
    ReservedAppend(Without(pruned, request.retireLeaseIds), [lease], key, {});
    ReservationsOf(decisions, key);
  }

  datatype Op =
    | DoAcquire(request: Request, id: nat, ttl: nat)
    | DoRenew(id: nat, ttl: nat)
    | DoCommit(id: nat, cooldown: nat, containerName: string)
    | DoRelease(id: nat)
    | DoInspect

  /** One operation at its own time; the telemetry read may fail at any acquire. */
  datatype Event = Event(op: Op, now: int, policyRead: bool, telemetryRead: bool)

  function Apply(leases: Leases, event: Event, gpus: seq<Gpu>, policy: Policy): Leases {
    match event.op
    case DoAcquire(request, id, ttl) =>
      var world := World(event.now,
                         if event.policyRead then Some(policy) else None,
                         if event.telemetryRead then Some(gpus) else None);
      LedgerAfterAcquire(leases, request, world, ttl, id)
    case DoRenew(id, ttl) => Renew(leases, id, event.now, ttl)
    case DoCommit(id, cooldown, containerName) => Commit(leases, id, event.now, cooldown, containerName)
    case DoRelease(id) => Release(leases, id, event.now)
    case DoInspect => Prune(leases, event.now)
  }

  function Exec(leases: Leases, events: seq<Event>, gpus: seq<Gpu>, policy: Policy): Leases
    decreases |events|
  {
    if events == [] then leases else Exec(Apply(leases, events[0], gpus, policy), events[1..], gpus, policy)
  }

  lemma KeyIdentifies(gpus: seq<Gpu>, a: Gpu, b: Gpu)
    requires DistinctKeys(gpus) && a in gpus && b in gpus && a.key == b.key
    ensures a == b
  {
    var i :| 0 <= i < |gpus| && gpus[i] == a;
    var j :| 0 <= j < |gpus| && gpus[j] == b;
    assert !(i < j) && !(j < i);
  }

  lemma ApplySafe(leases: Leases, event: Event, gpus: seq<Gpu>, policy: Policy, gpu: Gpu)
    requires DistinctKeys(gpus) && gpu in gpus && Safe(gpu, policy, leases)
    ensures Safe(gpu, policy, Apply(leases, event, gpus, policy))
  {
    ReservedPrune(leases, event.now, gpu.key);
    var pruned := Prune(leases, event.now);
    match event.op
    case DoAcquire(request, id, ttl) =>
      var world := World(event.now,
                         if event.policyRead then Some(policy) else None,
                         if event.telemetryRead then Some(gpus) else None);
      if Acquire(leases, request, world, ttl, id).Granted? {
        var selected := SelectAdmissionGpus(gpus, request).value;
        if i: nat :| i < |selected| && selected[i].key == gpu.key {
          AcquireWithinBudget(leases, request, world, ttl, id, i);
          KeyIdentifies(gpus, selected[i], gpu);
        } else {
          AcquireElsewhere(leases, request, world, ttl, id, gpu.key);
        }
      }
    case DoRenew(id, ttl) => ReservedRenewIn(pruned, id, event.now + ttl, gpu.key);
    case DoCommit(id, cooldown, containerName) =>
      ReservedWithout(pruned, {id}, gpu.key);
      ReservedCommitIn(pruned, id, event.now + cooldown, containerName, gpu.key);
    case DoRelease(id) => ReservedWithout(pruned, {id}, gpu.key);
    case DoInspect =>
  }

  lemma {:induction false} ExecSafe(leases: Leases, events: seq<Event>, gpus: seq<Gpu>, policy: Policy, gpu: Gpu)
    requires DistinctKeys(gpus) && gpu in gpus && Safe(gpu, policy, leases)
    ensures Safe(gpu, policy, Exec(leases, events, gpus, policy))
    decreases |events|
  {
    if events != [] {
      ApplySafe(leases, events[0], gpus, policy, gpu);
      ExecSafe(Apply(leases, events[0], gpus, policy), events[1..], gpus, policy, gpu);
    }
  }

  /**
   With fixed policy and telemetry, no run from the empty ledger overcommits a
   GPU: whenever it has reservations, they and the reserve fit its free memory,
   and with the used memory and the startup margin they stay below the
   utilization limit.
   */
  lemma NoOvercommit(events: seq<Event>, gpus: seq<Gpu>, policy: Policy, gpu: Gpu)
    requires DistinctKeys(gpus) && gpu in gpus
    ensures var reserved := ReservedMb(Exec([], events, gpus, policy), gpu.key, {});
      reserved > 0 ==> WithinBudget(gpu, policy, reserved)
  {
    ExecSafe([], events, gpus, policy, gpu);
  }
}
