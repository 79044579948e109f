/**
 What the admission controller answers, and what each of its operations leaves
 in the ledger, said of the telemetry, the policy and the stored leases alone.
 */
module AdmissionAnswers {
  import opened Wrappers
  import opened AdmissionBudget
  import opened AdmissionLedger

  // ----- acquire

  /** What the unexpired leases that stay hold on a GPU. */
  function HeldMb(leases: Leases, request: Request, now: int, gpu: Gpu): nat {
    ReservedMb(Prune(leases, now), gpu.key, request.retireLeaseIds)
  }

  predicate HasEstimate(request: Request, gpu: Gpu, heldMb: nat) {
    RequestedMbForGpu(request, gpu, heldMb).Some?
  }

  /** The whole request is within the budget. */
  predicate FitsOn(request: Request, gpu: Gpu, heldMb: nat, policy: Policy)
    requires HasEstimate(request, gpu, heldMb)
  {
    WithinBudget(gpu, policy, heldMb + RequestedMbForGpu(request, gpu, heldMb).value)
  }

  predicate AdmittedOn(request: Request, gpu: Gpu, heldMb: nat, policy: Policy) {
    && HasEstimate(request, gpu, heldMb)
    && (FitsOn(request, gpu, heldMb, policy) || MayClamp(request, gpu, heldMb, policy))
  }

  /** Every GPU that the request names has telemetry. */
  predicate AllNamedAreKnown(gpus: seq<Gpu>, request: Request) {
    forall a | 0 <= a < |request.gpuIds| :: exists i | 0 <= i < |gpus| :: request.gpuIds[a] in gpus[i].aliases
  }

  lemma {:induction false} SelectsSome(gpus: seq<Gpu>, request: Request)
    requires gpus != []
    ensures var selected := SelectAdmissionGpus(gpus, request);
      && (selected.Some? <==> AllNamedAreKnown(gpus, request))
      && (selected.Some? ==> selected.value != [])
  {
    SelectsWhatIsNamed(gpus, request);
    if request.gpuIds != [] && AllNamedAreKnown(gpus, request) {
      var selected := SelectAdmissionGpus(gpus, request).value;
      assert FindGpu(gpus, request.gpuIds[0]).Some?;
    }
  }

  predicate AllSized(request: Request, selected: seq<Gpu>, leases: Leases, now: int) {
    forall i | 0 <= i < |selected| :: HasEstimate(request, selected[i], HeldMb(leases, request, now, selected[i]))
  }

  predicate AllAdmitted(request: Request, selected: seq<Gpu>, leases: Leases, now: int, policy: Policy) {
    forall i | 0 <= i < |selected| ::
      AdmittedOn(request, selected[i], HeldMb(leases, request, now, selected[i]), policy)
  }

  /** A launch is decided exactly when each selected GPU has an estimate, and then GPU by GPU. */
  lemma {:induction false} PlanDecidesEach(request: Request, selected: seq<Gpu>, leases: Leases, now: int,
                                           policy: Policy)
    ensures var plan := DecideAll(request, selected, Prune(leases, now), request.retireLeaseIds, policy);
      && (plan.Some? <==> AllSized(request, selected, leases, now))
      && (plan.Some? ==> (AnyBlocked(plan.value) <==> !AllAdmitted(request, selected, leases, now, policy)))
  {
    var plan := DecideAll(request, selected, Prune(leases, now), request.retireLeaseIds, policy);
    if AllSized(request, selected, leases, now) {
      DecidesWhenEach(request, selected, Prune(leases, now), request.retireLeaseIds, policy);
    }
    if plan.Some? {
      forall i | 0 <= i < |selected|
        ensures plan.value[i].verdict.Blocked? <==>
          !AdmittedOn(request, selected[i], HeldMb(leases, request, now, selected[i]), policy)
        ensures HasEstimate(request, selected[i], HeldMb(leases, request, now, selected[i]))
      {
        assert DecideGpuReservation(request, selected[i], HeldMb(leases, request, now, selected[i]), policy).Some?;
        DecidesByBudget(request, selected[i], HeldMb(leases, request, now, selected[i]), policy);
      }
    }
  }

  /**
   An acquire is refused for want of the policy, of the telemetry, of a GPU that
   it names or of an estimate exactly when the first of these is missing, and
   for want of memory exactly when some selected GPU has room neither for the
   whole request nor for a clamped one.  It is granted in every other case.
   */
  lemma {:induction false} AcquireAnswers(leases: Leases, request: Request, world: World, ttl: nat, id: nat)
    ensures var acquired := Acquire(leases, request, world, ttl, id);
      && (world.policy.None? <==> acquired == Refused(PolicyUnavailable))
      && (world.policy.Some? && (world.gpus.None? || world.gpus.value == [])
          <==> acquired == Refused(TelemetryUnavailable))
      && (world.policy.Some? && world.gpus.Some? && world.gpus.value != [] ==>
            var gpus, policy := world.gpus.value, world.policy.value;
            match SelectAdmissionGpus(gpus, request)
            case None => !AllNamedAreKnown(gpus, request) && acquired == Refused(SelectionUnavailable)
            case Some(selected) =>
              && AllNamedAreKnown(gpus, request)
              && if !AllSized(request, selected, leases, world.now) then acquired == Refused(EstimateUnavailable)
                 else if AllAdmitted(request, selected, leases, world.now, policy) then acquired.Granted?
                 else acquired == Refused(InsufficientVram))
  {
    if world.policy.Some? && world.gpus.Some? && world.gpus.value != [] {
      SelectsSome(world.gpus.value, request);
      var selected := SelectAdmissionGpus(world.gpus.value, request);
      if selected.Some? {
        PlanDecidesEach(request, selected.value, leases, world.now, world.policy.value);
      }
    }
  }

  /**
   A granted lease is pending for its whole time to live, and reserves on each
   selected GPU what was asked for or, when that does not fit, all that is left.
   */
  lemma {:induction false} GrantedLease(leases: Leases, request: Request, world: World, ttl: nat, id: nat)
    requires Acquire(leases, request, world, ttl, id).Granted?
    ensures var lease := Acquire(leases, request, world, ttl, id).lease;
      var selected := SelectAdmissionGpus(world.gpus.value, request).value;
      && lease.id == id && lease.state == Pending && lease.containerName == request.containerName
      && lease.expiresAt == Some(world.now + ttl)
      && |lease.reservations| == |selected|
      && forall i | 0 <= i < |selected| ::
           ReservedFor(request, selected[i], HeldMb(leases, request, world.now, selected[i]), world.policy.value,
                       lease.reservations[i])
  {
    var lease := Acquire(leases, request, world, ttl, id).lease;
    var selected := SelectAdmissionGpus(world.gpus.value, request).value;
    forall i | 0 <= i < |selected|
      ensures ReservedFor(request, selected[i], HeldMb(leases, request, world.now, selected[i]), world.policy.value,
                          lease.reservations[i])
    {
      var heldMb := HeldMb(leases, request, world.now, selected[i]);
      assert DecideGpuReservation(request, selected[i], heldMb, world.policy.value).Some?;
      DecidesByBudget(request, selected[i], heldMb, world.policy.value);
    }
  }

  predicate ReservedFor(request: Request, gpu: Gpu, heldMb: nat, policy: Policy, reservation: Reservation) {
    && reservation.gpuKey == gpu.key
    && HasEstimate(request, gpu, heldMb)
    && if FitsOn(request, gpu, heldMb, policy)
       then Some(reservation.mb) == RequestedMbForGpu(request, gpu, heldMb)
       else
         && WithinBudget(gpu, policy, heldMb + reservation.mb)
         && !WithinBudget(gpu, policy, heldMb + reservation.mb + 1)
  }

  // ----- what stays in the ledger

  /** A stored lease counts exactly as long as its stamp lies ahead. */
  predicate Ahead(lease: Lease, now: int) {
    lease.expiresAt.Some? && now < lease.expiresAt.value
  }

  lemma {:induction false} PruneKeeps(leases: Leases, now: int, lease: Lease)
    ensures lease in Prune(leases, now) <==> lease in leases && Ahead(lease, now)
  {
    if leases != [] {
      PruneKeeps(leases[1..], now, lease);
    }
  }

  lemma {:induction false} WithoutKeeps(leases: Leases, ids: set<nat>, lease: Lease)
    ensures lease in Without(leases, ids) <==> lease in leases && lease.id !in ids
  {
    if leases != [] {
      WithoutKeeps(leases[1..], ids, lease);
    }
  }

  lemma {:induction false} PruneAppend(first: Leases, second: Leases, now: int)
    ensures Prune(first + second, now) == Prune(first, now) + Prune(second, now)
  {
    if first == [] {
      assert first + second == second;
    } else {
      assert (first + second)[1..] == first[1..] + second;
      PruneAppend(first[1..], second, now);
    }
  }

  /**
   Wherever a lease stands in the ledger, it holds its reservations until the
   instant of its stamp and not from then on; one without a stamp holds nothing.
   */
  lemma {:induction false} HoldsUntilStamp(before: Leases, lease: Lease, after: Leases, now: int, key: string)
    ensures ReservedMb(Prune(before + [lease] + after, now), key, {})
         == ReservedMb(Prune(before, now), key, {})
            + (if Ahead(lease, now) then LeaseMb(lease.reservations, key) else 0)
            + ReservedMb(Prune(after, now), key, {})
  {
    PruneAppend(before + [lease], after, now);
    PruneAppend(before, [lease], now);
    ReservedAppend(Prune(before + [lease], now), Prune(after, now), key, {});
    ReservedAppend(Prune(before, now), Prune([lease], now), key, {});
    assert [lease][1..] == [];
  }

  /**
   A grant adds its lease to those that are still ahead and not named for
   retirement; a refusal retires nothing, and drops what had expired exactly when
   it is for want of telemetry or of memory.
   */
  lemma {:induction false} AcquireLeaves(leases: Leases, request: Request, world: World, ttl: nat, id: nat,
                                         lease: Lease)
    ensures var acquired := Acquire(leases, request, world, ttl, id);
      var after := LedgerAfterAcquire(leases, request, world, ttl, id);
      match acquired
      case Granted(granted, _) =>
        lease in after <==>
          lease == granted || (lease in leases && Ahead(lease, world.now) && lease.id !in request.retireLeaseIds)
      case Refused(error) =>
        lease in after <==>
          lease in leases && (error == TelemetryUnavailable || error == InsufficientVram ==> Ahead(lease, world.now))
  {
    PruneKeeps(leases, world.now, lease);
    WithoutKeeps(Prune(leases, world.now), request.retireLeaseIds, lease);
  }

  predicate PendingUntil(lease: Lease, id: nat, until: int) {
    lease.id == id && lease.state == Pending && lease.expiresAt == Some(until)
  }

  lemma {:induction false} GrantStays(leases: Leases, request: Request, world: World, ttl: nat, id: nat)
    requires Acquire(leases, request, world, ttl, id).Granted?
    ensures var after := LedgerAfterAcquire(leases, request, world, ttl, id);
      exists lease :: lease in after && PendingUntil(lease, id, world.now + ttl)
  {
    var lease := Acquire(leases, request, world, ttl, id).lease;
    GrantedLease(leases, request, world, ttl, id);
    AcquireLeaves(leases, request, world, ttl, id, lease);
    assert PendingUntil(lease, id, world.now + ttl);
  }

  /** There is room for the launch on every GPU that it selects. */
  predicate HasRoom(leases: Leases, request: Request, world: World) {
    && world.policy.Some? && world.gpus.Some? && world.gpus.value != []
    && var selected := SelectAdmissionGpus(world.gpus.value, request);
       && selected.Some? && AllSized(request, selected.value, leases, world.now)
       && AllAdmitted(request, selected.value, leases, world.now, world.policy.value)
  }

  lemma {:induction false} RoomIsGranted(leases: Leases, request: Request, world: World, ttl: nat, id: nat)
    requires HasRoom(leases, request, world)
    ensures Acquire(leases, request, world, ttl, id).Granted?
  {
    AcquireAnswers(leases, request, world, ttl, id);
  }

  /** In a run of the ledger, a launch that has room gets its lease. */
  lemma {:induction false} RunsAdmit(leases: Leases, event: Event, gpus: seq<Gpu>, policy: Policy)
    requires event.op.DoAcquire? && event.policyRead && event.telemetryRead
    requires HasRoom(leases, event.op.request, World(event.now, Some(policy), Some(gpus)))
    ensures var after := Apply(leases, event, gpus, policy);
      exists lease :: lease in after && PendingUntil(lease, event.op.id, event.now + event.op.ttl)
  {
    var world := World(event.now, Some(policy), Some(gpus));
    RoomIsGranted(leases, event.op.request, world, event.op.ttl, event.op.id);
    GrantStays(leases, event.op.request, world, event.op.ttl, event.op.id);
    assert Apply(leases, event, gpus, policy)
        == LedgerAfterAcquire(leases, event.op.request, world, event.op.ttl, event.op.id);
  }

  /** One whose policy or telemetry cannot be read gets none. */
  lemma {:induction false} RunsRefuse(leases: Leases, request: Request, id: nat, ttl: nat, now: int, gpus: seq<Gpu>,
                                      policy: Policy, policyRead: bool, telemetryRead: bool, lease: Lease)
    requires !policyRead || !telemetryRead
    ensures lease in Apply(leases, Event(DoAcquire(request, id, ttl), now, policyRead, telemetryRead), gpus, policy)
      <==> lease in leases && (policyRead ==> Ahead(lease, now))
  {
    var world := World(now, if policyRead then Some(policy) else None, if telemetryRead then Some(gpus) else None);
    AcquireLeaves(leases, request, world, ttl, id, lease);
  }

  // ----- renew, commit and release

  lemma {:induction false} RenewInAt(leases: Leases, id: nat, until: int, i: nat)
    requires i < |leases|
    ensures |RenewIn(leases, id, until)| == |leases|
    ensures RenewIn(leases, id, until)[i] == RenewLease(leases[i], until) || leases[i].id != id
    ensures RenewIn(leases, id, until)[i] == leases[i] || leases[i].id == id
  {
    if i > 0 {
      RenewInAt(leases[1..], id, until, i - 1);
    } else if |leases| > 1 {
      RenewInAt(leases[1..], id, until, 0);
    }
  }

  lemma {:induction false} CommitInAt(leases: Leases, id: nat, until: int, containerName: string, i: nat)
    requires i < |leases|
    ensures |CommitIn(leases, id, until, containerName)| == |leases|
    ensures CommitIn(leases, id, until, containerName)[i] == CommitLease(leases[i], until, containerName)
      || leases[i].id != id
    ensures CommitIn(leases, id, until, containerName)[i] == leases[i] || leases[i].id == id
  {
    if i > 0 {
      CommitInAt(leases[1..], id, until, containerName, i - 1);
    } else if |leases| > 1 {
      CommitInAt(leases[1..], id, until, containerName, 0);
    }
  }

  /** A renewal gives the pending lease of that id another time to live, and leaves every other lease alone. */
  lemma RenewChangesOne(leases: Leases, id: nat, now: int, ttl: nat, i: nat)
    requires i < |Prune(leases, now)|
    ensures var was, renewed := Prune(leases, now)[i], Renew(leases, id, now, ttl);
      && |renewed| == |Prune(leases, now)|
      && renewed[i] ==
         if was.id == id && was.state == Pending
         then Lease(id, Pending, was.containerName, Some(now + ttl), was.reservations) else was
  {
    RenewInAt(Prune(leases, now), id, now + ttl, i);
  }

  /**
   With a cooldown, a commit keeps the reservations of the lease for that long
   and no longer, whether it was pending or committed before; every other lease
   is left alone.
   */
  lemma CommitChangesOne(leases: Leases, id: nat, now: int, cooldown: nat, containerName: string, i: nat)
    requires cooldown > 0 && i < |Prune(leases, now)|
    ensures var was, committed := Prune(leases, now)[i], Commit(leases, id, now, cooldown, containerName);
      && |committed| == |Prune(leases, now)|
      && committed[i] ==
         if was.id == id
         then Lease(id, Committed, if containerName != "" then containerName else was.containerName,
                    Some(now + cooldown), was.reservations)
         else was
  {
    CommitInAt(Prune(leases, now), id, now + cooldown, containerName, i);
  }

  /** A release, and a commit without a cooldown, drop the leases of that id and keep those still ahead. */
  lemma ReleaseDropsOne(leases: Leases, id: nat, now: int, containerName: string, lease: Lease)
    ensures lease in Release(leases, id, now) <==> lease in leases && Ahead(lease, now) && lease.id != id
    ensures lease in Commit(leases, id, now, 0, containerName)
      <==> lease in leases && Ahead(lease, now) && lease.id != id
  {
    PruneKeeps(leases, now, lease);
    WithoutKeeps(Prune(leases, now), {id}, lease);
  }
}
