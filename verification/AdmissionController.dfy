/**
 The admission controller: the ledger updated in place, and an admission that
 first stops the container it replaces.
 */
module AdmissionController {
  import opened Wrappers
  import opened AdmissionBudget
  import opened AdmissionLedger
  import opened AdmissionAnswers
  import Preview = AdmissionPreview
  import opened ContainerReplacement

  // ----- a replacement admission on values

  datatype Outcome =
    | NotPrepared(begun: Begun)
    | Admitted(lease: Lease, handle: Handle)
    | RefusedAfterPrepare(error: AdmissionError, rolledBack: Ended)

  /** The container to replace, the name for its backup, and the manager that asks. */
  datatype Target = Target(originalName: string, backupName: string, managerId: string)

  function AcquireAfterPrepare(d: Docker, target: Target, leases: Leases, request: Request, world: World, ttl: nat,
                               id: nat)
    : (Docker, Leases, Outcome)
  {
    var (d1, begun) := Begin(d, target.originalName, target.backupName, target.managerId);
    if !begun.Begun? then (d1, leases, NotPrepared(begun))
    else
      var leases' := LedgerAfterAcquire(leases, request, world, ttl, id);
      match Acquire(leases, request, world, ttl, id)
      case Granted(lease, _) => (d1, leases', Admitted(lease, begun.handle))
      case Refused(error) =>
        var (d2, _, ended) := Rollback(d1, begun.handle);
        (d2, leases', RefusedAfterPrepare(error, ended))
  }

  /** A replacement that began, and whose rollback returns, leaves Docker exactly as it was. */
  lemma RolledBackRestores(d: Docker, target: Target)
    requires target.originalName in d.containers
    ensures var (d1, begun) := Begin(d, target.originalName, target.backupName, target.managerId);
      begun.Begun? && Rollback(d1, begun.handle).2.Returned? ==> Rollback(d1, begun.handle).0.containers == d.containers
  {
    var (d1, begun) := Begin(d, target.originalName, target.backupName, target.managerId);
    if begun.Begun? {
      BegunBackupIsNew(d, target.originalName, target.backupName, target.managerId);
      BeginOutcome(d, target.originalName, target.backupName, target.managerId);
      RollbackRestores(d1, begun.handle);
      var previous := d.containers[target.originalName];
      assert (d1.containers - {target.backupName})[target.originalName := previous] == d.containers;
    }
  }

  /**
   A replacement that is refused admission, and whose rollback returns, leaves
   Docker exactly as it was and keeps every unexpired lease, those named for
   retirement included.
   */
  lemma RefusedReplacementRestores(d: Docker, target: Target, leases: Leases, request: Request, world: World, ttl: nat,
                                   id: nat)
    requires target.originalName in d.containers
    ensures var (d', leases', outcome) := AcquireAfterPrepare(d, target, leases, request, world, ttl, id);
      outcome.RefusedAfterPrepare? && outcome.rolledBack.Returned? ==>
        && d'.containers == d.containers
        && (forall lease | lease in leases && Ahead(lease, world.now) :: lease in leases')
  {
    RolledBackRestores(d, target);
    forall lease | lease in leases && Ahead(lease, world.now) ensures lease in Prune(leases, world.now) {
      PruneKeeps(leases, world.now, lease);
    }
  }

  /**
   A launch that replaces a container asks for memory exactly when the
   replacement began, and is admitted exactly when it began and the memory was
   granted; otherwise the lease file changes only as a refused acquire does.
   */
  lemma {:induction false} ReplacementAdmitsIff(d: Docker, target: Target, leases: Leases, request: Request,
                                                world: World, ttl: nat, id: nat)
    ensures var (d1, begun) := Begin(d, target.originalName, target.backupName, target.managerId);
      var acquired := Acquire(leases, request, world, ttl, id);
      var (d', leases', outcome) := AcquireAfterPrepare(d, target, leases, request, world, ttl, id);
      && (outcome.NotPrepared? <==> !begun.Begun?)
      && (outcome.NotPrepared? ==> outcome.begun == begun && d' == d1 && leases' == leases)
      && (outcome.Admitted? <==> begun.Begun? && acquired.Granted?)
      && (outcome.Admitted? ==>
            d' == d1 && outcome.handle == begun.handle && outcome.lease == acquired.lease && outcome.lease in leases')
      && (outcome.RefusedAfterPrepare? ==>
            && acquired == Refused(outcome.error)
            && outcome.rolledBack == Rollback(d1, begun.handle).2 && d' == Rollback(d1, begun.handle).0
            && forall lease | lease in leases' :: lease in leases)
  {
    forall lease | lease in Prune(leases, world.now) ensures lease in leases {
      PruneKeeps(leases, world.now, lease);
    }
  }

  /** Whatever fails, at every step the replaced container exists under one of its two names. */
  lemma ReplacementKeepsPrevious(d: Docker, target: Target, leases: Leases, request: Request, world: World, ttl: nat,
                                 id: nat)
    requires target.originalName in d.containers
    ensures Keeps(d, AcquireAfterPrepare(d, target, leases, request, world, ttl, id).0,
                  target.originalName, target.backupName, d.containers[target.originalName].id)
  {
    var container := d.containers[target.originalName];
    var (d1, begun) := Begin(d, target.originalName, target.backupName, target.managerId);
    BeginKeepsPrevious(d, target.originalName, target.backupName, target.managerId);
    if begun.Begun? {
      BegunBackupIsNew(d, target.originalName, target.backupName, target.managerId);
      BeginOutcome(d, target.originalName, target.backupName, target.managerId);
      RollbackKeepsPrevious(d1, begun.handle, container.id);
      KeepsTransitive(d, d1, Rollback(d1, begun.handle).0, target.originalName, target.backupName, container.id);
    }
  }

  // ----- what the lists hold

  predicate Has(leases: Leases, id: nat) {
    exists i | 0 <= i < |leases| :: leases[i].id == id
  }

  lemma HasUnexpired(leases: Leases, now: int, id: nat)
    ensures Has(Prune(leases, now), id) <==> exists lease :: lease in leases && Ahead(lease, now) && lease.id == id
  {
    var kept := Prune(leases, now);
    forall lease ensures lease in kept <==> lease in leases && Ahead(lease, now) {
      PruneKeeps(leases, now, lease);
    }
    if lease :| lease in leases && Ahead(lease, now) && lease.id == id {
      assert lease in kept;
    }
    if i :| 0 <= i < |kept| && kept[i].id == id {
      assert kept[i] in kept;
    }
  }

  lemma WithoutGone(leases: Leases, id: nat)
    ensures forall lease | lease in Without(leases, {id}) :: lease.id != id
  {
    forall lease | lease in Without(leases, {id}) ensures lease.id != id {
      WithoutKeeps(leases, {id}, lease);
    }
  }

  predicate HasPending(leases: Leases, id: nat) {
    exists i | 0 <= i < |leases| :: leases[i].id == id && leases[i].state.Pending?
  }

  lemma PendingUnexpired(leases: Leases, now: int, id: nat)
    ensures HasPending(Prune(leases, now), id)
      <==> exists lease :: lease in leases && Ahead(lease, now) && lease.id == id && lease.state.Pending?
  {
    var kept := Prune(leases, now);
    forall lease ensures lease in kept <==> lease in leases && Ahead(lease, now) {
      PruneKeeps(leases, now, lease);
    }
    if lease :| lease in leases && Ahead(lease, now) && lease.id == id && lease.state.Pending? {
      assert lease in kept;
    }
    if i :| 0 <= i < |kept| && kept[i].id == id && kept[i].state.Pending? {
      assert kept[i] in kept;
    }
  }

  lemma {:induction false} RenewedIn(leases: Leases, id: nat, until: int)
    requires HasPending(leases, id)
    ensures exists lease :: lease in RenewIn(leases, id, until) && lease.id == id && lease.expiresAt == Some(until)
  {
    if leases[0].id == id && leases[0].state.Pending? {
      assert RenewLease(leases[0], until) in RenewIn(leases, id, until);
    } else {
      var i :| 0 <= i < |leases| && leases[i].id == id && leases[i].state.Pending?;
      assert leases[1..][i - 1] == leases[i];
      RenewedIn(leases[1..], id, until);
      var lease :| lease in RenewIn(leases[1..], id, until) && lease.id == id && lease.expiresAt == Some(until);
      assert lease in RenewIn(leases, id, until);
    }
  }

  // ----- the controller object

  class Controller {
    var leases: Leases
    const leaseTtl: nat
    const cooldown: nat

    constructor (leaseTtl: nat, cooldown: nat)
      ensures leases == [] && this.leaseTtl == leaseTtl && this.cooldown == cooldown
    {
      leases := [];
      this.leaseTtl := leaseTtl;
      this.cooldown := cooldown;
    }

    static method PruneExpired(state: Leases, now: int) returns (kept: Leases)
      ensures kept == Prune(state, now)
    {
      kept := [];
      for i := 0 to |state|
        invariant kept + Prune(state[i..], now) == Prune(state, now)
      {
        assert state[i..][1..] == state[i + 1..];
        if !Expired(state[i], now) {
          kept := kept + [state[i]];
        }
      }
      assert kept + [] == kept;
    }

    static method ActiveReservedMb(state: Leases, key: string, excluded: set<nat>) returns (total: nat)
      ensures total == ReservedMb(state, key, excluded)
    {
      total := 0;
      for i := 0 to |state|
        invariant total + ReservedMb(state[i..], key, excluded) == ReservedMb(state, key, excluded)
      {
        assert state[i..][1..] == state[i + 1..];
        if state[i].id !in excluded {
          var reservations := state[i].reservations;
          ghost var before := total;
          for j := 0 to |reservations|
            invariant total + LeaseMb(reservations[j..], key) == before + LeaseMb(reservations, key)
          {
            assert reservations[j..][1..] == reservations[j + 1..];
            if reservations[j].gpuKey == key {
              total := total + reservations[j].mb;
            }
          }
        }
      }
    }

    static method DecideAdmission(request: Request, gpus: seq<Gpu>, state: Leases, excluded: set<nat>, policy: Policy)
      returns (plan: Plan)
      ensures plan == AdmissionDecisions(request, gpus, state, excluded, policy)
    {
      var selection := SelectAdmissionGpus(gpus, request);
      if selection.None? || selection.value == [] { return NoPlan(SelectionUnavailable); }
      var selected := selection.value;
      var decisions: seq<Decision> := [];
      for i := 0 to |selected|
        invariant |decisions| == i
        invariant forall j | 0 <= j < i ::
          Some(decisions[j])
            == DecideGpuReservation(request, selected[j], ReservedMb(state, selected[j].key, excluded), policy)
      {
        var pendingMb := ActiveReservedMb(state, selected[i].key, excluded);
        var decision := DecideGpuReservation(request, selected[i], pendingMb, policy);
        if decision.None? { return NoPlan(EstimateUnavailable); }
        decisions := decisions + [decision.value];
      }
      DecidesWhenEach(request, selected, state, excluded, policy);
      assert DecideAll(request, selected, state, excluded, policy).value == decisions;
      return Plan(decisions);
    }

    method AcquireUnlocked(request: Request, world: World, id: nat) returns (acquired: Acquired)
      modifies this`leases
      ensures acquired == Acquire(old(leases), request, world, leaseTtl, id)
      ensures leases == LedgerAfterAcquire(old(leases), request, world, leaseTtl, id)
    {
      var state := PruneExpired(leases, world.now);
      if world.policy.None? { return Refused(PolicyUnavailable); }
      if world.gpus.None? || world.gpus.value == [] {
        leases := state;
        return Refused(TelemetryUnavailable);
      }
      var plan := DecideAdmission(request, world.gpus.value, state, request.retireLeaseIds, world.policy.value);
      if plan.NoPlan? { return Refused(plan.error); }
      if AnyBlocked(plan.decisions) {
        leases := state;
        return Refused(InsufficientVram);
      }
      var lease := NewLease(request, plan.decisions, world.now, leaseTtl, id);
      leases := Without(state, request.retireLeaseIds) + [lease];
      return Granted(lease, plan.decisions);
    }

    method RenewById(id: nat, now: int) returns (renewed: bool)
      modifies this`leases
      ensures leases == Renew(old(leases), id, now, leaseTtl)
      ensures renewed
        <==> exists lease :: lease in old(leases) && Ahead(lease, now) && lease.id == id && lease.state.Pending?
      ensures renewed ==> exists lease :: lease in leases && lease.id == id && lease.expiresAt == Some(now + leaseTtl)
    {
      var state := PruneExpired(leases, now);
      renewed := HasPending(state, id);
      PendingUnexpired(leases, now, id);
      if renewed {
        RenewedIn(state, id, now + leaseTtl);
      }
      leases := RenewIn(state, id, now + leaseTtl);
    }

    method CommitById(id: nat, now: int, containerName: string) returns (committed: bool)
      modifies this`leases
      ensures leases == AdmissionLedger.Commit(old(leases), id, now, cooldown, containerName)
      ensures committed <==> exists lease :: lease in old(leases) && Ahead(lease, now) && lease.id == id
      ensures cooldown == 0 ==> forall lease | lease in leases :: lease.id != id
    {
      var state := PruneExpired(leases, now);
      committed := Has(state, id);
      HasUnexpired(leases, now, id);
      WithoutGone(state, id);
      if cooldown == 0 {
        leases := Without(state, {id});
      } else {
        leases := CommitIn(state, id, now + cooldown, containerName);
      }
    }

    method ReleaseById(id: nat, now: int) returns (released: bool)
      modifies this`leases
      ensures leases == Release(old(leases), id, now)
      ensures released <==> exists lease :: lease in old(leases) && Ahead(lease, now) && lease.id == id
      ensures forall lease | lease in leases :: lease.id != id
    {
      var state := PruneExpired(leases, now);
      released := Has(state, id);
      HasUnexpired(leases, now, id);
      WithoutGone(state, id);
      leases := Without(state, {id});
    }

    /** The preview reads the ledger and writes nothing. */
    method Evaluate(request: Request, replace: bool, world: World, released: map<string, real>)
      returns (preview: Preview.Preview)
      ensures preview == Preview.Evaluate(leases, request, replace, world, released)
    {
      if world.policy.None? { return Preview.Unknown(PolicyUnavailable); }
      if world.gpus.None? || world.gpus.value == [] { return Preview.Unknown(TelemetryUnavailable); }
      var state := PruneExpired(leases, world.now);
      var gpus := Preview.ApplyReleasedMemory(world.gpus.value, released);
      var excluded := Preview.Excluded(state, request, replace);
      var plan := DecideAdmission(request, gpus, state, excluded, world.policy.value);
      if plan.NoPlan? { return Preview.Unknown(plan.error); }
      var verdict := if AnyBlocked(plan.decisions) then Blocked else if AnyClamped(plan.decisions) then Clamped
        else Fits;
      return Preview.Known(verdict, plan.decisions);
    }

    method AcquirePrepared(engine: Engine, target: Target, request: Request, world: World, id: nat)
      returns (outcome: Outcome, replacement: Replacement?)
      modifies this`leases, engine
      ensures (engine.docker, leases, outcome) ==
              AcquireAfterPrepare(old(engine.docker), target, old(leases), request, world, leaseTtl, id)
      ensures outcome.Admitted? ==>
        replacement != null && replacement.engine == engine && replacement.handle == outcome.handle
    {
      var begun, prepared := BeginReplacement(engine, target.originalName, target.backupName, target.managerId);
      if prepared == null { return NotPrepared(begun), null; }
      var acquired := AcquireUnlocked(request, world, id);
      match acquired
      case Granted(lease, _) =>
        return Admitted(lease, begun.handle), prepared;
      case Refused(error) =>
        var ended := prepared.RollbackReplacement();
        return RefusedAfterPrepare(error, ended), null;
    }
  }
}
