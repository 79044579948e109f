/**
 The preview of an admission, and the fraction it suggests, against the acquire
 that a launch would make.
 */
module AdmissionPreview {
  import opened Wrappers
  import opened AdmissionBudget
  import opened AdmissionLedger

  datatype Preview = Known(verdict: Verdict, decisions: seq<Decision>) | Unknown(error: AdmissionError)

  /** The nearest integer, and the larger one of two. */
  function Round(r: real): (n: int)
    ensures n as real - 0.5 <= r < n as real + 0.5
  {
    (r + 0.5).Floor
  }

  /** The telemetry after the replaced container has given its memory back. */
  function ReleaseOn(gpu: Gpu, released: map<string, real>): Gpu {
    var releasedMb := FirstPositive(gpu.aliases, released);
    if releasedMb.None? then gpu
    else
      var usedMb := Max(0, gpu.usedMb - Round(releasedMb.value));
      gpu.(usedMb := usedMb, freeMb := Max(0, Min(gpu.totalMb, gpu.freeMb + (gpu.usedMb - usedMb))))
  }

  function ApplyReleasedMemory(gpus: seq<Gpu>, released: map<string, real>): (r: seq<Gpu>)
    ensures |r| == |gpus|
  {
    if gpus == [] then [] else [ReleaseOn(gpus[0], released)] + ApplyReleasedMemory(gpus[1..], released)
  }

  /** What a GPU gives back becomes free: no more than was used, and no more than fits the device. */
  ghost predicate GivesBack(before: Gpu, after: Gpu, releasedMb: Option<real>) {
    var given := before.usedMb - after.usedMb;
    && after.key == before.key && after.aliases == before.aliases && after.totalMb == before.totalMb
    && (releasedMb.None? ==> after == before)
    && (releasedMb.Some? ==>
          && given == Min(before.usedMb, Round(releasedMb.value))
          && after.freeMb == Min(before.totalMb, before.freeMb + given))
  }

  lemma {:induction false} EachGivesBack(gpus: seq<Gpu>, released: map<string, real>, i: nat)
    requires i < |gpus|
    ensures GivesBack(gpus[i], ApplyReleasedMemory(gpus, released)[i], FirstPositive(gpus[i].aliases, released))
  {
    if i > 0 {
      EachGivesBack(gpus[1..], released, i - 1);
    }
  }

  function LeasesOf(leases: Leases, containerName: string): set<nat> {
    set lease | lease in leases && lease.containerName == containerName :: lease.id
  }

  function Excluded(leases: Leases, request: Request, replace: bool): set<nat> {
    if replace && request.containerName != ""
    then request.retireLeaseIds + LeasesOf(leases, request.containerName)
    else request.retireLeaseIds
  }

  function Evaluate(leases: Leases, request: Request, replace: bool, world: World,
                    released: map<string, real>): Preview {
    if world.policy.None? then Unknown(PolicyUnavailable)
    else if world.gpus.None? || world.gpus.value == [] then Unknown(TelemetryUnavailable)
    else
      var pruned := Prune(leases, world.now);
      match AdmissionDecisions(request, ApplyReleasedMemory(world.gpus.value, released), pruned,
                               Excluded(pruned, request, replace), world.policy.value)
      case NoPlan(error) => Unknown(error)
      case Plan(decisions) =>
        Known(if AnyBlocked(decisions) then Blocked else if AnyClamped(decisions) then Clamped else Fits, decisions)
  }

  /** The ids named for retirement cover the leases of the container that is replaced. */
  predicate RetirementCovers(leases: Leases, request: Request, replace: bool) {
    replace && request.containerName != "" ==> LeasesOf(leases, request.containerName) <= request.retireLeaseIds
  }

  /**
   A preview tells what acquire does on the same ledger once the released
   memory is visible in the telemetry: it refuses with the same code, or admits
   with the same per-GPU reservations.
   */
  lemma {:induction false} PreviewPredictsAcquire(leases: Leases, request: Request, replace: bool, world: World,
                               released: map<string, real>, ttl: nat, id: nat)
    requires RetirementCovers(Prune(leases, world.now), request, replace)
    ensures
      var later := if world.gpus.Some? then world.(gpus := Some(ApplyReleasedMemory(world.gpus.value, released)))
        else world;
      var preview := Evaluate(leases, request, replace, world, released);
      var acquired := Acquire(leases, request, later, ttl, id);
      && (preview.Known? && !preview.verdict.Blocked? <==> acquired.Granted?)
      && (preview.Known? && preview.verdict.Blocked? <==> acquired == Refused(InsufficientVram))
      && (preview.Unknown? ==> acquired == Refused(preview.error))
      && (acquired.Granted? ==>
            && acquired.decisions == preview.decisions
            && acquired.lease.reservations == Reservations(preview.decisions)
            && (preview.verdict.Clamped? <==> AnyClamped(acquired.decisions)))
  {
    var pruned := Prune(leases, world.now);
    assert Excluded(pruned, request, replace) == request.retireLeaseIds;
  }

  /** A preview sets aside what the launch names for retirement and, in a replacement, all leases of the container. */
  lemma ExcludedIff(leases: Leases, request: Request, replace: bool, id: nat)
    ensures id in Excluded(leases, request, replace) <==>
      || id in request.retireLeaseIds
      || (replace && request.containerName != ""
          && exists i :: 0 <= i < |leases| && leases[i].containerName == request.containerName && leases[i].id == id)
  {
    if replace && request.containerName != "" && id in LeasesOf(leases, request.containerName) {
      var lease :| lease in leases && lease.containerName == request.containerName && lease.id == id;
      var i :| 0 <= i < |leases| && leases[i] == lease;
    }
  }

  /**
   A preview of any launch tells what acquire does, once the released memory is
   visible in the telemetry, when it retires all that the preview set aside.
   */
  lemma {:induction false} PreviewPredictsRetiring(leases: Leases, request: Request, replace: bool, world: World,
                                                   released: map<string, real>, ttl: nat, id: nat)
    ensures
      var retiring := request.(retireLeaseIds := Excluded(Prune(leases, world.now), request, replace));
      var later := if world.gpus.Some? then world.(gpus := Some(ApplyReleasedMemory(world.gpus.value, released)))
        else world;
      var preview, acquired := Evaluate(leases, request, replace, world, released),
        Acquire(leases, retiring, later, ttl, id);
      && (preview.Known? && !preview.verdict.Blocked? <==> acquired.Granted?)
      && (preview.Known? && preview.verdict.Blocked? <==> acquired == Refused(InsufficientVram))
      && (preview.Unknown? ==> acquired == Refused(preview.error))
      && (acquired.Granted? ==> acquired.decisions == preview.decisions)
  {
    if world.gpus.Some? && world.policy.Some? {
      var excluded := Excluded(Prune(leases, world.now), request, replace);
      RetiringDecidesAlike(request, ApplyReleasedMemory(world.gpus.value, released), Prune(leases, world.now), excluded,
                           world.policy.value);
    }
  }

  /** What a launch retires does not size it. */
  lemma {:induction false} RetiringDecidesAlike(request: Request, gpus: seq<Gpu>, leases: Leases, excluded: set<nat>,
                                                policy: Policy)
    ensures AdmissionDecisions(request.(retireLeaseIds := excluded), gpus, leases, excluded, policy)
         == AdmissionDecisions(request, gpus, leases, excluded, policy)
  {
    var retiring := request.(retireLeaseIds := excluded);
    var selected := SelectAdmissionGpus(gpus, request);
    assert SelectAdmissionGpus(gpus, retiring) == selected;
    if selected.Some? {
      DecidesAlike(request, retiring, selected.value, leases, excluded, policy);
    }
  }

  lemma {:induction false} DecidesAlike(request: Request, retiring: Request, selected: seq<Gpu>, leases: Leases,
                                        excluded: set<nat>, policy: Policy)
    requires retiring == request.(retireLeaseIds := retiring.retireLeaseIds)
    ensures DecideAll(retiring, selected, leases, excluded, policy)
         == DecideAll(request, selected, leases, excluded, policy)
  {
    if selected != [] {
      DecidesAlike(request, retiring, selected[1..], leases, excluded, policy);
    }
  }

  // ----- the suggested fraction

  /** The smallest suggestion of the selected GPUs, or None when one has none. */
  function MaxFraction(decisions: seq<Decision>): Option<real>
    requires decisions != []
  {
    if |decisions| == 1 then decisions[0].maxFraction
    else
      var rest := MaxFraction(decisions[1..]);
      if decisions[0].maxFraction.None? || rest.None? then None
      else if decisions[0].maxFraction.value < rest.value then decisions[0].maxFraction else rest
  }

  lemma {:induction false} MaxFractionIsLeast(decisions: seq<Decision>)
    requires decisions != []
    ensures var m := MaxFraction(decisions);
      && (m.None? <==> exists i | 0 <= i < |decisions| :: decisions[i].maxFraction.None?)
      && (m.Some? ==> forall i | 0 <= i < |decisions| ::
            decisions[i].maxFraction.Some? && m.value <= decisions[i].maxFraction.value)
      && (m.Some? ==> exists i | 0 <= i < |decisions| :: decisions[i].maxFraction == m)
  {
    if |decisions| > 1 {
      MaxFractionIsLeast(decisions[1..]);
      assert forall i | 1 <= i < |decisions| :: decisions[i] == decisions[1..][i - 1];
    }
  }

  /** The suggestion does not depend on where the knob stands now. */
  lemma CurrentFractionDecides(request: Request, knob: Knob, gpu: Gpu, pendingMb: nat, policy: Policy)
    requires SizedOnlyBy(request, knob) && gpu.totalMb > 0
    ensures var decision := DecideGpuReservation(request, gpu, pendingMb, policy);
      && decision.Some?
      && decision.value.maxFraction
        == LargestPassingFraction(request, gpu, pendingMb, AvailableMb(gpu, pendingMb, policy))
  {
    var fraction := if knob.FractionOfFree? then request.requestedFractionOfFree.value
      else request.requestedFraction.value;
    assert WithFraction(request, knob, fraction) == request;
    FractionFitsBelow(request, knob, gpu, pendingMb, policy, fraction);
  }

  lemma {:induction false} FractionOnSelected(request: Request, knob: Knob, selected: seq<Gpu>, leases: Leases,
                                              excluded: set<nat>,
                           policy: Policy, fraction: real)
    requires SizedOnlyBy(request, knob) && 0.0 < fraction <= 1.0
    requires selected != [] && forall gpu | gpu in selected :: gpu.totalMb > 0
    ensures
      var before := DecideAll(request, selected, leases, excluded, policy);
      var after := DecideAll(WithFraction(request, knob, fraction), selected, leases, excluded, policy);
      && before.Some? && after.Some?
      && var m := MaxFraction(before.value);
         && (m.Some? && fraction <= m.value ==> forall i | 0 <= i < |selected| :: after.value[i].verdict.Fits?)
         && (m.None? || fraction >= m.value + MIN_FRACTION_STEP ==>
               exists i :: 0 <= i < |selected| && !after.value[i].verdict.Fits?)
         && (request.poolCappedTokens == 0 ==> forall i | 0 <= i < |selected| :: !after.value[i].verdict.Clamped?)
  {
    var turned := WithFraction(request, knob, fraction);
    forall i | 0 <= i < |selected|
      ensures DecideGpuReservation(request, selected[i], ReservedMb(leases, selected[i].key, excluded), policy).Some?
      ensures DecideGpuReservation(turned, selected[i], ReservedMb(leases, selected[i].key, excluded), policy).Some?
    {
      var pendingMb := ReservedMb(leases, selected[i].key, excluded);
      FractionFitsBelow(request, knob, selected[i], pendingMb, policy, fraction);
      CurrentFractionDecides(request, knob, selected[i], pendingMb, policy);
    }
    DecidesWhenEach(request, selected, leases, excluded, policy);
    DecidesWhenEach(turned, selected, leases, excluded, policy);
    var before := DecideAll(request, selected, leases, excluded, policy).value;
    var after := DecideAll(turned, selected, leases, excluded, policy).value;
    MaxFractionIsLeast(before);
    forall i | 0 <= i < |selected|
      ensures before[i].maxFraction.None? ==> !after[i].verdict.Fits?
      ensures before[i].maxFraction.Some? && fraction <= before[i].maxFraction.value ==> after[i].verdict.Fits?
      ensures before[i].maxFraction.Some? && fraction >= before[i].maxFraction.value + MIN_FRACTION_STEP ==>
        !after[i].verdict.Fits?
      ensures request.poolCappedTokens == 0 ==> !after[i].verdict.Clamped?
    {
      var pendingMb := ReservedMb(leases, selected[i].key, excluded);
      FractionFitsBelow(request, knob, selected[i], pendingMb, policy, fraction);
      CurrentFractionDecides(request, knob, selected[i], pendingMb, policy);
    }
  }

  lemma {:induction false} AcquireFollowsPlan(leases: Leases, request: Request, world: World, ttl: nat, id: nat,
                                              decisions: seq<Decision>)
    requires world.policy.Some? && world.gpus.Some? && world.gpus.value != []
    requires AdmissionDecisions(request, world.gpus.value, Prune(leases, world.now), request.retireLeaseIds,
                                world.policy.value) == Plan(decisions)
    ensures var acquired := Acquire(leases, request, world, ttl, id);
      if AnyBlocked(decisions) then acquired == Refused(InsufficientVram)
      else acquired.Granted? && acquired.decisions == decisions
  {
  }

  /**
   The fraction shown to the user is sound and maximal: turning the knob to it,
   or to anything below it, is admitted on every selected GPU without a clamp;
   turning it one thousandth further or more is refused unless a pool cap
   allows a clamp; without a suggestion nothing fits.
   */
  lemma {:induction false} SuggestedFraction(leases: Leases, request: Request, world: World, ttl: nat, id: nat,
                                             knob: Knob, fraction: real)
    requires SizedOnlyBy(request, knob) && 0.0 < fraction <= 1.0
    requires world.policy.Some? && world.gpus.Some? && world.gpus.value != []
    requires forall gpu | gpu in world.gpus.value :: gpu.totalMb > 0
    requires SelectAdmissionGpus(world.gpus.value, request).Some? &&
      SelectAdmissionGpus(world.gpus.value, request).value != []
    ensures
      var plan := AdmissionDecisions(request, world.gpus.value, Prune(leases, world.now), request.retireLeaseIds,
        world.policy.value);
      var acquired := Acquire(leases, WithFraction(request, knob, fraction), world, ttl, id);
      && plan.Plan? && plan.decisions != []
      && var m := MaxFraction(plan.decisions);
         && (m.Some? && fraction <= m.value ==> acquired.Granted? && !AnyClamped(acquired.decisions))
         && (m.None? || fraction >= m.value + MIN_FRACTION_STEP ==>
               if request.poolCappedTokens == 0 then acquired == Refused(InsufficientVram)
               else acquired.Granted? ==> AnyClamped(acquired.decisions))
  {
    var selected := SelectAdmissionGpus(world.gpus.value, request).value;
    var turned := WithFraction(request, knob, fraction);
    var pruned, excluded := Prune(leases, world.now), request.retireLeaseIds;
    FractionOnSelected(request, knob, selected, pruned, excluded, world.policy.value, fraction);
    var after := DecideAll(turned, selected, pruned, excluded, world.policy.value).value;
    assert AdmissionDecisions(turned, world.gpus.value, pruned, excluded, world.policy.value) == Plan(after);
    AcquireFollowsPlan(leases, turned, world, ttl, id, after);
    VerdictsDecide(after, request.poolCappedTokens);
  }

  /** What the verdicts on each GPU mean for the launch. */
  lemma VerdictsDecide(decisions: seq<Decision>, poolCappedTokens: nat)
    requires poolCappedTokens == 0 ==> forall i | 0 <= i < |decisions| :: !decisions[i].verdict.Clamped?
    ensures (forall i | 0 <= i < |decisions| :: decisions[i].verdict.Fits?) ==>
      !AnyBlocked(decisions) && !AnyClamped(decisions)
    ensures (exists i :: 0 <= i < |decisions| && !decisions[i].verdict.Fits?) ==>
      AnyBlocked(decisions) || AnyClamped(decisions)
    ensures poolCappedTokens == 0 ==> !AnyClamped(decisions)
  {
    if i :| 0 <= i < |decisions| && !decisions[i].verdict.Fits? {
      assert decisions[i].verdict.Blocked? || decisions[i].verdict.Clamped?;
    }
  }
}
