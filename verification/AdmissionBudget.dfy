/**
 The per-GPU admission decision: how much a launch asks for, how much the
 safe budget leaves, and the largest fraction that would pass.  Memory is in
 whole MiB; fractions and utilization are exact reals.
 */
module AdmissionBudget {
  import opened Wrappers

  const MIN_FRACTION_STEP: real := 0.001

  datatype Gpu = Gpu(key: string, aliases: seq<string>, totalMb: nat, usedMb: nat, freeMb: nat)

  /** None stands for a value that is missing or not a finite number. */
  datatype Request = Request(
    gpuIds: seq<string>,
    useAllGpus: bool,
    requestedMb: Option<real>,
    requestedMbByGpu: map<string, real>,
    requestedFraction: Option<real>,
    requestedFractionOfFree: Option<real>,
    poolCappedTokens: nat,
    minClampMb: nat,
    retireLeaseIds: set<nat>,
    containerName: string)

  datatype Policy = Policy(reserveMb: nat, maxUtilization: real, startupMarginMb: nat)

  datatype Verdict = Fits | Clamped | Blocked

  datatype Decision = Decision(
    gpuKey: string,
    pendingMb: nat,
    requestedMb: nat,
    availableMb: nat,
    reservedMb: nat,
    verdict: Verdict,
    maxFraction: Option<real>)

  datatype Knob = FractionOfFree | DeviceFraction | NoKnob

  function Ceil(r: real): (n: int)
    ensures (n - 1) as real < r <= n as real
  {
    -((-r).Floor)
  }

  function Min(a: int, b: int): int { if a < b then a else b }

  function Max(a: int, b: int): int { if a < b then b else a }

  function NormalizeMaxUtilization(value: real): (ratio: real)
    ensures 0.1 <= ratio <= 0.99
    ensures 0.1 <= value <= 0.99 ==> ratio == value
    ensures 10.0 <= value <= 99.0 ==> ratio == value / 100.0
    ensures value < 0.1 || 1.0 < value < 10.0 ==> ratio == 0.1
    ensures 0.99 < value <= 1.0 || 99.0 < value ==> ratio == 0.99
  {
    var ratio := if value > 1.0 then value / 100.0 else value;
    if ratio < 0.1 then 0.1 else if ratio > 0.99 then 0.99 else ratio
  }

  predicate FractionInRange(fraction: Option<real>) {
    fraction.Some? && 0.0 < fraction.value <= 1.0
  }

  function Positive(value: Option<real>): Option<real> {
    if value.Some? && value.value > 0.0 then value else None
  }

  function Larger(a: Option<real>, b: Option<real>): Option<real> {
    if a.None? then b
    else if b.None? || b.value <= a.value then a
    else b
  }

  predicate PositiveEntry(alias: string, table: map<string, real>) {
    alias in table && table[alias] > 0.0
  }

  /** The entry of the first alias that has a positive one in the table. */
  function FirstPositive(aliases: seq<string>, table: map<string, real>): (value: Option<real>)
    ensures value.Some? ==> value.value > 0.0
  {
    if aliases == [] then None
    else if PositiveEntry(aliases[0], table) then Some(table[aliases[0]])
    else FirstPositive(aliases[1..], table)
  }

  /** An alias decides when it has a positive entry and none before it has one. */
  lemma {:induction false} FirstAliasDecides(aliases: seq<string>, table: map<string, real>, i: nat)
    requires i <= |aliases| && forall j | 0 <= j < i :: !PositiveEntry(aliases[j], table)
    ensures i == |aliases| ==> FirstPositive(aliases, table) == None
    ensures i < |aliases| && PositiveEntry(aliases[i], table) ==>
      FirstPositive(aliases, table) == Some(table[aliases[i]])
  {
    if i > 0 {
      FirstAliasDecides(aliases[1..], table, i - 1);
    }
  }

  function FractionOf(fraction: Option<real>): real {
    if FractionInRange(fraction) then fraction.value else 0.0
  }

  /** The largest of the sizes that a request states, given what its fractions come to. */
  function LargestSize(request: Request, aliases: seq<string>, ofDevice: real, ofFree: real): (mb: Option<real>)
    ensures mb.Some? ==> mb.value > 0.0
  {
    var mapped := FirstPositive(aliases, request.requestedMbByGpu);
    var base := if mapped.Some? then mapped else Positive(request.requestedMb);
    var device := if FractionInRange(request.requestedFraction) then Positive(Some(ofDevice)) else None;
    var free := if FractionInRange(request.requestedFractionOfFree) then Larger(Some(1.0), Some(ofFree)) else None;
    Larger(Larger(base, device), free)
  }

  /** None when no trustworthy estimate exists; the launch is then refused. */
  function RequestedMbForGpu(request: Request, gpu: Gpu, pendingMb: nat): (requestedMb: Option<nat>)
    ensures requestedMb.Some? ==> requestedMb.value >= 1
  {
    var largest := LargestSize(request, gpu.aliases,
      Share(gpu.totalMb, FractionOf(request.requestedFraction)),
      Share(gpu.freeMb - pendingMb, FractionOf(request.requestedFractionOfFree)));
    if largest.None? then None else Some(Ceil(largest.value))
  }

  /** One of the sizes of a request: by the table or outright, as a share of the device, or of its free memory. */
  ghost predicate Estimate(request: Request, aliases: seq<string>, ofDevice: real, ofFree: real, mb: real) {
    var mapped := FirstPositive(aliases, request.requestedMbByGpu);
    || (mapped == Some(mb))
    || (mapped.None? && request.requestedMb == Some(mb) && mb > 0.0)
    || (FractionInRange(request.requestedFraction) && mb == ofDevice > 0.0)
    || (FractionInRange(request.requestedFractionOfFree) && (mb == 1.0 || mb == ofFree > 1.0))
  }

  lemma LargestIsEstimate(request: Request, aliases: seq<string>, ofDevice: real, ofFree: real, mb: Option<nat>)
    requires var largest := LargestSize(request, aliases, ofDevice, ofFree);
      mb == if largest.None? then None else Some(Ceil(largest.value))
    ensures AsksForLargest(request, aliases, ofDevice, ofFree, mb)
  {
    var largest := LargestSize(request, aliases, ofDevice, ofFree);
    assert largest.Some? ==> Estimate(request, aliases, ofDevice, ofFree, largest.value);
  }

  ghost predicate AsksForLargest(request: Request, aliases: seq<string>, ofDevice: real, ofFree: real,
                                 mb: Option<nat>) {
    if mb.None? then forall size :: !Estimate(request, aliases, ofDevice, ofFree, size)
    else
      && (exists size :: Estimate(request, aliases, ofDevice, ofFree, size) && Ceil(size) == mb.value)
      && (forall size :: Estimate(request, aliases, ofDevice, ofFree, size) ==> size <= mb.value as real)
  }

  /**
   A launch asks for its largest estimate in whole MiB, and is sized exactly
   when it has one.  A fraction is of the whole device, or of what is free of it
   beyond the pending reservations.
   */
  lemma RequestsLargestEstimate(request: Request, gpu: Gpu, pendingMb: nat, ofDevice: real, ofFree: real)
    requires ofDevice == gpu.totalMb as real * FractionOf(request.requestedFraction)
    requires ofFree == (gpu.freeMb - pendingMb) as real * FractionOf(request.requestedFractionOfFree)
    ensures AsksForLargest(request, gpu.aliases, ofDevice, ofFree, RequestedMbForGpu(request, gpu, pendingMb))
  {
    ShareIsPart(gpu.totalMb, FractionOf(request.requestedFraction), ofDevice);
    ShareIsPart(gpu.freeMb - pendingMb, FractionOf(request.requestedFractionOfFree), ofFree);
    LargestIsEstimate(request, gpu.aliases, ofDevice, ofFree, RequestedMbForGpu(request, gpu, pendingMb));
  }

  lemma ShareIsPart(mb: int, fraction: real, part: real)
    requires part == mb as real * fraction
    ensures Share(mb, fraction) == part
  {
  }

  function FreeBudgetMb(gpu: Gpu, pendingMb: nat, policy: Policy): int {
    gpu.freeMb - policy.reserveMb - pendingMb
  }

  function ThresholdBudgetMb(gpu: Gpu, pendingMb: nat, policy: Policy): int {
    (Share(gpu.totalMb, NormalizeMaxUtilization(policy.maxUtilization))
     - (gpu.usedMb + pendingMb + policy.startupMarginMb) as real).Floor
  }

  function AvailableMb(gpu: Gpu, pendingMb: nat, policy: Policy): nat {
    Max(0, Min(FreeBudgetMb(gpu, pendingMb, policy), ThresholdBudgetMb(gpu, pendingMb, policy)))
  }

  function AdmissionKnob(request: Request): Knob {
    if FractionInRange(request.requestedFractionOfFree) then FractionOfFree
    else if FractionInRange(request.requestedFraction) then DeviceFraction
    else NoKnob
  }

  /** The part of a memory size that a fraction asks for. */
  function Share(mb: int, fraction: real): (part: real)
    ensures mb > 0 && fraction > 0.0 ==> part > 0.0
    ensures mb <= 0 && fraction > 0.0 ==> part <= 0.0
  {
    mb as real * fraction
  }

  /** The memory that the knob's fraction is taken of. */
  function KnobBase(knob: Knob, gpu: Gpu, pendingMb: nat): int {
    match knob
    case FractionOfFree => gpu.freeMb - pendingMb
    case DeviceFraction => gpu.totalMb
    case NoKnob => 0
  }

  function Thousandths(r: real): real {
    (r * 1000.0).Floor as real / 1000.0
  }

  function LargestPassingFraction(request: Request, gpu: Gpu, pendingMb: nat, availableMb: nat): Option<real> {
    var base := KnobBase(AdmissionKnob(request), gpu, pendingMb);
    if base <= 0 then None
    else
      var fraction := Thousandths(availableMb as real / base as real);
      Some(if fraction > 1.0 then 1.0 else fraction)
  }

  /** None when the launch has no trustworthy estimate. */
  function DecideGpuReservation(request: Request, gpu: Gpu, pendingMb: nat, policy: Policy): Option<Decision> {
    var requested := RequestedMbForGpu(request, gpu, pendingMb);
    if requested.None? then None
    else
      var requestedMb := requested.value;
      var availableMb := AvailableMb(gpu, pendingMb, policy);
      var fits := requestedMb <= availableMb;
      var clamped := !fits && request.poolCappedTokens > 0 && availableMb > 0 && availableMb >= request.minClampMb;
      Some(Decision(
        gpu.key, pendingMb, requestedMb, availableMb,
        if clamped then availableMb else requestedMb,
        if fits then Fits else if clamped then Clamped else Blocked,
        LargestPassingFraction(request, gpu, pendingMb, availableMb)))
  }

  // ----- what an admitted reservation guarantees

  predicate WithinBudget(gpu: Gpu, policy: Policy, reservedMb: int) {
    && reservedMb + policy.reserveMb <= gpu.freeMb
    && (gpu.usedMb + reservedMb + policy.startupMarginMb) as real
       <= gpu.totalMb as real * NormalizeMaxUtilization(policy.maxUtilization)
  }

  /**
   The budget is the largest amount that may be reserved on top of the pending
   ones: an amount is within it exactly when both limits are kept.
   */
  lemma BudgetIsLargest(gpu: Gpu, pendingMb: nat, policy: Policy, mb: nat)
    ensures mb <= AvailableMb(gpu, pendingMb, policy) <==> mb == 0 || WithinBudget(gpu, policy, pendingMb + mb)
  {
    KeepsReserve(gpu, pendingMb, policy, mb);
    KeepsUtilization(gpu, pendingMb, policy, mb);
  }

  lemma KeepsReserve(gpu: Gpu, pendingMb: nat, policy: Policy, mb: nat)
    ensures mb <= FreeBudgetMb(gpu, pendingMb, policy) <==> pendingMb + mb + policy.reserveMb <= gpu.freeMb
  {
  }

  lemma KeepsUtilization(gpu: Gpu, pendingMb: nat, policy: Policy, mb: nat)
    ensures mb <= ThresholdBudgetMb(gpu, pendingMb, policy) <==>
      (gpu.usedMb + pendingMb + mb + policy.startupMarginMb) as real
      <= gpu.totalMb as real * NormalizeMaxUtilization(policy.maxUtilization)
  {
    var limit := Share(gpu.totalMb, NormalizeMaxUtilization(policy.maxUtilization));
    var below := limit - (gpu.usedMb + pendingMb + policy.startupMarginMb) as real;
    assert mb <= below.Floor <==> mb as real <= below;
  }

  /** A launch that does not fit may run in less: its pool is capped, and a useful amount is within the budget. */
  predicate MayClamp(request: Request, gpu: Gpu, pendingMb: nat, policy: Policy) {
    request.poolCappedTokens > 0 && WithinBudget(gpu, policy, pendingMb + Max(1, request.minClampMb))
  }

  /**
   What a sized launch is told on one GPU.  It fits exactly when its request
   and all pending reservations keep both limits; it is clamped, to the largest
   amount that keeps them, exactly when it does not fit and may be clamped; and
   it is blocked otherwise.
   */
  lemma DecidesByBudget(request: Request, gpu: Gpu, pendingMb: nat, policy: Policy)
    requires RequestedMbForGpu(request, gpu, pendingMb).Some?
    ensures DecideGpuReservation(request, gpu, pendingMb, policy).Some?
    ensures var decision := DecideGpuReservation(request, gpu, pendingMb, policy).value;
      var fits := WithinBudget(gpu, policy, pendingMb + RequestedMbForGpu(request, gpu, pendingMb).value);
      && (decision.verdict.Fits? <==> fits)
      && (decision.verdict.Clamped? <==> !fits && MayClamp(request, gpu, pendingMb, policy))
      && (decision.verdict.Clamped? ==>
            && WithinBudget(gpu, policy, pendingMb + decision.reservedMb)
            && !WithinBudget(gpu, policy, pendingMb + decision.reservedMb + 1))
      && (!decision.verdict.Clamped? ==>
            Some(decision.reservedMb) == RequestedMbForGpu(request, gpu, pendingMb))
  {
    var decision := DecideGpuReservation(request, gpu, pendingMb, policy).value;
    BudgetIsLargest(gpu, pendingMb, policy, decision.requestedMb);
    BudgetIsLargest(gpu, pendingMb, policy, Max(1, request.minClampMb));
    BudgetIsLargest(gpu, pendingMb, policy, decision.availableMb);
    BudgetIsLargest(gpu, pendingMb, policy, decision.availableMb + 1);
  }

  /** An admitted reservation is positive and leaves all pending ones within the budget. */
  lemma AdmittedWithinBudget(request: Request, gpu: Gpu, pendingMb: nat, policy: Policy)
    requires var decision := DecideGpuReservation(request, gpu, pendingMb, policy);
      decision.Some? && !decision.value.verdict.Blocked?
    ensures var decision := DecideGpuReservation(request, gpu, pendingMb, policy).value;
      0 < decision.reservedMb && WithinBudget(gpu, policy, pendingMb + decision.reservedMb)
  {
    DecidesByBudget(request, gpu, pendingMb, policy);
  }

  // ----- the suggested fraction

  /** The request is sized by its fraction knob alone. */
  predicate SizedOnlyBy(request: Request, knob: Knob) {
    && Positive(request.requestedMb).None?
    && request.requestedMbByGpu == map[]
    && match knob
       case FractionOfFree =>
         FractionInRange(request.requestedFractionOfFree) && !FractionInRange(request.requestedFraction)
       case DeviceFraction =>
         FractionInRange(request.requestedFraction) && !FractionInRange(request.requestedFractionOfFree)
       case NoKnob => false
  }

  function WithFraction(request: Request, knob: Knob, fraction: real): Request {
    match knob
    case FractionOfFree => request.(requestedFractionOfFree := Some(fraction))
    case DeviceFraction => request.(requestedFraction := Some(fraction))
    case NoKnob => request
  }

  lemma {:induction false} NoPositiveEntry(aliases: seq<string>, table: map<string, real>)
    requires table == map[]
    ensures FirstPositive(aliases, table).None?
  {
    if aliases != [] { NoPositiveEntry(aliases[1..], table); }
  }

  /** With one knob, the request is the fraction of the base, and at least 1 MiB. */
  lemma RequestedByFraction(request: Request, knob: Knob, gpu: Gpu, pendingMb: nat, fraction: real)
    requires SizedOnlyBy(request, knob) && 0.0 < fraction <= 1.0 && gpu.totalMb > 0
    ensures var part := Share(KnobBase(knob, gpu, pendingMb), fraction);
      RequestedMbForGpu(WithFraction(request, knob, fraction), gpu, pendingMb) ==
      Some(Ceil(if knob.FractionOfFree? && part < 1.0 then 1.0 else part))
  {
    NoPositiveEntry(gpu.aliases, request.requestedMbByGpu);
  }

  /** With one knob, a fraction fits one GPU exactly when its share of the base fits the budget. */
  lemma FractionFits(request: Request, knob: Knob, gpu: Gpu, pendingMb: nat, policy: Policy, fraction: real)
    requires SizedOnlyBy(request, knob) && 0.0 < fraction <= 1.0 && gpu.totalMb > 0
    ensures var requested := RequestedMbForGpu(WithFraction(request, knob, fraction), gpu, pendingMb);
      var availableMb := AvailableMb(gpu, pendingMb, policy);
      var base := KnobBase(knob, gpu, pendingMb);
      requested.Some? && (requested.value <= availableMb <==>
        1 <= availableMb && 0 < base && Share(base, fraction) <= availableMb as real)
  {
    RequestedByFraction(request, knob, gpu, pendingMb, fraction);
    var base := KnobBase(knob, gpu, pendingMb);
    var availableMb := AvailableMb(gpu, pendingMb, policy);
    if base <= 0 { assert availableMb == 0; }
  }

  lemma ThousandthsBounds(r: real)
    ensures Thousandths(r) <= r < Thousandths(r) + MIN_FRACTION_STEP
  {
  }

  lemma ShareFits(base: int, availableMb: nat, fraction: real)
    requires base > 0
    ensures Share(base, fraction) <= availableMb as real <==> fraction <= availableMb as real / base as real
  {
    var ratio := availableMb as real / base as real;
    assert Share(base, ratio) == availableMb as real;
    if fraction <= ratio {
      assert base as real * (ratio - fraction) >= 0.0;
    } else {
      assert base as real * (fraction - ratio) > 0.0;
    }
  }

  /**
   On one GPU, the fractions that fit are bounded by the suggestion: the
   suggestion and everything below it fits, and no larger thousandth does.
   */
  lemma FractionFitsBelow(request: Request, knob: Knob, gpu: Gpu, pendingMb: nat, policy: Policy, fraction: real)
    requires SizedOnlyBy(request, knob) && 0.0 < fraction <= 1.0 && gpu.totalMb > 0
    ensures var decision := DecideGpuReservation(WithFraction(request, knob, fraction), gpu, pendingMb, policy);
      var maxFraction := LargestPassingFraction(request, gpu, pendingMb, AvailableMb(gpu, pendingMb, policy));
      && decision.Some?
      && decision.value.maxFraction == maxFraction
      && (maxFraction.None? ==> !decision.value.verdict.Fits?)
      && (maxFraction.Some? && fraction <= maxFraction.value ==> decision.value.verdict.Fits?)
      && (maxFraction.Some? && fraction >= maxFraction.value + MIN_FRACTION_STEP ==> !decision.value.verdict.Fits?)
      && (request.poolCappedTokens == 0 ==> !decision.value.verdict.Clamped?)
  {
    FractionFits(request, knob, gpu, pendingMb, policy, fraction);
    var base := KnobBase(knob, gpu, pendingMb);
    var availableMb := AvailableMb(gpu, pendingMb, policy);
    if base > 0 {
      var ratio := availableMb as real / base as real;
      ThousandthsBounds(ratio);
      ShareFits(base, availableMb, fraction);
      if availableMb == 0 { assert ratio == 0.0; }
    }
  }
}
