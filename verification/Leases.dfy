/** Leases as values: what each atomic piece of the lease manager (leases.py) does to one lease.
    LeaseManager.dfy proves the in-place classes against these functions; WarmProtocol.dfy interleaves them. */
module Leases {
  import opened Wrappers
  import opened Economics
  import opened Pricing

  type LeaseId = nat
  type SessionId = nat
  type ProviderId = nat
  /** A SHA-256 digest: only its equality is ever used. */
  type Fingerprint = nat

  datatype LeaseState = Inactive | Armed | WarmScheduled | Warming | EconomicallyStopped | Invalidated

  datatype LeaseDecision =
    | Scheduled | SkippedDryRun | SkippedBusy | SkippedStale | SkippedNoTargets | SkippedAlreadyWarming
    | SkippedUnknownTtl | SkippedUnsupported | SkippedCircuitOpen
    | StoppedNoTargets | StoppedInvalidated | StoppedEconomic
    | WarmedConfirmedHit | WarmedMissRebuilt | WarmedUnverified | WarmedFailed

  datatype Settings = Settings(
    warmFraction: real, minimumMargin: real, latencyMultiplier: real, jitterFraction: real,
    latencyP95: real, dryRun: bool, economics: EconomicConfig,
    resumeProbability: real, detachedResumeProbability: real)

  predicate ValidSettings(s: Settings) {
    && 0.0 < s.warmFraction <= 1.0
    && s.minimumMargin >= 0.0 && s.latencyMultiplier >= 0.0
    && 0.0 <= s.jitterFraction <= 1.0
    && ValidConfig(s.economics)
    && 0.0 <= s.resumeProbability <= 1.0 && 0.0 <= s.detachedResumeProbability <= 1.0
  }

  /** Who a lease is for: fixed when it is created. `jitter` is the signed fraction its fingerprint hashes to. */
  datatype Identity = Identity(session: SessionId, provider: ProviderId, fingerprint: Fingerprint, jitter: real)

  datatype Lease = Lease(
    identity: Identity,
    lastRealRequestAt: real, lastCacheTouchAt: Option<real>, lastConfirmedHitAt: Option<real>,
    estimatedTtl: real, activeTargets: set<string>, generation: nat,
    warmCount: nat, warmCost: real,
    coldCost: Option<real>, cachedCost: Option<real>, nextWarmCost: Option<real>,
    state: LeaseState)

  /** Process-local flags kept beside the lease. */
  datatype Runtime = Runtime(
    realRequestActive: bool, warmRequestActive: bool, scheduledGeneration: Option<nat>,
    pendingWarm: bool, consecutiveWarmMisses: nat, circuitOpen: bool)

  const FRESH_RUNTIME := Runtime(false, false, None, false, 0, false)

  /** One lease with its runtime record. */
  datatype Entry = Entry(lease: Lease, runtime: Runtime)

  function NewEntry(identity: Identity, ttl: real): Entry {
    Entry(Lease(identity, 0.0, None, None, ttl, {}, 0, 0, 0.0, None, None, None, Inactive), FRESH_RUNTIME)
  }

  // -- lifecycle --------------------------------------------------------------

  function TryArm(lease: Lease): Lease {
    if lease.state == Invalidated then lease else lease.(state := Armed)
  }

  function Disarmed(lease: Lease): Lease {
    lease.(state := Inactive)
  }

  function AfterArm(e: Entry): Entry {
    e.(lease := TryArm(e.lease))
  }

  function AfterInvalidate(e: Entry): Entry {
    Entry(e.lease.(state := Invalidated),
          e.runtime.(pendingWarm := false, realRequestActive := false, warmRequestActive := false))
  }

  /** Another lease of the same session and provider but a different fingerprint: the identity switched. */
  predicate Superseded(lease: Lease, identity: Identity) {
    && lease.identity.session == identity.session
    && lease.identity.provider == identity.provider
    && lease.identity.fingerprint != identity.fingerprint
    && lease.state != Invalidated
  }

  function AfterSupersede(e: Entry, identity: Identity): Entry {
    if Superseded(e.lease, identity) then AfterInvalidate(e) else e
  }

  function AllSuperseded(entries: map<LeaseId, Entry>, identity: Identity): map<LeaseId, Entry> {
    map id | id in entries :: AfterSupersede(entries[id], identity)
  }

  function AfterComplete(e: Entry): Entry {
    Entry(Disarmed(e.lease.(activeTargets := {})), e.runtime.(pendingWarm := false))
  }

  function AfterTargetStarted(e: Entry, target: string): Entry {
    if target == "" then e
    else
      var lease := e.lease.(activeTargets := e.lease.activeTargets + {target});
      e.(lease := if |lease.activeTargets| == 1 then TryArm(lease) else lease)
  }

  function AfterTargetFinished(e: Entry, target: string): Entry {
    if target == "" then e
    else
      var lease := e.lease.(activeTargets := e.lease.activeTargets - {target});
      if lease.activeTargets == {}
      then Entry(Disarmed(lease), e.runtime.(pendingWarm := false))
      else e.(lease := lease)
  }

  // -- real requests ----------------------------------------------------------

  function AfterRequestStart(e: Entry, now: real): Entry {
    Entry(e.lease.(generation := e.lease.generation + 1, lastRealRequestAt := now),
          e.runtime.(realRequestActive := true, pendingWarm := false))
  }

  predicate Verified(outcome: Outcome) {
    outcome == ConfirmedHit || outcome == MissRebuilt
  }

  function AfterRequestEnd(e: Entry, outcome: Outcome, now: real): Entry {
    var runtime := e.runtime.(realRequestActive := false);
    if e.lease.state == Invalidated || outcome == Failed then e.(runtime := runtime)
    else
      var reopened := if Verified(outcome) then runtime.(circuitOpen := false, consecutiveWarmMisses := 0) else runtime;
      var touched := e.lease.(
        lastCacheTouchAt := Some(now),
        lastConfirmedHitAt := if outcome == ConfirmedHit then Some(now) else e.lease.lastConfirmedHitAt);
      Entry(if touched.activeTargets != {} then TryArm(touched) else Disarmed(touched), reopened)
  }

  /** Resume costs are refreshed from a normal request's usage; `fallback` is the provider-returned or
      configured cost, the only predictor left when pricing is unknown. */
  function AfterReprice(e: Entry, prefix: nat, pricing: Option<PricingTable>, fallback: Option<real>): Entry
    requires pricing.Some? ==> ValidPricing(pricing.value)
  {
    if prefix == 0 then e
    else if pricing.Some? then
      var costs := EstimateResumeCosts(prefix, pricing.value);
      e.(lease := e.lease.(coldCost := Some(costs.cold), cachedCost := Some(costs.cached),
                           nextWarmCost := Some(Pricing.NextWarmCost(prefix, pricing.value))))
    else
      e.(lease := e.lease.(coldCost := None, cachedCost := None, nextWarmCost := fallback))
  }

  function AfterRefreshTtl(e: Entry, ttl: real): Entry {
    e.(lease := e.lease.(estimatedTtl := ttl))
  }

  // -- deadline and gate ------------------------------------------------------

  function NetworkMargin(s: Settings): real {
    Max(s.minimumMargin, s.latencyP95 * s.latencyMultiplier)
  }

  /** The interval from the last touch to the jittered safe deadline. */
  function Wait(s: Settings, lease: Lease): real {
    WaitFor(s, Max(lease.estimatedTtl, 0.0), lease.identity.jitter)
  }

  function WaitFor(s: Settings, ttl: real, jitter: real): real {
    Min(ttl * s.warmFraction, ttl - NetworkMargin(s)) * (1.0 + jitter)
  }

  /** Nothing but the ttl estimate and the fingerprint's jitter decides the wait. */
  lemma SameTtlSameWait(s: Settings, a: Lease, b: Lease)
    requires a.estimatedTtl == b.estimatedTtl && a.identity == b.identity
    ensures Wait(s, a) == Wait(s, b)
  {
  }

  function NextDeadline(s: Settings, lease: Lease): Option<real> {
    if lease.lastCacheTouchAt == None then None
    else
      var touch, ttl := lease.lastCacheTouchAt.value, Max(lease.estimatedTtl, 0.0);
      var safe := Min(touch + ttl * s.warmFraction, touch + ttl - NetworkMargin(s));
      Some(touch + (safe - touch) * (1.0 + lease.identity.jitter))
  }

  predicate IsDetached(target: string) {
    "detached-" <= target
  }

  function ResumeProbability(s: Settings, lease: Lease): real {
    if lease.activeTargets == {} then 0.0
    else if forall t | t in lease.activeTargets :: IsDetached(t) then s.detachedResumeProbability
    else s.resumeProbability
  }

  function GateInputOf(s: Settings, lease: Lease): GateInput {
    GateInput(lease.coldCost.UnwrapOr(0.0), lease.cachedCost.UnwrapOr(0.0), lease.nextWarmCost.UnwrapOr(0.0),
              lease.warmCost, ResumeProbability(s, lease), lease.coldCost.Some? && lease.cachedCost.Some?)
  }

  predicate GatePasses(s: Settings, lease: Lease) {
    !s.economics.enabled || Evaluate(s.economics, GateInputOf(s, lease)).ShouldWarm()
  }

  // -- the three atomic segments of one evaluation ----------------------------

  /** What the evaluation does after its first segment: it is over, or it goes for the lock with the
      generation that authorises its warm. */
  datatype Verdict = Done(decision: LeaseDecision) | Proceed(generation: nat)

  datatype Decided = Decided(entry: Entry, verdict: Verdict)

  /** Segment 1: everything up to the lock. */
  function DecideEvaluation(s: Settings, e: Entry, now: real): Decided {
    var lease, runtime := e.lease, e.runtime;
    if lease.activeTargets == {} then Decided(e, Done(StoppedNoTargets))
    else if runtime.realRequestActive then Decided(e, Done(SkippedBusy))
    else if runtime.warmRequestActive then Decided(e, Done(SkippedAlreadyWarming))
    else if lease.state == Invalidated then Decided(e, Done(StoppedInvalidated))
    else if runtime.circuitOpen then Decided(e, Done(SkippedCircuitOpen))
    else
      var due := NextDeadline(s, lease);
      if due == None then Decided(e, Done(SkippedUnknownTtl))
      else if now < due.value then
        Decided(
          Entry(if lease.state == EconomicallyStopped then lease else lease.(state := WarmScheduled),
                runtime.(scheduledGeneration := Some(lease.generation), pendingWarm := true)),
          Done(Scheduled))
      else if !GatePasses(s, lease) then
        Decided(e.(lease := lease.(state := EconomicallyStopped)), Done(StoppedEconomic))
      else
        var authorised := runtime.scheduledGeneration.UnwrapOr(lease.generation);
        var consumed := e.(runtime := runtime.(scheduledGeneration := None, pendingWarm := false));
        if lease.generation != authorised then Decided(consumed, Done(SkippedStale))
        else Decided(consumed, Proceed(authorised))
  }

  /** The checks made under the lock; None means the warm goes to the executor. */
  function LockedRefusal(s: Settings, e: Entry, authorised: nat, sendable: bool): Option<LeaseDecision> {
    if e.runtime.realRequestActive then Some(SkippedBusy)
    else if e.lease.activeTargets == {} then Some(SkippedNoTargets)
    else if e.lease.generation != authorised then Some(SkippedStale)
    else if s.dryRun then Some(SkippedDryRun)
    else if e.runtime.circuitOpen then Some(SkippedCircuitOpen)
    else if !sendable then Some(SkippedUnsupported)
    else None
  }

  /** Segment 2 when nothing refuses: the state the lease is in while its warm is in flight. */
  function AfterSend(e: Entry): Entry {
    Entry(e.lease.(state := Warming), e.runtime.(warmRequestActive := true))
  }

  /** The executor's answer. `outcome` is None when no bounded warm could be built: nothing was sent. */
  datatype WarmResult = WarmResult(outcome: Option<Outcome>, wroteCache: bool, cost: real)

  /** The clean-up that runs however the executor call ends. */
  function AfterWarmReturned(e: Entry): Entry {
    Entry(TryArm(e.lease), e.runtime.(warmRequestActive := false))
  }

  predicate WarmTouches(result: WarmResult) {
    || result.outcome == Some(ConfirmedHit)
    || (result.outcome == Some(MissRebuilt) && result.wroteCache)
  }

  function PaidLease(lease: Lease, result: WarmResult, now: real): Lease {
    lease.(warmCount := lease.warmCount + 1,
           warmCost := lease.warmCost + result.cost,
           lastCacheTouchAt := if WarmTouches(result) then Some(now) else lease.lastCacheTouchAt,
           lastConfirmedHitAt := if result.outcome == Some(ConfirmedHit) then Some(now) else lease.lastConfirmedHitAt)
  }

  /** A warm that did not verify a cache touch: the second in a row opens the breaker. */
  function MissedRuntime(runtime: Runtime): Runtime {
    var misses := runtime.consecutiveWarmMisses + 1;
    runtime.(consecutiveWarmMisses := misses, circuitOpen := runtime.circuitOpen || misses >= 2)
  }

  /** Segment 3: the answer is folded into the lease. */
  function AfterWarmResult(e: Entry, result: WarmResult, now: real): Entry {
    var returned := AfterWarmReturned(e);
    if result.outcome == None then returned
    else
      Entry(PaidLease(returned.lease, result, now),
            if result.outcome.value == ConfirmedHit then returned.runtime.(consecutiveWarmMisses := 0)
            else MissedRuntime(returned.runtime))
  }

  function WarmDecisionOf(result: WarmResult): LeaseDecision {
    match result.outcome
    case None => SkippedUnsupported
    case Some(ConfirmedHit) => WarmedConfirmedHit
    case Some(MissRebuilt) => WarmedMissRebuilt
    case Some(SuccessUnverified) => WarmedUnverified
    case Some(Failed) => WarmedFailed
  }

  // -- the deadline -----------------------------------------------------------

  /** The jitter stretches the wait, never the epoch: the deadline is the touch plus the wait. */
  lemma DeadlineIsTouchPlusWait(s: Settings, lease: Lease)
    requires lease.lastCacheTouchAt.Some?
    ensures NextDeadline(s, lease).Some?
    ensures NextDeadline(s, lease).value == lease.lastCacheTouchAt.value + Wait(s, lease)
  {
    var touch, ttl := lease.lastCacheTouchAt.value, Max(lease.estimatedTtl, 0.0);
    ShiftedMinimum(touch, ttl * s.warmFraction, ttl - NetworkMargin(s), 1.0 + lease.identity.jitter);
    assert touch + ttl - NetworkMargin(s) == touch + (ttl - NetworkMargin(s));
  }

  lemma ShiftedMinimum(shift: real, x: real, y: real, factor: real)
    ensures (Min(shift + x, shift + y) - shift) * factor == Min(x, y) * factor
  {
    assert Min(shift + x, shift + y) - shift == Min(x, y);
  }

  /** When the ttl covers the network margin and the jittered fraction stays at most one, the wait lies in
      [0, ttl]: a warm is never due before the touch nor after the estimated expiry. */
  lemma DeadlineIsInsideTheTtl(s: Settings, lease: Lease)
    requires ValidSettings(s) && -s.jitterFraction <= lease.identity.jitter <= s.jitterFraction
    requires lease.estimatedTtl >= NetworkMargin(s) && s.warmFraction * (1.0 + s.jitterFraction) <= 1.0
    ensures 0.0 <= Wait(s, lease) <= lease.estimatedTtl
    ensures lease.lastCacheTouchAt.Some? ==>
              lease.lastCacheTouchAt.value <= NextDeadline(s, lease).value
                                           <= lease.lastCacheTouchAt.value + lease.estimatedTtl
  {
    WaitBounds(lease.estimatedTtl, s.warmFraction, lease.estimatedTtl - NetworkMargin(s),
               lease.identity.jitter, s.jitterFraction);
    if lease.lastCacheTouchAt.Some? {
      DeadlineIsTouchPlusWait(s, lease);
    }
  }

  lemma WaitBounds(ttl: real, fraction: real, late: real, jitter: real, jitterBound: real)
    requires 0.0 <= ttl && 0.0 <= fraction && 0.0 <= late
    requires -jitterBound <= jitter <= jitterBound <= 1.0
    requires fraction * (1.0 + jitterBound) <= 1.0
    ensures 0.0 <= Min(ttl * fraction, late) * (1.0 + jitter) <= ttl
  {
    ProductIsMonotone(0.0, ttl, 0.0, fraction);
    ShareIsAtMostAll(ttl, fraction, 1.0 + jitterBound);
    StretchedIsBounded(ttl, Min(ttl * fraction, late), ttl * fraction, 1.0 + jitter, 1.0 + jitterBound);
  }

  lemma ShareIsAtMostAll(whole: real, x: real, y: real)
    requires 0.0 <= whole && 0.0 <= x && 0.0 <= y && x * y <= 1.0
    ensures whole * x * y <= whole
  {
    ProductIsMonotone(0.0, x, 0.0, y);
    ProductIsMonotone(whole, whole, x * y, 1.0);
    assert whole * x * y == whole * (x * y);
  }

  lemma StretchedIsBounded(bound: real, base: real, widest: real, stretch: real, widestStretch: real)
    requires 0.0 <= base <= widest && 0.0 <= stretch <= widestStretch && widest * widestStretch <= bound
    ensures 0.0 <= base * stretch <= bound
  {
    ProductIsMonotone(0.0, base, 0.0, stretch);
    ProductIsMonotone(base, widest, stretch, widestStretch);
  }

  /** The gate's probability is one of the two configured ones, or zero without targets. */
  lemma ResumeProbabilityIsBounded(s: Settings, lease: Lease)
    requires ValidSettings(s)
    ensures 0.0 <= ResumeProbability(s, lease) <= Max(s.resumeProbability, s.detachedResumeProbability)
  {
  }
}
