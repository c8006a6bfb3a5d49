/** What the pieces of the lease manager mean, said on their fields: when a lease is due, what the gate is asked, which
    decision is taken and what each operation leaves behind. */
module LeaseLaws {
  import opened Wrappers
  import opened Economics
  import opened Pricing
  import opened Leases

  // -- the deadline -----------------------------------------------------------

  /** An instant at which a warm of the lease is still safe, before any jitter. */
  predicate SafeInstant(s: Settings, lease: Lease, x: real)
    requires lease.lastCacheTouchAt.Some?
  {
    var touch, ttl := lease.lastCacheTouchAt.value, if lease.estimatedTtl > 0.0 then lease.estimatedTtl else 0.0;
    && x <= touch + ttl * s.warmFraction
    && x <= touch + ttl - s.minimumMargin
    && x <= touch + ttl - s.latencyP95 * s.latencyMultiplier
  }

  ghost predicate IsLatestSafe(s: Settings, lease: Lease, x: real)
    requires lease.lastCacheTouchAt.Some?
  {
    SafeInstant(s, lease, x) && forall y | SafeInstant(s, lease, y) :: y <= x
  }

  /** Without jitter the deadline is the latest safe instant; the jitter j puts it 1 + j times as far from the touch. There
      is a deadline exactly when the cache was touched. */
  lemma DeadlineIsTheLatestSafeInstant(s: Settings, lease: Lease)
    ensures NextDeadline(s, lease).None? <==> lease.lastCacheTouchAt.None?
    ensures lease.lastCacheTouchAt.Some? ==>
              var steady := NextDeadline(s, lease.(identity := lease.identity.(jitter := 0.0)));
              && steady.Some? && IsLatestSafe(s, lease, steady.value)
              && NextDeadline(s, lease).value - lease.lastCacheTouchAt.value
                 == (1.0 + lease.identity.jitter) * (steady.value - lease.lastCacheTouchAt.value)
  {
    if lease.lastCacheTouchAt.Some? {
      var unjittered := lease.(identity := lease.identity.(jitter := 0.0));
      DeadlineIsTouchPlusWait(s, lease);
      DeadlineIsTouchPlusWait(s, unjittered);
      WaitStretches(s, if lease.estimatedTtl > 0.0 then lease.estimatedTtl else 0.0, lease.identity.jitter);
    }
  }

  lemma WaitStretches(s: Settings, ttl: real, jitter: real)
    ensures WaitFor(s, ttl, jitter) == (1.0 + jitter) * WaitFor(s, ttl, 0.0)
    ensures WaitFor(s, ttl, 0.0) == Min(ttl * s.warmFraction, ttl - Max(s.minimumMargin, s.latencyP95 * s.latencyMultiplier))
  {
  }

  // -- the gate ---------------------------------------------------------------

  predicate StartsDetached(target: string) {
    |target| >= 9 && target[..9] == "detached-"
  }

  /** Without targets nothing will resume; the detached probability is for leases whose every target is detached. */
  lemma ResumeProbabilityExactly(s: Settings, lease: Lease)
    ensures lease.activeTargets == {} ==> ResumeProbability(s, lease) == 0.0
    ensures lease.activeTargets != {} && (forall t | t in lease.activeTargets :: StartsDetached(t)) ==>
              ResumeProbability(s, lease) == s.detachedResumeProbability
    ensures (exists t :: t in lease.activeTargets && !StartsDetached(t)) ==>
              ResumeProbability(s, lease) == s.resumeProbability
  {
    forall t
      ensures IsDetached(t) <==> StartsDetached(t)
    {
      assert |"detached-"| == 9;
      if StartsDetached(t) {
        assert forall i | 0 <= i < 9 :: t[i] == t[..9][i];
      }
    }
  }

  /** Exactly when the gate lets a lease's next warm through, on the lease's own fields: economics is off, or both resume
      costs are known, a resume is possible, the loss it would avoid is worth the next warm, and total spend stays inside
      the budget and leaves the savings asked for. */
  lemma GatePassesExactly(s: Settings, lease: Lease, p: real, value: real, budget: real)
    requires p == ResumeProbability(s, lease)
    requires lease.coldCost.Some? && lease.cachedCost.Some? ==> value == p * (lease.coldCost.value - lease.cachedCost.value)
    requires budget == s.economics.budgetRatio * value
    ensures var next := if lease.nextWarmCost.Some? then lease.nextWarmCost.value else 0.0;
            GatePasses(s, lease) <==>
              || !s.economics.enabled
              || (&& lease.coldCost.Some? && lease.cachedCost.Some? && p > 0.0
                  && lease.coldCost.value > lease.cachedCost.value && value > next + s.economics.safetyMargin
                  && lease.warmCost + next < budget
                  && value - (lease.warmCost + next) >= s.economics.minimumExpectedSavings)
  {
    if lease.coldCost.Some? && lease.cachedCost.Some? {
      GateAnswersExactly(s.economics, GateInputOf(s, lease), value, budget);
    }
  }

  // -- the decision -----------------------------------------------------------

  /** Somebody waits for the lease and nothing stands in the way of a warm but time and money. */
  predicate Clear(e: Entry) {
    && e.lease.activeTargets != {} && !e.runtime.realRequestActive && !e.runtime.warmRequestActive
    && e.lease.state != Invalidated && !e.runtime.circuitOpen
  }

  predicate Due(s: Settings, lease: Lease, now: real) {
    NextDeadline(s, lease).Some? && NextDeadline(s, lease).value <= now
  }

  /** The record of the scheduled warm is for another generation. */
  predicate Outdated(e: Entry) {
    e.runtime.scheduledGeneration.Some? && e.runtime.scheduledGeneration.value != e.lease.generation
  }

  /** Exactly when each decision is taken before the lock. */
  lemma EvaluationAnswersExactly(s: Settings, e: Entry, now: real)
    ensures var v := DecideEvaluation(s, e, now).verdict;
            var wanted, busy, warm := e.lease.activeTargets != {}, e.runtime.realRequestActive, e.runtime.warmRequestActive;
            var dead, open := e.lease.state == Invalidated, e.runtime.circuitOpen;
            && (v == Done(StoppedNoTargets) <==> !wanted)
            && (v == Done(SkippedBusy) <==> wanted && busy)
            && (v == Done(SkippedAlreadyWarming) <==> wanted && !busy && warm)
            && (v == Done(StoppedInvalidated) <==> wanted && !busy && !warm && dead)
            && (v == Done(SkippedCircuitOpen) <==> wanted && !busy && !warm && !dead && open)
            && (v == Done(SkippedUnknownTtl) <==> Clear(e) && e.lease.lastCacheTouchAt.None?)
            && (v == Done(Scheduled) <==> Clear(e) && e.lease.lastCacheTouchAt.Some? && !Due(s, e.lease, now))
            && (v == Done(StoppedEconomic) <==> Clear(e) && Due(s, e.lease, now) && !GatePasses(s, e.lease))
            && (v == Done(SkippedStale) <==> Clear(e) && Due(s, e.lease, now) && GatePasses(s, e.lease) && Outdated(e))
            && (v == Proceed(e.lease.generation) <==>
                  Clear(e) && Due(s, e.lease, now) && GatePasses(s, e.lease) && !Outdated(e))
            && (v.Proceed? ==> v.generation == e.lease.generation)
  {
  }

  /** What the decision leaves on the lease: a scheduled warm is recorded for the present generation, a due one uses the
      record up, an uneconomic one marks the lease; the other decisions leave no trace. */
  lemma EvaluationLeavesExactly(s: Settings, e: Entry, now: real)
    ensures var d := DecideEvaluation(s, e, now);
            var e' := d.entry;
            && e'.lease == e.lease.(state := e'.lease.state)
            && e'.runtime == e.runtime.(pendingWarm := e'.runtime.pendingWarm,
                                        scheduledGeneration := e'.runtime.scheduledGeneration)
            && (d.verdict == Done(Scheduled) ==>
                  && e'.runtime.scheduledGeneration == Some(e.lease.generation) && e'.runtime.pendingWarm
                  && e'.lease.state == if e.lease.state == EconomicallyStopped then EconomicallyStopped else WarmScheduled)
            && (d.verdict == Done(StoppedEconomic) ==> e'.runtime == e.runtime && e'.lease.state == EconomicallyStopped)
            && (d.verdict == Done(SkippedStale) || d.verdict.Proceed? ==>
                  && e'.runtime.scheduledGeneration.None? && !e'.runtime.pendingWarm && e'.lease.state == e.lease.state)
            && (d.verdict.Done? && d.verdict.decision !in {Scheduled, StoppedEconomic, SkippedStale} ==> e' == e)
  {
  }

  /** Exactly when the checks under the lock refuse, and with which answer. */
  lemma LockAnswersExactly(s: Settings, e: Entry, authorised: nat, sendable: bool)
    ensures var r := LockedRefusal(s, e, authorised, sendable);
            var busy, wanted := e.runtime.realRequestActive, e.lease.activeTargets != {};
            var current := !busy && wanted && e.lease.generation == authorised;
            && (r == Some(SkippedBusy) <==> busy)
            && (r == Some(SkippedNoTargets) <==> !busy && !wanted)
            && (r == Some(SkippedStale) <==> !busy && wanted && e.lease.generation != authorised)
            && (r == Some(SkippedDryRun) <==> current && s.dryRun)
            && (r == Some(SkippedCircuitOpen) <==> current && !s.dryRun && e.runtime.circuitOpen)
            && (r == Some(SkippedUnsupported) <==> current && !s.dryRun && !e.runtime.circuitOpen && !sendable)
            && (r == None <==> current && !s.dryRun && !e.runtime.circuitOpen && sendable)
  {
  }

  /** The decision reported for an answered warm names its outcome, and says that nothing was sent when nothing was. */
  lemma WarmAnswersExactly(result: WarmResult)
    ensures var d := WarmDecisionOf(result);
            && (d == WarmedConfirmedHit <==> result.outcome == Some(ConfirmedHit))
            && (d == WarmedMissRebuilt <==> result.outcome == Some(MissRebuilt))
            && (d == WarmedUnverified <==> result.outcome == Some(SuccessUnverified))
            && (d == WarmedFailed <==> result.outcome == Some(Failed))
            && (d == SkippedUnsupported <==> result.outcome == None)
  {
  }

  // -- operations -------------------------------------------------------------

  /** Completing leaves no targets, no pending warm and an inactive lease, and touches nothing else. */
  lemma CompletingExactly(e: Entry)
    ensures var e' := AfterComplete(e);
            && e'.lease.activeTargets == {} && e'.lease.state == Inactive && !e'.runtime.pendingWarm
            && e'.lease == e.lease.(activeTargets := {}, state := Inactive)
            && e'.runtime == e.runtime.(pendingWarm := false)
  {
  }

  /** The end of a real request arms a live lease exactly when somebody still waits for it, and disarms it otherwise; a
      failed one, or one on a dead lease, changes nothing but the flag. */
  lemma RequestEndArmsExactly(e: Entry, outcome: Outcome, now: real)
    ensures var e' := AfterRequestEnd(e, outcome, now);
            && !e'.runtime.realRequestActive && e'.lease.activeTargets == e.lease.activeTargets
            && (e.lease.state == Invalidated || outcome == Failed ==>
                  e'.lease == e.lease && e'.runtime == e.runtime.(realRequestActive := false))
            && (e.lease.state != Invalidated && outcome != Failed ==>
                  && (e'.lease.state == Armed <==> e.lease.activeTargets != {})
                  && (e'.lease.state == Inactive <==> e.lease.activeTargets == {}))
  {
  }

  /** New prices are those of a full prefix: rebuilt, read back, and read back with one token of output. With pricing
      unknown nothing but the fallback is left; without a prefix nothing changes. */
  lemma RepricingExactly(e: Entry, prefix: nat, pricing: Option<PricingTable>, fallback: Option<real>)
    requires pricing.Some? ==> ValidPricing(pricing.value)
    ensures var lease := AfterReprice(e, prefix, pricing, fallback).lease;
            && (prefix == 0 ==> lease == e.lease)
            && (prefix > 0 && pricing.None? ==>
                  lease.coldCost == None && lease.cachedCost == None && lease.nextWarmCost == fallback)
            && (prefix > 0 && pricing.Some? ==>
                  && lease.coldCost.Some? && lease.cachedCost.Some? && lease.nextWarmCost.Some?
                  && var p := pricing.value;
                  && lease.coldCost.value * 1_000_000.0 == prefix as real * (if p.cacheWrite > 0.0 then p.cacheWrite else p.input)
                  && lease.cachedCost.value * 1_000_000.0 == prefix as real * p.cacheRead
                  && lease.nextWarmCost.value * 1_000_000.0 == prefix as real * p.cacheRead + p.output)
    ensures AfterReprice(e, prefix, pricing, fallback) ==
            e.(lease := e.lease.(coldCost := AfterReprice(e, prefix, pricing, fallback).lease.coldCost,
                                 cachedCost := AfterReprice(e, prefix, pricing, fallback).lease.cachedCost,
                                 nextWarmCost := AfterReprice(e, prefix, pricing, fallback).lease.nextWarmCost))
  {
  }

  // -- switching identity -----------------------------------------------------

  /** A live lease that the session had at the same provider under another fingerprint. */
  predicate IsReplacedBy(lease: Lease, identity: Identity) {
    && lease.state != Invalidated && lease.identity.session == identity.session
    && lease.identity.provider == identity.provider && lease.identity.fingerprint != identity.fingerprint
  }

  /** What a new identity does to an earlier lease: the ones it replaces are invalidated with their flags cleared, and no
      other is touched. */
  predicate LeftOrReplaced(e: Entry, e': Entry, identity: Identity) {
    if IsReplacedBy(e.lease, identity) then
      && e'.lease == e.lease.(state := Invalidated)
      && e'.runtime == e.runtime.(pendingWarm := false, realRequestActive := false, warmRequestActive := false)
    else e' == e
  }

  /** All leases after a new one was created beside them. */
  predicate CreatedBeside(entries: map<LeaseId, Entry>, after: map<LeaseId, Entry>, newId: LeaseId, identity: Identity, ttl: real) {
    && after.Keys == entries.Keys + {newId}
    && (forall x | x in entries && x != newId :: LeftOrReplaced(entries[x], after[x], identity))
    && IsBlank(after[newId], identity, ttl)
  }

  lemma CreationLeavesOrReplaces(entries: map<LeaseId, Entry>, newId: LeaseId, identity: Identity, ttl: real)
    ensures CreatedBeside(entries, AllSuperseded(entries, identity)[newId := NewEntry(identity, ttl)], newId, identity, ttl)
  {
  }

  /** A new lease: nobody waits for it, nothing was seen, spent, priced or scheduled. */
  predicate IsBlank(e: Entry, identity: Identity, ttl: real) {
    && e.lease.identity == identity && e.lease.estimatedTtl == ttl && e.lease.state == Inactive
    && e.lease.activeTargets == {} && e.lease.generation == 0 && e.lease.warmCount == 0 && e.lease.warmCost == 0.0
    && e.lease.lastRealRequestAt == 0.0 && e.lease.lastCacheTouchAt == None && e.lease.lastConfirmedHitAt == None
    && e.lease.coldCost == None && e.lease.cachedCost == None && e.lease.nextWarmCost == None
    && !e.runtime.realRequestActive && !e.runtime.warmRequestActive && !e.runtime.pendingWarm
    && e.runtime.scheduledGeneration == None && e.runtime.consecutiveWarmMisses == 0 && !e.runtime.circuitOpen
  }
}
