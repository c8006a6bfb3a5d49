/** The lease manager as the source writes it: lease and runtime objects updated in place, found through
    dictionaries. Every method is proved against the value functions of Leases.dfy. */
module LeaseManager {
  import opened Wrappers
  import opened Pricing
  import opened Leases
  import opened LeaseLaws

  class CacheLease {
    const identity: Identity
    var lastRealRequestAt: real
    var lastCacheTouchAt: Option<real>
    var lastConfirmedHitAt: Option<real>
    var estimatedTtl: real
    var activeTargets: set<string>
    var generation: nat
    var warmCount: nat
    var warmCost: real
    var coldCost: Option<real>
    var cachedCost: Option<real>
    var nextWarmCost: Option<real>
    var state: LeaseState

    constructor (identity: Identity, ttl: real)
      ensures View() == NewEntry(identity, ttl).lease
    {
      this.identity := identity;
      lastRealRequestAt, lastCacheTouchAt, lastConfirmedHitAt := 0.0, None, None;
      estimatedTtl, activeTargets, generation := ttl, {}, 0;
      warmCount, warmCost := 0, 0.0;
      coldCost, cachedCost, nextWarmCost := None, None, None;
      state := Inactive;
    }

    function View(): Lease
      reads this
    {
      Lease(identity, lastRealRequestAt, lastCacheTouchAt, lastConfirmedHitAt, estimatedTtl, activeTargets,
            generation, warmCount, warmCost, coldCost, cachedCost, nextWarmCost, state)
    }

    method Arm()
      modifies this`state
      ensures View() == TryArm(old(View()))
    {
      if state != Invalidated {
        state := Armed;
      }
    }

    method Disarm()
      modifies this`state
      ensures View() == Disarmed(old(View()))
    {
      state := Inactive;
    }
  }

  class LeaseRuntime {
    var realRequestActive: bool
    var warmRequestActive: bool
    var scheduledGeneration: Option<nat>
    var pendingWarm: bool
    var consecutiveWarmMisses: nat
    var circuitOpen: bool

    constructor ()
      ensures View() == FRESH_RUNTIME
    {
      realRequestActive, warmRequestActive, scheduledGeneration := false, false, None;
      pendingWarm, consecutiveWarmMisses, circuitOpen := false, 0, false;
    }

    method CountMiss()
      modifies this
      ensures View() == MissedRuntime(old(View()))
    {
      consecutiveWarmMisses := consecutiveWarmMisses + 1;
      if consecutiveWarmMisses >= 2 {
        circuitOpen := true;
      }
    }

    /** `scheduledGeneration` deliberately survives: it is what lets a stale warm be recognised. */
    method CancelPendingWarm()
      modifies this`pendingWarm
      ensures View() == old(View()).(pendingWarm := false)
    {
      pendingWarm := false;
    }

    function View(): Runtime
      reads this
    {
      Runtime(realRequestActive, warmRequestActive, scheduledGeneration, pendingWarm,
              consecutiveWarmMisses, circuitOpen)
    }
  }

  /** No two keys hold the same object. */
  ghost predicate NoSharing<T>(objects: map<LeaseId, T>) {
    forall a, b | a in objects && b in objects && objects[a] == objects[b] :: a == b
  }

  /** Everybody but `rest` has been looked at. */
  function PartlySuperseded(entries: map<LeaseId, Entry>, identity: Identity, rest: set<LeaseId>): map<LeaseId, Entry> {
    map id | id in entries :: if id in rest then entries[id] else AfterSupersede(entries[id], identity)
  }

  lemma OneMoreSuperseded(entries: map<LeaseId, Entry>, identity: Identity, rest: set<LeaseId>, id: LeaseId)
    requires id in rest && id in entries
    ensures PartlySuperseded(entries, identity, rest - {id})
            == PartlySuperseded(entries, identity, rest)[id := AfterSupersede(entries[id], identity)]
  {
  }

  class LeaseManager {
    const settings: Settings
    var leases: map<LeaseId, CacheLease>
    var runtimes: map<LeaseId, LeaseRuntime>
    var byFingerprint: map<Fingerprint, LeaseId>

    /** Every lease has a runtime record, no two ids share an object, and the index names tracked leases. */
    ghost predicate Valid()
      reads this
    {
      && runtimes.Keys == leases.Keys
      && NoSharing(leases) && NoSharing(runtimes)
      && (forall fp | fp in byFingerprint :: byFingerprint[fp] in leases)
    }

    /** The objects of one lease: all that an operation on it may modify. */
    function Objects(id: LeaseId): set<object>
      reads this
    {
      (if id in leases then {leases[id]} else {}) + (if id in runtimes then {runtimes[id]} else {})
    }

    function EntryOf(id: LeaseId): Entry
      requires Valid() && id in leases
      reads this, Objects(id)
    {
      Entry(leases[id].View(), runtimes[id].View())
    }

    function AllObjects(): set<object>
      reads this
    {
      (set id | id in leases :: leases[id] as object) + (set id | id in runtimes :: runtimes[id] as object)
    }

    /** The whole manager as a value. */
    ghost function Entries(): map<LeaseId, Entry>
      requires Valid()
      reads this, AllObjects()
    {
      map id | id in leases :: EntryOf(id)
    }

    /** Whoever touches the objects of one lease changes that lease and no other. */
    twostate lemma OnlyOneChanged(id: LeaseId)
      requires old(Valid()) && unchanged(this) && id in leases
      requires unchanged(old(AllObjects()) - old(Objects(id)))
      ensures Valid() && Entries() == old(Entries())[id := EntryOf(id)]
    {
      forall x | x in leases && x != id
        ensures EntryOf(x) == old(EntryOf(x))
      {
        assert leases[x] in old(AllObjects()) - old(Objects(id));
        assert runtimes[x] in old(AllObjects()) - old(Objects(id));
      }
    }

    /** A new lease leaves the others as they were. */
    twostate lemma OneTracked(id: LeaseId)
      requires old(Valid()) && Valid() && id !in old(leases) && id in leases && unchanged(old(AllObjects()))
      requires leases == old(leases)[id := leases[id]] && runtimes == old(runtimes)[id := runtimes[id]]
      ensures Entries() == old(Entries())[id := EntryOf(id)]
    {
      OthersStay(id);
    }

    twostate lemma OthersStay(id: LeaseId)
      requires old(Valid()) && Valid() && id !in old(leases) && id in leases && unchanged(old(AllObjects()))
      requires leases == old(leases)[id := leases[id]] && runtimes == old(runtimes)[id := runtimes[id]]
      ensures forall x | x in old(leases) :: x in leases && EntryOf(x) == old(EntryOf(x))
    {
      forall x | x in old(leases)
        ensures EntryOf(x) == old(EntryOf(x))
      {
        assert leases[x] == old(leases)[x] && leases[x] in old(AllObjects());
        assert runtimes[x] == old(runtimes)[x] && runtimes[x] in old(AllObjects());
      }
    }

    twostate lemma ObjectsOfOneTracked(id: LeaseId)
      requires id in leases && id in runtimes
      requires leases == old(leases)[id := leases[id]] && runtimes == old(runtimes)[id := runtimes[id]]
      ensures AllObjects() - old(AllObjects()) <= {leases[id], runtimes[id]}
    {
      assert forall x | x in leases && x != id :: x in old(leases) && leases[x] == old(leases)[x];
      assert forall x | x in runtimes && x != id :: x in old(runtimes) && runtimes[x] == old(runtimes)[x];
    }

    constructor (settings: Settings)
      ensures Valid() && leases == map[] && byFingerprint == map[] && this.settings == settings
    {
      this.settings := settings;
      leases, runtimes, byFingerprint := map[], map[], map[];
    }

    method Arm(id: LeaseId) returns (found: bool)
      requires Valid()
      modifies Objects(id)
      ensures found == (id in leases)
      ensures found ==> EntryOf(id) == AfterArm(old(EntryOf(id)))
    {
      if id !in leases {
        return false;
      }
      var lease := leases[id];
      lease.Arm();
      return true;
    }

    method Invalidate(id: LeaseId) returns (found: bool)
      requires Valid()
      modifies Objects(id)
      ensures found == (id in leases)
      ensures found ==> EntryOf(id) == AfterInvalidate(old(EntryOf(id)))
    {
      if id !in leases {
        return false;
      }
      var lease, runtime := leases[id], runtimes[id];
      lease.state := Invalidated;
      runtime.CancelPendingWarm();
      runtime.realRequestActive := false;
      runtime.warmRequestActive := false;
      return true;
    }

    method Complete(id: LeaseId) returns (found: bool)
      requires Valid()
      modifies Objects(id)
      ensures found == (id in leases)
      ensures found ==> EntryOf(id) == AfterComplete(old(EntryOf(id)))
    {
      if id !in leases {
        return false;
      }
      var lease, runtime := leases[id], runtimes[id];
      lease.activeTargets := {};
      runtime.CancelPendingWarm();
      lease.Disarm();
      return true;
    }

    method TargetStarted(id: LeaseId, target: string) returns (found: bool)
      requires Valid()
      modifies Objects(id)
      ensures found == (id in leases)
      ensures found ==> EntryOf(id) == AfterTargetStarted(old(EntryOf(id)), target)
    {
      if id !in leases {
        return false;
      }
      var lease := leases[id];
      if target != "" {
        lease.activeTargets := lease.activeTargets + {target};
        if |lease.activeTargets| == 1 {
          lease.Arm();
        }
      }
      return true;
    }

    method TargetFinished(id: LeaseId, target: string) returns (found: bool)
      requires Valid()
      modifies Objects(id)
      ensures found == (id in leases)
      ensures found ==> EntryOf(id) == AfterTargetFinished(old(EntryOf(id)), target)
    {
      if id !in leases {
        return false;
      }
      var lease, runtime := leases[id], runtimes[id];
      if target != "" {
        lease.activeTargets := lease.activeTargets - {target};
        if lease.activeTargets == {} {
          runtime.CancelPendingWarm();
          lease.Disarm();
        }
      }
      return true;
    }

    method BeforeNormalRequest(id: LeaseId, now: real) returns (found: bool)
      requires Valid()
      modifies Objects(id)
      ensures found == (id in leases)
      ensures found ==> EntryOf(id) == AfterRequestStart(old(EntryOf(id)), now)
    {
      if id !in leases {
        return false;
      }
      var lease, runtime := leases[id], runtimes[id];
      runtime.realRequestActive := true;
      lease.generation := lease.generation + 1;
      lease.lastRealRequestAt := now;
      runtime.CancelPendingWarm();
      return true;
    }

    method AfterNormalRequest(id: LeaseId, outcome: Outcome, now: real) returns (found: bool)
      requires Valid()
      modifies Objects(id)
      ensures found == (id in leases)
      ensures found ==> EntryOf(id) == AfterRequestEnd(old(EntryOf(id)), outcome, now)
    {
      if id !in leases {
        return false;
      }
      var lease, runtime := leases[id], runtimes[id];
      runtime.realRequestActive := false;
      if lease.state == Invalidated || outcome == Failed {
        return true;
      }
      if Verified(outcome) {
        runtime.circuitOpen := false;
        runtime.consecutiveWarmMisses := 0;
      }
      lease.lastCacheTouchAt := Some(now);
      if outcome == ConfirmedHit {
        lease.lastConfirmedHitAt := Some(now);
      }
      if lease.activeTargets != {} {
        lease.Arm();
      } else {
        lease.Disarm();
      }
      return true;
    }

    method UpdateCostEstimates(id: LeaseId, prefix: nat, pricing: Option<PricingTable>, fallback: Option<real>) returns (found: bool)
      requires Valid() && (pricing.Some? ==> ValidPricing(pricing.value))
      modifies Objects(id)
      ensures found == (id in leases)
      ensures found ==> EntryOf(id) == AfterReprice(old(EntryOf(id)), prefix, pricing, fallback)
    {
      if id !in leases {
        return false;
      }
      var lease := leases[id];
      if prefix == 0 {
        return true;
      }
      if pricing.Some? {
        var costs := EstimateResumeCosts(prefix, pricing.value);
        lease.coldCost := Some(costs.cold);
        lease.cachedCost := Some(costs.cached);
        lease.nextWarmCost := Some(Pricing.NextWarmCost(prefix, pricing.value));
      } else {
        lease.coldCost := None;
        lease.cachedCost := None;
        lease.nextWarmCost := fallback;
      }
      return true;
    }

    method RefreshTtl(id: LeaseId, ttl: real) returns (found: bool)
      requires Valid()
      modifies Objects(id)
      ensures found == (id in leases)
      ensures found ==> EntryOf(id) == AfterRefreshTtl(old(EntryOf(id)), ttl)
    {
      if id !in leases {
        return false;
      }
      var lease := leases[id];
      lease.estimatedTtl := ttl;
      return true;
    }

    /** The first segment of an evaluation: everything before the lock. */
    method BeginEvaluation(id: LeaseId, now: real) returns (verdict: Verdict)
      requires Valid()
      modifies Objects(id)
      ensures id !in leases ==> verdict == Done(StoppedNoTargets)
      ensures id in leases ==> Decided(EntryOf(id), verdict) == DecideEvaluation(settings, old(EntryOf(id)), now)
    {
      if id !in leases {
        return Done(StoppedNoTargets);
      }
      var lease, runtime := leases[id], runtimes[id];
      if lease.activeTargets == {} {
        return Done(StoppedNoTargets);
      }
      if runtime.realRequestActive {
        return Done(SkippedBusy);
      }
      if runtime.warmRequestActive {
        return Done(SkippedAlreadyWarming);
      }
      if lease.state == Invalidated {
        return Done(StoppedInvalidated);
      }
      if runtime.circuitOpen {
        return Done(SkippedCircuitOpen);
      }
      var due := NextDeadline(settings, lease.View());
      if due == None {
        return Done(SkippedUnknownTtl);
      }
      if now < due.value {
        runtime.scheduledGeneration := Some(lease.generation);
        runtime.pendingWarm := true;
        if lease.state != EconomicallyStopped {
          lease.state := WarmScheduled;
        }
        return Done(Scheduled);
      }
      if !GatePasses(settings, lease.View()) {
        lease.state := EconomicallyStopped;
        return Done(StoppedEconomic);
      }
      var authorised := runtime.scheduledGeneration.UnwrapOr(lease.generation);
      runtime.scheduledGeneration := None;
      runtime.pendingWarm := false;
      if lease.generation != authorised {
        return Done(SkippedStale);
      }
      return Proceed(authorised);
    }

    /** The second segment, under the fingerprint's lock: None means the warm is on its way to the executor. */
    method SendUnderLock(id: LeaseId, authorised: nat, sendable: bool) returns (refusal: Option<LeaseDecision>)
      requires Valid() && id in leases
      modifies Objects(id)
      ensures refusal == LockedRefusal(settings, old(EntryOf(id)), authorised, sendable)
      ensures EntryOf(id) == if refusal == None then AfterSend(old(EntryOf(id))) else old(EntryOf(id))
    {
      var lease, runtime := leases[id], runtimes[id];
      if runtime.realRequestActive {
        return Some(SkippedBusy);
      }
      if lease.activeTargets == {} {
        return Some(SkippedNoTargets);
      }
      if lease.generation != authorised {
        return Some(SkippedStale);
      }
      if settings.dryRun {
        return Some(SkippedDryRun);
      }
      if runtime.circuitOpen {
        return Some(SkippedCircuitOpen);
      }
      if !sendable {
        return Some(SkippedUnsupported);
      }
      runtime.warmRequestActive := true;
      lease.state := Warming;
      return None;
    }

    /** The third segment: the clean-up and the executor's answer. */
    method ApplyWarmResult(id: LeaseId, result: WarmResult, now: real) returns (decision: LeaseDecision)
      requires Valid() && id in leases
      modifies Objects(id)
      ensures decision == WarmDecisionOf(result)
      ensures EntryOf(id) == AfterWarmResult(old(EntryOf(id)), result, now)
    {
      ReturnWarm(id);
      decision := FoldWarmResult(leases[id], runtimes[id], result, now);
    }

    /** The clean-up alone, which is all that happens when the executor call is cancelled. */
    method ReturnWarm(id: LeaseId)
      requires Valid() && id in leases
      modifies Objects(id)
      ensures EntryOf(id) == AfterWarmReturned(old(EntryOf(id)))
    {
      var lease, runtime := leases[id], runtimes[id];
      runtime.warmRequestActive := false;
      lease.Arm();
    }

    static method FoldWarmResult(lease: CacheLease, runtime: LeaseRuntime, result: WarmResult, now: real)
      returns (decision: LeaseDecision)
      modifies lease, runtime
      ensures decision == WarmDecisionOf(result)
      ensures result.outcome == None ==> lease.View() == old(lease.View()) && runtime.View() == old(runtime.View())
      ensures result.outcome.Some? ==> lease.View() == PaidLease(old(lease.View()), result, now)
      ensures result.outcome == Some(ConfirmedHit) ==>
                runtime.View() == old(runtime.View()).(consecutiveWarmMisses := 0)
      ensures result.outcome.Some? && result.outcome.value != ConfirmedHit ==>
                runtime.View() == MissedRuntime(old(runtime.View()))
    {
      if result.outcome == None {
        return SkippedUnsupported;
      }
      lease.warmCount := lease.warmCount + 1;
      lease.warmCost := lease.warmCost + result.cost;
      if result.outcome.value == ConfirmedHit {
        runtime.consecutiveWarmMisses := 0;
        lease.lastCacheTouchAt := Some(now);
        lease.lastConfirmedHitAt := Some(now);
        return WarmedConfirmedHit;
      }
      runtime.CountMiss();
      if result.outcome.value == MissRebuilt {
        if result.wroteCache {
          lease.lastCacheTouchAt := Some(now);
        }
        return WarmedMissRebuilt;
      }
      return if result.outcome.value == SuccessUnverified then WarmedUnverified else WarmedFailed;
    }

    // -- find or create -------------------------------------------------------

    /** find_or_create's lookup: the lease indexed under the fingerprint, when it is this session's. */
    function Known(identity: Identity): Option<LeaseId>
      requires Valid()
      reads this
    {
      if identity.fingerprint in byFingerprint
         && leases[byFingerprint[identity.fingerprint]].identity.session == identity.session
      then Some(byFingerprint[identity.fingerprint])
      else None
    }

    /** The lease of a physical identity: the indexed one when it belongs to the session, even if it was
        invalidated; otherwise a new one, after invalidating every lease it supersedes. */
    method FindOrCreate(newId: LeaseId, identity: Identity, ttl: real) returns (id: LeaseId)
      requires Valid() && newId !in leases
      modifies this, AllObjects()
      ensures Valid() && id in leases && old(leases).Keys <= leases.Keys
      ensures id == old(Known(identity)).UnwrapOr(newId)
      ensures fresh(AllObjects() - old(AllObjects())) && fresh(Objects(id) - old(AllObjects()))
      ensures old(Known(identity)).Some? ==>
                leases == old(leases) && byFingerprint == old(byFingerprint) && Entries() == old(Entries())
      ensures old(Known(identity)).None? ==>
                && byFingerprint == old(byFingerprint)[identity.fingerprint := newId]
                && Entries() == AllSuperseded(old(Entries()), identity)[newId := NewEntry(identity, ttl)]
                && CreatedBeside(old(Entries()), Entries(), newId, identity, ttl)
    {
      CreationLeavesOrReplaces(Entries(), newId, identity, ttl);
      if identity.fingerprint in byFingerprint {
        id := byFingerprint[identity.fingerprint];
        if leases[id].identity.session == identity.session {
          return;
        }
      }
      Create(newId, identity, ttl);
      id := newId;
    }

    method Create(newId: LeaseId, identity: Identity, ttl: real)
      requires Valid() && newId !in leases
      modifies this, AllObjects()
      ensures Valid() && newId in leases && old(leases).Keys <= leases.Keys
      ensures fresh(AllObjects() - old(AllObjects())) && fresh(Objects(newId))
      ensures byFingerprint == old(byFingerprint)[identity.fingerprint := newId]
      ensures Entries() == AllSuperseded(old(Entries()), identity)[newId := NewEntry(identity, ttl)]
    {
      InvalidateSuperseded(identity);
      label invalidated:
      Track(newId, identity, ttl);
      OneTracked@invalidated(newId);
      ObjectsOfOneTracked@invalidated(newId);
    }

    method Track(id: LeaseId, identity: Identity, ttl: real)
      requires Valid() && id !in leases
      modifies this
      ensures Valid() && byFingerprint == old(byFingerprint)[identity.fingerprint := id]
      ensures id in leases && leases == old(leases)[id := leases[id]] && runtimes == old(runtimes)[id := runtimes[id]]
      ensures fresh(leases[id]) && fresh(runtimes[id]) && EntryOf(id) == NewEntry(identity, ttl)
    {
      var lease := new CacheLease(identity, ttl);
      var runtime := new LeaseRuntime();
      leases := leases[id := lease];
      runtimes := runtimes[id := runtime];
      byFingerprint := byFingerprint[identity.fingerprint := id];
    }

    method InvalidateSuperseded(identity: Identity)
      requires Valid()
      modifies AllObjects()
      ensures Entries() == AllSuperseded(old(Entries()), identity)
    {
      var rest := leases.Keys;
      ghost var was := Entries();
      while rest != {}
        invariant rest <= leases.Keys
        invariant Entries() == PartlySuperseded(was, identity, rest)
        decreases rest
      {
        var x :| x in rest;
        label before:
        InvalidateIfSuperseded(x, identity);
        OnlyOneChanged@before(x);
        OneMoreSuperseded(was, identity, rest, x);
        rest := rest - {x};
      }
    }

    method InvalidateIfSuperseded(id: LeaseId, identity: Identity)
      requires Valid() && id in leases
      modifies Objects(id)
      ensures EntryOf(id) == AfterSupersede(old(EntryOf(id)), identity)
    {
      if Superseded(leases[id].View(), identity) {
        var _ := Invalidate(id);
      }
    }
  }
}
