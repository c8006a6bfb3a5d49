/** The relay's request hooks (lease_controller.py): the header's target count becomes synthetic targets, a request is
    bracketed on its lease, and the lease's route pin is reconciled. */
module LeaseController {
  import opened Wrappers
  import opened Pricing
  import opened Leases
  import opened LeaseLaws
  import opened LeaseManager
  import opened RouteAffinity
  import Observation

  // -- synthetic target ids ---------------------------------------------------

  function Digits(n: nat): (s: string)
    ensures s != []
  {
    var last := [(n % 10) as char + '0'];
    if n < 10 then last else Digits(n / 10) + last
  }

  function TargetId(i: nat): string {
    "bg-" + Digits(i)
  }

  function Desired(count: nat): set<string> {
    set i | 1 <= i <= count :: TargetId(i)
  }

  lemma {:induction false} DigitsAreInjective(a: nat, b: nat)
    requires Digits(a) == Digits(b)
    ensures a == b
  {
    var s, t := Digits(a), Digits(b);
    assert s[|s| - 1] == (a % 10) as char + '0' && t[|t| - 1] == (b % 10) as char + '0';
    assert a % 10 == b % 10;
    assert (|s| == 1 <==> a < 10) && (|t| == 1 <==> b < 10);
    if a >= 10 {
      assert Digits(a / 10) == s[..|s| - 1] == t[..|t| - 1] == Digits(b / 10);
      DigitsAreInjective(a / 10, b / 10);
    }
  }

  /** The header's count is the number of targets the lease carries. */
  lemma {:induction false} DesiredHasCountMembers(count: nat)
    ensures |Desired(count)| == count
  {
    if count > 0 {
      DesiredHasCountMembers(count - 1);
      if TargetId(count) in Desired(count - 1) {
        var i :| 1 <= i <= count - 1 && TargetId(i) == TargetId(count);
        assert Digits(i) == TargetId(i)[3..] == TargetId(count)[3..] == Digits(count);
        DigitsAreInjective(i, count);
      }
      assert Desired(count) == Desired(count - 1) + {TargetId(count)};
    } else {
      assert Desired(0) == {};
    }
  }

  // -- reconciling the targets ------------------------------------------------

  /** The targets are gone; the last one going disarms. */
  function AfterFinishing(e: Entry, gone: set<string>): Entry {
    if gone == {} then e
    else
      var lease := e.lease.(activeTargets := e.lease.activeTargets - gone);
      if lease.activeTargets == {} then Entry(Disarmed(lease), e.runtime.(pendingWarm := false)) else e.(lease := lease)
  }

  /** The targets have come; the first one arms. */
  function AfterStarting(e: Entry, come: set<string>): Entry {
    if come == {} then e
    else
      var lease := e.lease.(activeTargets := e.lease.activeTargets + come);
      e.(lease := if e.lease.activeTargets == {} then TryArm(lease) else lease)
  }

  function AfterSync(e: Entry, desired: set<string>): Entry {
    AfterStarting(AfterFinishing(e, e.lease.activeTargets - desired), desired - e.lease.activeTargets)
  }

  lemma SyncedTargets(e: Entry, desired: set<string>)
    ensures AfterSync(e, desired).lease.activeTargets == desired
  {
    var held := e.lease.activeTargets;
    assert held - (held - desired) + (desired - held) == desired;
    assert held - {} == held;
    assert desired - held == {} ==> held - (held - desired) == desired;
  }

  /** One header on a lease: its targets, then the real request. */
  function AfterHeader(e: Entry, desired: set<string>, now: real): Entry {
    AfterRequestStart(AfterSync(e, desired), now)
  }

  /** Finishing one more target, in any order, is finishing them together. */
  lemma FinishingOneMore(e: Entry, gone: set<string>, target: string)
    requires target != ""
    ensures AfterTargetFinished(AfterFinishing(e, gone), target) == AfterFinishing(e, gone + {target})
  {
    assert e.lease.activeTargets - (gone + {target}) == e.lease.activeTargets - gone - {target};
    if gone != {} && e.lease.activeTargets - gone == {} {
      assert e.lease.activeTargets - gone - {target} == {};
    }
  }

  lemma StartingOneMore(e: Entry, come: set<string>, target: string)
    requires target != "" && target !in come && (come + {target}) * e.lease.activeTargets == {}
    ensures AfterTargetStarted(AfterStarting(e, come), target) == AfterStarting(e, come + {target})
  {
    var held := e.lease.activeTargets;
    assert target in come + {target};
    assert target !in held by {
      assert target in held ==> target in (come + {target}) * held;
    }
    assert target !in held + come;
    FirstIsAlone(held + come, target);
    assert held + (come + {target}) == held + come + {target};
    if come == {} {
      assert held + come == held;
    } else {
      var other :| other in come;
      assert other in held + come;
    }
  }

  lemma FirstIsAlone(held: set<string>, target: string)
    requires target !in held
    ensures |held + {target}| == 1 <==> held == {}
  {
    assert |held + {target}| == |held| + 1;
  }

  /** Armed by the first target, disarmed by the last, and nothing in between: what one header does to a lease whose
      targets were set by the header before it. */
  lemma SyncArmsOnFirstAndDisarmsOnLast(e: Entry, before: nat, after: nat)
    requires e.lease.activeTargets == Desired(before)
    ensures var synced := AfterSync(e, Desired(after));
            && synced.lease == e.lease.(activeTargets := Desired(after), state := synced.lease.state)
            && synced.lease.state ==
               (if before > 0 && after == 0 then Inactive
                else if before == 0 && after > 0 then TryArm(e.lease).state
                else e.lease.state)
            && synced.runtime == (if before > 0 && after == 0 then e.runtime.(pendingWarm := false) else e.runtime)
  {
    DesiredHasCountMembers(before);
    DesiredHasCountMembers(after);
    SyncedTargets(e, Desired(after));
    assert before <= after ==> Desired(before) - Desired(after) == {};
    assert after <= before ==> Desired(after) - Desired(before) == {};
    SyncBySets(e, Desired(before), Desired(after));
  }

  /** The same for any two sets of which one contains the other. */
  lemma SyncBySets(e: Entry, held: set<string>, desired: set<string>)
    requires e.lease.activeTargets == held && (held - desired == {} || desired - held == {})
    ensures var synced := AfterSync(e, desired);
            && synced.lease == e.lease.(activeTargets := desired, state := synced.lease.state)
            && synced.lease.state ==
               (if held != {} && desired == {} then Inactive
                else if held == {} && desired != {} then TryArm(e.lease).state
                else e.lease.state)
            && synced.runtime == (if held != {} && desired == {} then e.runtime.(pendingWarm := false) else e.runtime)
  {
    SyncedTargets(e, desired);
    assert held - {} == held && held + {} == held;
    assert held - desired == {} && desired - held == {} ==> held == desired;
  }

  /** A header of zero followed by a header of some arms even an invalidated lease that still had targets, and only
      because it had some. */
  lemma ZeroThenSomeRevivesExactlyWhenTargetsWereLeft(e: Entry, before: nat, after: nat)
    requires e.lease.state == Invalidated && e.lease.activeTargets == Desired(before) && after > 0
    ensures var revived := AfterSync(AfterSync(e, Desired(0)), Desired(after));
            revived.lease.state == (if before > 0 then Armed else Invalidated)
  {
    SyncArmsOnFirstAndDisarmsOnLast(e, before, 0);
    SyncArmsOnFirstAndDisarmsOnLast(AfterSync(e, Desired(0)), 0, after);
  }

  // -- what a request's evidence pins -----------------------------------------

  /** The latest route event of the lease's session recorded since this request began. */
  datatype RouteEvidence = RouteEvidence(verdict: Observation.Verdict, previous: Option<RouteHash>, next: Option<RouteHash>)

  datatype AffinitySettings = AffinitySettings(
    enabled: bool, extraCost: real, margin: real, probability: real, pricing: Option<PricingTable>)

  predicate ValidAffinity(s: AffinitySettings) {
    s.pricing.Some? ==> ValidPricing(s.pricing.value)
  }

  /** What a cold resume would cost more than a cached one; None when pricing is unknown. */
  function AffinitySavings(s: AffinitySettings, lease: Lease, prefix: nat): Option<real>
    requires ValidAffinity(s)
  {
    if lease.coldCost.Some? && lease.cachedCost.Some? then Some(lease.coldCost.value - lease.cachedCost.value)
    else if s.pricing.Some? && prefix > 0 then
      var costs := EstimateResumeCosts(prefix, s.pricing.value);
      Some(costs.cold - costs.cached)
    else None
  }

  predicate IsNamed(route: Option<RouteHash>) {
    route.Some? && route.value != ""
  }

  function WantedPin(s: AffinitySettings, lease: Lease, prefix: nat, evidence: Option<RouteEvidence>): Option<FreshPin>
    requires ValidAffinity(s)
  {
    var savings := AffinitySavings(s, lease, prefix);
    if && evidence.Some? && evidence.value.verdict == Observation.RouteInstability
       && IsNamed(evidence.value.previous) && IsNamed(evidence.value.next)
       && savings.Some? && EvaluateAffinity(savings.value, s.extraCost, s.probability, s.margin).apply
    then Some(FreshPin(evidence.value.previous.value, lease.estimatedTtl))
    else None
  }

  /** Without a known price, without a route change, or without savings above the premium, nothing is pinned. */
  lemma PinNeedsEvidenceAndSavings(s: AffinitySettings, lease: Lease, prefix: nat, evidence: Option<RouteEvidence>)
    requires ValidAffinity(s) && s.extraCost >= 0.0 && s.margin >= 0.0
    ensures WantedPin(s, lease, prefix, evidence).Some? ==>
              && evidence.Some? && evidence.value.verdict == Observation.RouteInstability
              && evidence.value.previous == Some(WantedPin(s, lease, prefix, evidence).value.route)
              && AffinitySavings(s, lease, prefix).Some?
              && AffinitySavings(s, lease, prefix).value > s.extraCost + s.margin
  {
    var savings := AffinitySavings(s, lease, prefix);
    if savings.Some? {
      ApprovedPinPays(savings.value, s.extraCost, s.probability, s.margin);
    }
  }

  /** What a cold resume of the lease costs beyond a cached one: from its own estimates when it has both, else from the
      configured prices of its prefix, else unknown. */
  predicate IsSavings(s: AffinitySettings, lease: Lease, prefix: nat, savings: Option<real>) {
    if lease.coldCost.Some? && lease.cachedCost.Some? then savings == Some(lease.coldCost.value - lease.cachedCost.value)
    else if s.pricing.Some? && prefix > 0 then
      && savings.Some?
      && savings.value == prefix as real * (ColdRate(s.pricing.value) - s.pricing.value.cacheRead) / TOKENS_PER_PRICE
    else savings == None
  }

  lemma SavingsAreTheRateGap(s: AffinitySettings, lease: Lease, prefix: nat, savings: Option<real>)
    requires ValidAffinity(s) && IsSavings(s, lease, prefix, savings)
    ensures AffinitySavings(s, lease, prefix).Some? <==> savings.Some?
    ensures savings.Some? ==> AffinitySavings(s, lease, prefix).value == savings.value
  {
    if s.pricing.Some? {
      AvoidableLossIsTheRateDifference(prefix, s.pricing.value, 0);
    }
  }

  /** Exactly when the evidence of a request asks for a pin, and for which: the latest event says the route was unstable,
      both routes have names, the savings are known, and scaled by the probability they exceed premium and margin. The pin
      is the route before the change, for the ttl estimate. */
  lemma PinIsWantedExactly(s: AffinitySettings, lease: Lease, prefix: nat, evidence: Option<RouteEvidence>, savings: Option<real>)
    requires ValidAffinity(s) && IsSavings(s, lease, prefix, savings)
    ensures var p := if s.probability < 0.0 then 0.0 else if s.probability > 1.0 then 1.0 else s.probability;
            var wish := WantedPin(s, lease, prefix, evidence);
            && (wish.Some? <==>
                  && evidence.Some? && evidence.value.verdict == Observation.RouteInstability
                  && evidence.value.previous.Some? && evidence.value.previous.value != ""
                  && evidence.value.next.Some? && evidence.value.next.value != ""
                  && savings.Some? && savings.value * p > s.extraCost + s.margin)
            && (wish.Some? ==> wish.value.lifetime == lease.estimatedTtl && evidence.value.previous == Some(wish.value.route))
  {
    SavingsAreTheRateGap(s, lease, prefix, savings);
    if savings.Some? {
      ApprovedExactly(savings.value, s.extraCost, s.probability, s.margin);
    }
  }

  // -- the controller ---------------------------------------------------------

  /** What one request reports when it ends. `usage` is its prompt tokens, None when none were normalised; `prefix` is
      what the lease holds as its prefix afterwards. */
  datatype RequestReport = RequestReport(
    outcome: Outcome, usage: Option<nat>, pricing: Option<PricingTable>, reportedCost: Option<real>,
    ttl: real, prefix: nat, evidence: Option<RouteEvidence>)

  function AfterReport(e: Entry, report: RequestReport, now: real): Entry
    requires report.pricing.Some? ==> ValidPricing(report.pricing.value)
  {
    AfterRefreshTtl(
      AfterReprice(AfterRequestEnd(e, report.outcome, now), report.usage.UnwrapOr(0), report.pricing, report.reportedCost),
      report.ttl)
  }

  class LeaseController {
    const manager: LeaseManager
    const registry: RouteAffinityRegistry
    const affinity: AffinitySettings
    var targetIds: map<LeaseId, set<string>>

    constructor (manager: LeaseManager, affinity: AffinitySettings)
      ensures this.manager == manager && this.affinity == affinity
      ensures targetIds == map[] && fresh(registry) && registry.entries == map[]
    {
      this.manager := manager;
      this.affinity := affinity;
      registry := new RouteAffinityRegistry();
      targetIds := map[];
    }

    function Tracked(id: LeaseId): set<string>
      reads this
    {
      TrackedIn(targetIds, id)
    }

    /** Every lease carries exactly the targets its last header gave it: the relay is the only one to move them. */
    ghost predicate InStep()
      requires manager.Valid()
      reads this, manager, manager.AllObjects()
    {
      CarryTracked(manager.Entries(), targetIds)
    }

    /** Reconciles a lease's targets with the ones a header asks for. */
    method SyncTargets(id: LeaseId, desired: set<string>)
      requires manager.Valid() && id in manager.leases && "" !in desired
      requires manager.EntryOf(id).lease.activeTargets == Tracked(id) && "" !in Tracked(id)
      modifies this`targetIds, manager.Objects(id)
      ensures targetIds == old(targetIds)[id := desired]
      ensures manager.EntryOf(id) == AfterSync(old(manager.EntryOf(id)), desired)
    {
      var current := Tracked(id);
      FinishTargets(manager, id, current - desired);
      StartTargets(manager, id, desired - current);
      targetIds := targetIds[id := desired];
    }

    /** The set is walked in no particular order. */
    static method FinishTargets(manager: LeaseManager, id: LeaseId, targets: set<string>)
      requires manager.Valid() && id in manager.leases && "" !in targets
      modifies manager.Objects(id)
      ensures manager.EntryOf(id) == AfterFinishing(old(manager.EntryOf(id)), targets)
    {
      ghost var start := manager.EntryOf(id);
      var rest := targets;
      ghost var done: set<string> := {};
      while rest != {}
        invariant done + rest == targets
        invariant manager.EntryOf(id) == AfterFinishing(start, done)
        decreases rest
      {
        var target :| target in rest;
        FinishingOneMore(start, done, target);
        var _ := manager.TargetFinished(id, target);
        rest, done := rest - {target}, done + {target};
      }
      assert done == targets;
    }

    static method StartTargets(manager: LeaseManager, id: LeaseId, targets: set<string>)
      requires manager.Valid() && id in manager.leases && "" !in targets
      requires targets * manager.EntryOf(id).lease.activeTargets == {}
      modifies manager.Objects(id)
      ensures manager.EntryOf(id) == AfterStarting(old(manager.EntryOf(id)), targets)
    {
      ghost var start := manager.EntryOf(id);
      var rest := targets;
      ghost var done: set<string> := {};
      while rest != {}
        invariant done + rest == targets && done * rest == {}
        invariant manager.EntryOf(id) == AfterStarting(start, done)
        decreases rest
      {
        var target :| target in rest;
        assert done + {target} <= targets;
        StartingOneMore(start, done, target);
        var _ := manager.TargetStarted(id, target);
        rest, done := rest - {target}, done + {target};
      }
      assert done == targets;
    }

    /** The pinned route for a lease's request, if affinity is on and the pin may still be served. */
    method ActiveAffinityRoute(id: LeaseId, now: real) returns (route: Option<RouteHash>)
      requires manager.Valid()
      modifies registry
      ensures route == if affinity.enabled && id in manager.leases
                       then ServedRoute(old(registry.PinOf(id)), manager.EntryOf(id).lease.generation, now) else None
      ensures registry.PinOf(id) == if affinity.enabled && id in manager.leases
                                    then AfterLookup(old(registry.PinOf(id)), manager.EntryOf(id).lease.generation, now)
                                    else old(registry.PinOf(id))
      ensures forall x | x != id :: registry.PinOf(x) == old(registry.PinOf(x))
    {
      if !affinity.enabled || id !in manager.leases {
        return None;
      }
      route := registry.ActiveRouteFor(id, manager.leases[id].generation, now);
    }

    /** A failure clears the pin; so does the generation moving past it; then the fresh evidence may set another. */
    method ReconcileAffinity(id: LeaseId, lease: CacheLease, prefix: nat, outcome: Outcome,
                             evidence: Option<RouteEvidence>, now: real)
      requires ValidAffinity(affinity)
      modifies registry
      ensures registry.PinOf(id) ==
              if affinity.enabled
              then AfterReconcile(old(registry.PinOf(id)), lease.generation, outcome,
                                  WantedPin(affinity, lease.View(), prefix, evidence), now)
              else old(registry.PinOf(id))
      ensures forall x | x != id :: registry.PinOf(x) == old(registry.PinOf(x))
    {
      if !affinity.enabled {
        return;
      }
      if outcome == Failed {
        registry.Clear(id);
        return;
      }
      var generation := registry.GenerationFor(id);
      if generation.Some? && generation.value < lease.generation {
        registry.Clear(id);
      }
      MaybeSetAffinity(id, lease, prefix, evidence, now);
    }

    method MaybeSetAffinity(id: LeaseId, lease: CacheLease, prefix: nat, evidence: Option<RouteEvidence>, now: real)
      requires ValidAffinity(affinity)
      modifies registry
      ensures var wish := WantedPin(affinity, lease.View(), prefix, evidence);
              registry.PinOf(id) ==
              if wish.Some? then Some(Pin(wish.value.route, now + Max(wish.value.lifetime, 0.0), lease.generation))
              else old(registry.PinOf(id))
      ensures forall x | x != id :: registry.PinOf(x) == old(registry.PinOf(x))
    {
      if evidence == None || evidence.value.verdict != Observation.RouteInstability {
        return;
      }
      if !IsNamed(evidence.value.previous) || !IsNamed(evidence.value.next) {
        return;
      }
      var savings := AffinitySavings(affinity, lease.View(), prefix);
      if savings == None {
        return;
      }
      var decision := EvaluateAffinity(savings.value, affinity.extraCost, affinity.probability, affinity.margin);
      if !decision.apply {
        return;
      }
      registry.Set(id, Pin(evidence.value.previous.value, now + Max(lease.estimatedTtl, 0.0), lease.generation));
    }

    /** Targets and pins of leases the manager no longer knows are forgotten. */
    method PruneTargetIds()
      requires manager.Valid()
      modifies this`targetIds, registry
      ensures manager.Entries() == old(manager.Entries()) && (old(InStep()) ==> InStep())
      ensures targetIds.Keys == old(targetIds).Keys * manager.leases.Keys
      ensures forall x | x in manager.leases :: TrackedIn(targetIds, x) == TrackedIn(old(targetIds), x)
      ensures forall x :: registry.PinOf(x) == if x in manager.leases then old(registry.PinOf(x)) else None
    {
      assert (registry as object) !in manager.AllObjects();
      registry.Prune(manager.leases.Keys);
      assert manager.Entries() == old(manager.Entries());
      PruneSynthetic();
    }

    method PruneSynthetic()
      requires manager.Valid()
      modifies this`targetIds
      ensures manager.Entries() == old(manager.Entries()) && (old(InStep()) ==> InStep())
      ensures targetIds.Keys == old(targetIds).Keys * manager.leases.Keys
      ensures forall x | x in manager.leases :: TrackedIn(targetIds, x) == TrackedIn(old(targetIds), x)
    {
      targetIds := map id | id in targetIds && id in manager.leases :: targetIds[id];
      SameTrackedSameStep(manager.Entries(), old(targetIds), targetIds);
    }

    /** Before forwarding: find or create the lease, reconcile its targets, start the real request. */
    method OnRequestStart(newId: LeaseId, identity: Identity, ttl: real, count: nat, now: real) returns (id: LeaseId)
      requires manager.Valid() && InStep() && newId !in manager.leases && newId !in targetIds
      modifies this`targetIds, registry, manager, manager.AllObjects()
      ensures manager.Valid() && InStep() && id in manager.leases
      ensures id == old(manager.Known(identity)).UnwrapOr(newId)
      ensures manager.Entries() == Requested(old(manager.Entries()), old(manager.Known(identity)), newId, identity, ttl,
                                             Desired(count), now)
      ensures id in targetIds && targetIds[id] == Desired(count)
      ensures forall x | x in old(manager.leases) && x != id :: TrackedIn(targetIds, x) == TrackedIn(old(targetIds), x)
    {
      id := RequestWith(newId, identity, ttl, Desired(count), now);
    }

    method RequestWith(newId: LeaseId, identity: Identity, ttl: real, desired: set<string>, now: real) returns (id: LeaseId)
      requires manager.Valid() && InStep() && newId !in manager.leases && newId !in targetIds && "" !in desired
      modifies this`targetIds, registry, manager, manager.AllObjects()
      ensures manager.Valid() && InStep() && id in manager.leases
      ensures id == old(manager.Known(identity)).UnwrapOr(newId)
      ensures manager.Entries() == Requested(old(manager.Entries()), old(manager.Known(identity)), newId, identity, ttl, desired, now)
      ensures id in targetIds && targetIds[id] == desired
      ensures forall x | x in old(manager.leases) && x != id :: TrackedIn(targetIds, x) == TrackedIn(old(targetIds), x)
    {
      id := FindLease(newId, identity, ttl);
      Begin(id, desired, now);
    }

    method FindLease(newId: LeaseId, identity: Identity, ttl: real) returns (id: LeaseId)
      requires manager.Valid() && InStep() && newId !in manager.leases && newId !in targetIds
      modifies this`targetIds, registry, manager, manager.AllObjects()
      ensures manager.Valid() && InStep() && id in manager.leases
      ensures id == old(manager.Known(identity)).UnwrapOr(newId)
      ensures manager.Entries() == Found(old(manager.Entries()), old(manager.Known(identity)), newId, identity, ttl)
      ensures fresh(manager.Objects(id) - old(manager.AllObjects()))
      ensures forall x | x in old(manager.leases) :: TrackedIn(targetIds, x) == TrackedIn(old(targetIds), x)
    {
      ghost var entries, tracked, known := manager.Entries(), targetIds, manager.Known(identity);
      id := manager.FindOrCreate(newId, identity, ttl);
      FoundKeepsStep(entries, tracked, known, newId, identity, ttl);
      assert InStep();
      PruneTargetIds();
    }

    method Begin(id: LeaseId, desired: set<string>, now: real)
      requires manager.Valid() && InStep() && id in manager.leases && "" !in desired
      modifies this`targetIds, manager.Objects(id)
      ensures manager.Valid() && InStep() && id in manager.leases && targetIds == old(targetIds)[id := desired]
      ensures manager.Entries() == WithHeader(old(manager.Entries()), id, desired, now)
    {
      ghost var entries, tracked := manager.Entries(), targetIds;
      assert entries[id].lease.activeTargets == Tracked(id);
      BeginOn(id, desired, now);
      manager.OnlyOneChanged(id);
      HeaderKeepsStep(entries, tracked, id, desired, now);
    }

    method BeginOn(id: LeaseId, desired: set<string>, now: real)
      requires manager.Valid() && id in manager.leases && "" !in desired
      requires manager.EntryOf(id).lease.activeTargets == Tracked(id) && "" !in Tracked(id)
      modifies this`targetIds, manager.Objects(id)
      ensures targetIds == old(targetIds)[id := desired]
      ensures manager.EntryOf(id) == AfterHeader(old(manager.EntryOf(id)), desired, now)
    {
      SyncTargets(id, desired);
      var _ := manager.BeforeNormalRequest(id, now);
    }

    /** After the response: the outcome, the fresh prices, the fresh ttl, then the pin. */
    method OnRequestEnd(id: LeaseId, report: RequestReport, now: real)
      requires manager.Valid() && ValidAffinity(affinity)
      requires report.pricing.Some? ==> ValidPricing(report.pricing.value)
      modifies registry, manager.Objects(id)
      ensures manager.Valid() && manager.Entries() ==
              if id in manager.leases
              then old(manager.Entries())[id := AfterReport(old(manager.Entries())[id], report, now)] else old(manager.Entries())
      ensures registry.PinOf(id) ==
              if affinity.enabled && id in manager.leases
              then AfterReconcile(old(registry.PinOf(id)), manager.Entries()[id].lease.generation, report.outcome,
                                  WantedPin(affinity, manager.Entries()[id].lease, report.prefix, report.evidence), now)
              else old(registry.PinOf(id))
      ensures forall x | x != id :: registry.PinOf(x) == old(registry.PinOf(x))
      ensures targetIds == old(targetIds) && (old(InStep()) ==> InStep())
    {
      if id !in manager.leases {
        return;
      }
      FoldReport(id, report, now);
      ReconcileReport(id, report, now);
    }

    method ReconcileReport(id: LeaseId, report: RequestReport, now: real)
      requires manager.Valid() && id in manager.leases && ValidAffinity(affinity)
      modifies registry
      ensures manager.Entries() == old(manager.Entries()) && id in manager.Entries() && targetIds == old(targetIds)
      ensures registry.PinOf(id) ==
              if affinity.enabled
              then AfterReconcile(old(registry.PinOf(id)), manager.Entries()[id].lease.generation, report.outcome,
                                  WantedPin(affinity, manager.Entries()[id].lease, report.prefix, report.evidence), now)
              else old(registry.PinOf(id))
      ensures forall x | x != id :: registry.PinOf(x) == old(registry.PinOf(x))
    {
      assert (registry as object) !in manager.AllObjects();
      ReconcileAffinity(id, manager.leases[id], report.prefix, report.outcome, report.evidence, now);
    }

    method FoldReport(id: LeaseId, report: RequestReport, now: real)
      requires manager.Valid() && id in manager.leases
      requires report.pricing.Some? ==> ValidPricing(report.pricing.value)
      modifies manager.Objects(id)
      ensures manager.Valid() && manager.Entries() == old(manager.Entries())[id := AfterReport(old(manager.Entries())[id], report, now)]
      ensures old(InStep()) ==> InStep()
      ensures targetIds == old(targetIds) && registry.entries == old(registry.entries)
    {
      ghost var entries := manager.Entries();
      assert (registry as object) !in manager.Objects(id) && (this as object) !in manager.Objects(id);
      FoldReportInto(id, report, now);
      manager.OnlyOneChanged(id);
      ReportKeepsStep(entries, targetIds, id, report, now);
    }

    method FoldReportInto(id: LeaseId, report: RequestReport, now: real)
      requires manager.Valid() && id in manager.leases
      requires report.pricing.Some? ==> ValidPricing(report.pricing.value)
      modifies manager.Objects(id)
      ensures manager.EntryOf(id) == AfterReport(old(manager.EntryOf(id)), report, now)
    {
      var found := manager.AfterNormalRequest(id, report.outcome, now);
      if report.usage.Some? && report.usage.value > 0 {
        found := manager.UpdateCostEstimates(id, report.usage.value, report.pricing, report.reportedCost);
      }
      found := manager.RefreshTtl(id, report.ttl);
    }
  }

  // -- the requests of all sessions -------------------------------------------

  function TrackedIn(tracked: map<LeaseId, set<string>>, id: LeaseId): set<string> {
    if id in tracked then tracked[id] else {}
  }

  predicate CarryTracked(entries: map<LeaseId, Entry>, tracked: map<LeaseId, set<string>>) {
    forall id | id in entries ::
      entries[id].lease.activeTargets == TrackedIn(tracked, id) && "" !in TrackedIn(tracked, id)
  }

  /** All leases once the one a request is for has been found or created. */
  function Found(entries: map<LeaseId, Entry>, known: Option<LeaseId>, newId: LeaseId, identity: Identity, ttl: real)
    : map<LeaseId, Entry>
  {
    if known.Some? then entries else AllSuperseded(entries, identity)[newId := NewEntry(identity, ttl)]
  }

  function WithHeader(entries: map<LeaseId, Entry>, id: LeaseId, desired: set<string>, now: real): map<LeaseId, Entry> {
    if id in entries then entries[id := AfterHeader(entries[id], desired, now)] else entries
  }

  /** All leases after one header: found or created, its targets reconciled, its request started; the others as they were,
      or invalidated because the new one supersedes them. */
  function Requested(entries: map<LeaseId, Entry>, known: Option<LeaseId>, newId: LeaseId, identity: Identity, ttl: real,
                     desired: set<string>, now: real): map<LeaseId, Entry>
  {
    WithHeader(Found(entries, known, newId, identity, ttl), known.UnwrapOr(newId), desired, now)
  }

  lemma FoundKeepsStep(entries: map<LeaseId, Entry>, tracked: map<LeaseId, set<string>>, known: Option<LeaseId>,
                       newId: LeaseId, identity: Identity, ttl: real)
    requires CarryTracked(entries, tracked) && newId !in tracked
    ensures CarryTracked(Found(entries, known, newId, identity, ttl), tracked)
  {
  }

  lemma SameTrackedSameStep(entries: map<LeaseId, Entry>, tracked: map<LeaseId, set<string>>,
                            pruned: map<LeaseId, set<string>>)
    requires forall id | id in entries :: TrackedIn(pruned, id) == TrackedIn(tracked, id)
    ensures CarryTracked(entries, tracked) ==> CarryTracked(entries, pruned)
  {
  }

  lemma HeaderKeepsStep(entries: map<LeaseId, Entry>, tracked: map<LeaseId, set<string>>, id: LeaseId,
                        desired: set<string>, now: real)
    requires CarryTracked(entries, tracked) && id in entries && "" !in desired
    ensures CarryTracked(WithHeader(entries, id, desired, now), tracked[id := desired])
  {
    SyncedTargets(entries[id], desired);
  }

  /** Ending a request leaves every lease its targets. */
  lemma ReportKeepsStep(entries: map<LeaseId, Entry>, tracked: map<LeaseId, set<string>>, id: LeaseId,
                        report: RequestReport, now: real)
    requires id in entries && (report.pricing.Some? ==> ValidPricing(report.pricing.value))
    ensures CarryTracked(entries, tracked) ==> CarryTracked(entries[id := AfterReport(entries[id], report, now)], tracked)
  {
  }

  /** What the end of a request leaves on its lease. The request touched the cache if the lease is live and the outcome is
      no failure, and closed the breaker if the provider disclosed a hit or a miss. The costs are those of the tokens it
      used, and stay as they were when none are known. The lifetime is the refreshed one. */
  lemma ReportExactly(e: Entry, report: RequestReport, now: real)
    requires report.pricing.Some? ==> ValidPricing(report.pricing.value)
    ensures var e' := AfterReport(e, report, now);
            var lease, lease' := e.lease, e'.lease;
            var live := lease.state != Invalidated && report.outcome != Failed;
            var used := if report.usage.Some? then report.usage.value else 0;
            && lease' == lease.(estimatedTtl := report.ttl, lastCacheTouchAt := lease'.lastCacheTouchAt,
                                lastConfirmedHitAt := lease'.lastConfirmedHitAt, state := lease'.state,
                                coldCost := lease'.coldCost, cachedCost := lease'.cachedCost, nextWarmCost := lease'.nextWarmCost)
            && (live ==> lease'.lastCacheTouchAt == Some(now)) && (!live ==> lease'.lastCacheTouchAt == lease.lastCacheTouchAt)
            && (live && report.outcome == ConfirmedHit ==> lease'.lastConfirmedHitAt == Some(now))
            && (!live || report.outcome != ConfirmedHit ==> lease'.lastConfirmedHitAt == lease.lastConfirmedHitAt)
            && (live && report.outcome != SuccessUnverified ==>
                  e'.runtime == e.runtime.(realRequestActive := false, circuitOpen := false, consecutiveWarmMisses := 0))
            && (!live || report.outcome == SuccessUnverified ==> e'.runtime == e.runtime.(realRequestActive := false))
            && (used == 0 ==> lease'.coldCost == lease.coldCost && lease'.cachedCost == lease.cachedCost
                              && lease'.nextWarmCost == lease.nextWarmCost)
            && (used > 0 && report.pricing.None? ==>
                  lease'.coldCost == None && lease'.cachedCost == None && lease'.nextWarmCost == report.reportedCost)
            && (used > 0 && report.pricing.Some? ==>
                  && lease'.coldCost.Some? && lease'.cachedCost.Some? && lease'.nextWarmCost.Some?
                  && lease'.cachedCost.value * 1_000_000.0 == used as real * report.pricing.value.cacheRead)
  {
    RepricingExactly(AfterRequestEnd(e, report.outcome, now), report.usage.UnwrapOr(0), report.pricing, report.reportedCost);
  }
}
