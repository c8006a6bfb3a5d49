/** Route affinity (route_affinity.py): the economic gate of a pin, and the registry that holds at most one per lease. */
module RouteAffinity {
  import opened Wrappers
  import opened Leases

  /** A digest in hexadecimal; the source tests it for emptiness. */
  type RouteHash = string

  // -- the economic gate ------------------------------------------------------

  datatype AffinityDecision = AffinityDecision(
    apply: bool, expectedSavings: real, extraRouteCost: real, netBenefit: real, safetyMargin: real)

  function Clamped(probability: real): real {
    Max(0.0, Min(1.0, probability))
  }

  function EvaluateAffinity(savings: real, extra: real, probability: real, margin: real): AffinityDecision {
    var expected := savings * Clamped(probability);
    AffinityDecision(expected > extra + margin, expected, extra, expected - extra, margin)
  }

  /** Exactly when a pin is approved: the savings, scaled by the probability brought into [0, 1], exceed premium and margin. */
  lemma ApprovedExactly(savings: real, extra: real, probability: real, margin: real)
    ensures var d := EvaluateAffinity(savings, extra, probability, margin);
            var p := if probability < 0.0 then 0.0 else if probability > 1.0 then 1.0 else probability;
            && (d.apply <==> savings * p > extra + margin)
            && d.expectedSavings == savings * p && d.netBenefit == savings * p - extra
            && d.extraRouteCost == extra && d.safetyMargin == margin
  {
  }

  /** A pin is only bought when it pays: whatever probability was configured, even one outside [0, 1], an approved
      pin saves strictly more than its premium and margin, and leaves a net benefit above the margin. */
  lemma ApprovedPinPays(savings: real, extra: real, probability: real, margin: real)
    requires extra >= 0.0 && margin >= 0.0
    ensures var d := EvaluateAffinity(savings, extra, probability, margin);
            d.apply ==> savings > extra + margin && probability > 0.0 && d.netBenefit > margin
  {
    var p := Clamped(probability);
    if savings > 0.0 {
      Economics.ProductIsMonotone(savings, savings, p, 1.0);
    } else {
      Economics.ProductIsMonotone(0.0, -savings, 0.0, p);
      assert savings * p == -(-savings * p);
    }
  }

  // -- one lease's pin --------------------------------------------------------

  datatype Pin = Pin(route: RouteHash, expiresAt: real, generation: nat)

  predicate Servable(pin: Pin, generation: nat, now: real) {
    now < pin.expiresAt && pin.generation <= generation
  }

  function ServedRoute(pin: Option<Pin>, generation: nat, now: real): Option<RouteHash> {
    if pin.Some? && Servable(pin.value, generation, now) then Some(pin.value.route) else None
  }

  function AfterLookup(pin: Option<Pin>, generation: nat, now: real): Option<Pin> {
    if pin.Some? && Servable(pin.value, generation, now) then pin else None
  }

  /** What the evidence of one request asks for: a route to pin, for a while. */
  datatype FreshPin = FreshPin(route: RouteHash, lifetime: real)

  /** The pin after a request of the given outcome ended. */
  function AfterReconcile(pin: Option<Pin>, generation: nat, outcome: Outcome, wish: Option<FreshPin>, now: real): Option<Pin> {
    if outcome == Failed then None
    else if wish.Some? then Some(Pin(wish.value.route, now + Max(wish.value.lifetime, 0.0), generation))
    else if pin.Some? && pin.value.generation < generation then None
    else pin
  }

  class RouteAffinityRegistry {
    var entries: map<LeaseId, Pin>

    constructor ()
      ensures entries == map[]
    {
      entries := map[];
    }

    function PinOf(id: LeaseId): Option<Pin>
      reads this
    {
      if id in entries then Some(entries[id]) else None
    }

    method Set(id: LeaseId, pin: Pin)
      modifies this
      ensures PinOf(id) == Some(pin)
      ensures forall x | x != id :: PinOf(x) == old(PinOf(x))
    {
      entries := entries[id := pin];
    }

    /** A pin that has expired, or is newer than the lease's generation, is dropped on the way. */
    method ActiveRouteFor(id: LeaseId, generation: nat, now: real) returns (route: Option<RouteHash>)
      modifies this
      ensures route == ServedRoute(old(PinOf(id)), generation, now)
      ensures PinOf(id) == AfterLookup(old(PinOf(id)), generation, now)
      ensures forall x | x != id :: PinOf(x) == old(PinOf(x))
    {
      if id !in entries {
        return None;
      }
      var pin := entries[id];
      if now >= pin.expiresAt || generation < pin.generation {
        entries := entries - {id};
        return None;
      }
      return Some(pin.route);
    }

    method GenerationFor(id: LeaseId) returns (generation: Option<nat>)
      ensures generation == if PinOf(id).Some? then Some(PinOf(id).value.generation) else None
    {
      generation := if id in entries then Some(entries[id].generation) else None;
    }

    method Clear(id: LeaseId)
      modifies this
      ensures PinOf(id) == None
      ensures forall x | x != id :: PinOf(x) == old(PinOf(x))
    {
      entries := entries - {id};
    }

    method Prune(active: set<LeaseId>)
      modifies this
      ensures forall x :: PinOf(x) == if x in active then old(PinOf(x)) else None
    {
      var rest := entries.Keys;
      while rest != {}
        invariant forall x | x in rest :: x in entries
        invariant forall x :: PinOf(x) == if x in active || x in rest then old(PinOf(x)) else None
        decreases rest
      {
        var id :| id in rest;
        if id !in active {
          entries := entries - {id};
        }
        rest := rest - {id};
      }
    }
  }
}
