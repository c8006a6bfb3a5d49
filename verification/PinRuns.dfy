/** The controller's pins follow the lanes: whatever requests it serves for a lease, its registry and the routes it hands
    out are those of a run of PinUse. */
module PinRuns {
  import opened Wrappers
  import opened Leases
  import opened RouteAffinity
  import opened LeaseController
  import opened PinUse

  /** One thing a request does at the controller. */
  datatype Doing =
    | Starts(request: RequestId, at: real)
    | Asks(request: RequestId, at: real)
    | Finishes(request: RequestId, outcome: Outcome, prefix: nat, evidence: Option<RouteEvidence>, at: real)

  /** The lease's generation and pin are the lane's. */
  ghost predicate Follows(c: LeaseController, id: LeaseId, l: Lane)
    reads c, c.manager, c.registry, c.manager.Objects(id)
  {
    && c.manager.Valid() && id in c.manager.leases
    && c.manager.EntryOf(id).lease.generation == l.generation && c.registry.PinOf(id) == l.pin
  }

  /** The event of the lane; what a finished request wants pinned is decided by the lease as it stands. */
  function EventOf(d: Doing, s: AffinitySettings, lease: Lease): Event
    requires ValidAffinity(s)
  {
    match d
    case Starts(r, _) => Begin(r)
    case Asks(r, at) => Lookup(r, at)
    case Finishes(r, outcome, prefix, evidence, at) => End(r, outcome, WantedPin(s, lease, prefix, evidence), at)
  }

  function Routes(uses: seq<Use>): seq<RouteHash> {
    if uses == [] then [] else Routes(uses[..|uses| - 1]) + [uses[|uses| - 1].pin.route]
  }

  function Handed(routes: seq<RouteHash>, route: Option<RouteHash>): seq<RouteHash> {
    if route.Some? then routes + [route.value] else routes
  }

  /** A lookup adds to the uses of the lane exactly the route it is handed. */
  lemma UsesAreRoutes(l: Lane, ev: Event)
    ensures Routes(Step(l, ev).uses) ==
            Handed(Routes(l.uses), if ev.Lookup? then ServedRoute(l.pin, l.generation, ev.at) else None)
  {
    var next := Step(l, ev);
    if ev.Lookup? && ServedRoute(l.pin, l.generation, ev.at).Some? {
      assert next.uses[..|l.uses|] == l.uses;
    }
  }

  /** One thing done by a request, on the objects and on the lane. */
  method Serve(c: LeaseController, id: LeaseId, l: Lane, d: Doing) returns (ev: Event, route: Option<RouteHash>)
    requires Follows(c, id, l) && c.affinity.enabled && ValidAffinity(c.affinity)
    modifies c.registry, c.manager.Objects(id)
    ensures ev == EventOf(d, c.affinity, old(c.manager.EntryOf(id)).lease)
    ensures Follows(c, id, Step(l, ev))
    ensures route == if d.Asks? then ServedRoute(l.pin, l.generation, d.at) else None
  {
    ev := EventOf(d, c.affinity, c.manager.leases[id].View());
    route := None;
    assert (c.registry as object) !in c.manager.Objects(id);
    match d
    case Starts(_, at) =>
      var _ := c.manager.BeforeNormalRequest(id, at);
    case Asks(_, at) =>
      route := c.ActiveAffinityRoute(id, at);
    case Finishes(_, outcome, prefix, evidence, at) =>
      c.ReconcileAffinity(id, c.manager.leases[id], prefix, outcome, evidence, at);
  }

  /** Any number of them, in any order; what a request may not do, such as finish twice, is skipped. */
  method ServeAll(c: LeaseController, id: LeaseId, doings: seq<Doing>) returns (run: seq<Event>, routes: seq<RouteHash>)
    requires Follows(c, id, IDLE) && c.affinity.enabled && ValidAffinity(c.affinity)
    modifies c.registry, c.manager.Objects(id)
    ensures IsRun(IDLE, run) && Follows(c, id, Exec(IDLE, run)) && routes == Routes(Exec(IDLE, run).uses)
  {
    run, routes := [], [];
    var l := IDLE;
    for k := 0 to |doings|
      invariant IsRun(IDLE, run) && l == Exec(IDLE, run) && Follows(c, id, l) && routes == Routes(l.uses)
    {
      var next := EventOf(doings[k], c.affinity, c.manager.leases[id].View());
      if Enabled(l, next) {
        var ev, route := Serve(c, id, l, doings[k]);
        OneMoreEvent(IDLE, run, ev);
        UsesAreRoutes(l, ev);
        run, l, routes := run + [ev], Step(l, ev), Handed(routes, route);
      }
    }
  }

  /** So without overlap the controller hands out no pin twice: every route it handed out is that of another pin, set by the
      request just before. */
  method ServeInTurn(c: LeaseController, id: LeaseId, doings: seq<Doing>) returns (run: seq<Event>, routes: seq<RouteHash>)
    requires Follows(c, id, IDLE) && c.affinity.enabled && ValidAffinity(c.affinity)
    modifies c.registry, c.manager.Objects(id)
    ensures IsRun(IDLE, run) && routes == Routes(Exec(IDLE, run).uses)
    ensures NoOverlap(IDLE, run) ==>
              var uses := Exec(IDLE, run).uses;
              && (forall i, j | 0 <= i < j < |uses| :: uses[i].pinNumber != uses[j].pinNumber)
              && (forall i | 0 <= i < |uses| :: uses[i].userGeneration == uses[i].pin.generation + 1)
  {
    run, routes := ServeAll(c, id, doings);
    if NoOverlap(IDLE, run) {
      PinIsUsedAtMostOnceByTheNextRequest(run);
    }
  }
}
