/** Runs of the manager in which a promise fails: why the guarantees assume what they assume. */
module FailingRuns {
  import opened Wrappers
  import opened Economics
  import opened Pricing
  import opened Leases
  import opened History
  import opened WarmProtocol
  import opened WarmGuarantees
  import opened WarmSpending
  import opened LiveIdentity

  predicate Reaches(s: Settings, run: seq<Event>, w: World) {
    IsRun(s, START, run) && Exec(s, START, run) == w
  }

  // -- one lease --------------------------------------------------------------

  /** A manager with one lease and nothing suspended. */
  function Solo(cell: Cell, clock: real): World {
    World(map[1 := cell], map[7 := 1], map[], map[], clock)
  }

  const NEW_CELL := Cell(NewEntry(Identity(1, 1, 7, 0.0), 0.0), Empty, None)

  lemma SoloStart(s: Settings) returns (run: seq<Event>)
    ensures Reaches(s, run, Solo(NEW_CELL, 0.0))
  {
    var ev := Event(0.0, FindOrCreate(1, Identity(1, 1, 7, 0.0), 0.0));
    OneMoreEvent(s, START, [], ev, START);
    run := [] + [ev];
    assert Step(s, START, ev).cells == map[1 := NEW_CELL];
  }

  lemma SoloOperation(s: Settings, before: seq<Event>, cell: Cell, clock: real, at: real, op: Operation)
    returns (run: seq<Event>)
    requires Reaches(s, before, Solo(cell, clock)) && at >= clock && !op.Reprice?
    ensures Reaches(s, run, Solo(Operated(cell, op, at), at))
  {
    var ev := Event(at, Operate(1, op));
    OneMoreEvent(s, START, before, ev, Solo(cell, clock));
    run := before + [ev];
    assert map[1 := cell][1 := Operated(cell, op, at)] == map[1 := Operated(cell, op, at)];
  }

  /** A lease at rest whose wait is over, and whose flag for real requests is down. */
  predicate AtRest(c: Cell, touch: real) {
    && c.entry.lease.activeTargets == {"bg-1"} && c.entry.lease.lastCacheTouchAt == Some(touch)
    && c.entry.lease.estimatedTtl == 0.0 && c.entry.lease.identity.jitter == 0.0 && c.entry.lease.identity.fingerprint == 7
    && c.entry.lease.state == Armed && c.entry.runtime == FRESH_RUNTIME && c.recorded == None
  }

  lemma RestedIsDue(s: Settings, c: Cell, touch: real, at: real)
    requires ValidSettings(s) && AtRest(c, touch) && touch <= at && GatePasses(s, c.entry.lease)
    ensures DecideEvaluation(s, c.entry, at) == Decided(c.entry, Proceed(c.entry.lease.generation))
  {
    var lease := c.entry.lease;
    DeadlineIsTouchPlusWait(s, lease);
    assert Wait(s, lease) <= 0.0 by {
      assert lease.estimatedTtl * s.warmFraction == 0.0;
    }
    assert c.entry.runtime.(scheduledGeneration := None, pendingWarm := false) == c.entry.runtime;
  }

  lemma SoloWarmGoesThrough(s: Settings, c: Cell, touch: real, clock: real, at: real)
    requires ValidSettings(s) && !s.dryRun && !s.economics.enabled
    requires AtRest(c, touch) && touch <= clock <= at
    ensures var w, ev := Solo(c, clock), Event(at, Evaluate(0, 1, true));
            && Enabled(w, ev) && Sends(s, w, ev, 0)
            && InFlight(Step(s, w, ev).cells[1].history) == InFlight(c.history)
  {
    RestedIsDue(s, c, touch, at);
  }

  // -- the flag for real requests is not a counter ----------------------------

  function Overlapped(): Cell {
    Operated(Operated(Operated(Operated(NEW_CELL, TargetStarted("bg-1"), 1.0), RequestStart, 2.0), RequestStart, 3.0),
             RequestEnd(SuccessUnverified), 4.0)
  }

  /** One of the two requests is still in flight, and the flag is down. */
  lemma OverlapDropsTheFlag()
    ensures AtRest(Overlapped(), 4.0) && InFlight(Overlapped().history) == 1 && !EverInvalidated(Overlapped().history)
  {
    var c1 := Operated(NEW_CELL, TargetStarted("bg-1"), 1.0);
    assert c1.entry.lease.activeTargets == {"bg-1"};
    assert Overlapped().history ==
           Then(Then(Then(Empty, RequestStarted(2.0)), RequestStarted(3.0)), RequestEnded(SuccessUnverified, true, 4.0));
  }

  /** Without its first proviso the last clause of RealRequestsWin fails, whatever the configuration: the first of two
      overlapping requests to end clears the flag, and a warm is sent while the second is in flight. */
  lemma OverlappingRequestsLetAWarmThrough(s: Settings) returns (run: seq<Event>, w: World, ev: Event)
    requires ValidSettings(s) && !s.dryRun && !s.economics.enabled
    ensures Reaches(s, run, w) && Enabled(w, ev) && Sends(s, w, ev, 0)
    ensures 1 in w.cells && !EverInvalidated(w.cells[1].history)
    ensures 1 in Step(s, w, ev).cells && InFlight(Step(s, w, ev).cells[1].history) == 1
  {
    run := ReachOverlapped(s);
    OverlapDropsTheFlag();
    var c := Overlapped();
    w, ev := Solo(c, 4.0), Event(5.0, Evaluate(0, 1, true));
    SoloWarmGoesThrough(s, c, 4.0, 4.0, 5.0);
  }

  lemma ReachOverlapped(s: Settings) returns (run: seq<Event>)
    ensures Reaches(s, run, Solo(Overlapped(), 4.0))
  {
    run := SoloStart(s);
    run := SoloOperation(s, run, NEW_CELL, 0.0, 1.0, TargetStarted("bg-1"));
    var c1 := Operated(NEW_CELL, TargetStarted("bg-1"), 1.0);
    run := SoloOperation(s, run, c1, 1.0, 2.0, RequestStart);
    var c2 := Operated(c1, RequestStart, 2.0);
    run := SoloOperation(s, run, c2, 2.0, 3.0, RequestStart);
    var c3 := Operated(c2, RequestStart, 3.0);
    run := SoloOperation(s, run, c3, 3.0, 4.0, RequestEnd(SuccessUnverified));
  }

  // -- an invalidation forgets the request in flight --------------------------

  /** One request came and went, the next is in flight. */
  function SecondRequest(): Cell {
    Operated(Operated(Operated(Operated(NEW_CELL, TargetStarted("bg-1"), 1.0), RequestStart, 2.0),
                      RequestEnd(SuccessUnverified), 3.0), RequestStart, 4.0)
  }

  function Forgotten(): Cell {
    Operated(Operated(Operated(SecondRequest(), Invalidate, 5.0), TargetFinished("bg-1"), 6.0), TargetStarted("bg-1"), 7.0)
  }

  lemma SecondRequestIsInFlight()
    ensures var c := SecondRequest();
            && AtRest(c.(entry := c.entry.(runtime := FRESH_RUNTIME)), 3.0)
            && c.entry.runtime == FRESH_RUNTIME.(realRequestActive := true)
            && c.history == Then(Then(Then(Empty, RequestStarted(2.0)), RequestEnded(SuccessUnverified, true, 3.0)),
                                 RequestStarted(4.0))
  {
    var c1 := Operated(NEW_CELL, TargetStarted("bg-1"), 1.0);
    assert c1.entry.lease.activeTargets == {"bg-1"};
  }

  /** The requests never overlapped, one is in flight, and its flag is down. */
  lemma InvalidationDropsTheFlag()
    ensures AtRest(Forgotten(), 3.0) && Sequential(Forgotten().history) && InFlight(Forgotten().history) == 1
  {
    SecondRequestIsInFlight();
    var c := SecondRequest();
    var c1 := Operated(c, Invalidate, 5.0);
    var c2 := Operated(c1, TargetFinished("bg-1"), 6.0);
    assert c2.entry.lease.activeTargets == {};
    var c3 := Operated(c2, TargetStarted("bg-1"), 7.0);
    assert c3.entry.lease.activeTargets == {"bg-1"};
    assert c3.history == Then(c.history, IdentityInvalidated);
    assert Sequential(c.history.past.past) && Sequential(c.history.past) && Sequential(c.history);
  }

  /** Without its second proviso it fails too: real requests on the lease never overlap, but an invalidation clears the
      flag of the one in flight, and once its targets have gone and come back a warm is sent beside it. */
  lemma InvalidationLetsAWarmThrough(s: Settings) returns (run: seq<Event>, w: World, ev: Event)
    requires ValidSettings(s) && !s.dryRun && !s.economics.enabled
    ensures Reaches(s, run, w) && Enabled(w, ev) && Sends(s, w, ev, 0)
    ensures 1 in w.cells && Sequential(w.cells[1].history)
    ensures 1 in Step(s, w, ev).cells && InFlight(Step(s, w, ev).cells[1].history) == 1
  {
    run := ReachSecondRequest(s);
    var c := SecondRequest();
    run := SoloOperation(s, run, c, 4.0, 5.0, Invalidate);
    var c1 := Operated(c, Invalidate, 5.0);
    run := SoloOperation(s, run, c1, 5.0, 6.0, TargetFinished("bg-1"));
    var c2 := Operated(c1, TargetFinished("bg-1"), 6.0);
    run := SoloOperation(s, run, c2, 6.0, 7.0, TargetStarted("bg-1"));
    w, ev := Solo(Forgotten(), 7.0), Event(8.0, Evaluate(0, 1, true));
    InvalidationDropsTheFlag();
    SoloWarmGoesThrough(s, Forgotten(), 3.0, 7.0, 8.0);
  }

  lemma ReachSecondRequest(s: Settings) returns (run: seq<Event>)
    ensures Reaches(s, run, Solo(SecondRequest(), 4.0))
  {
    run := SoloStart(s);
    run := SoloOperation(s, run, NEW_CELL, 0.0, 1.0, TargetStarted("bg-1"));
    var c1 := Operated(NEW_CELL, TargetStarted("bg-1"), 1.0);
    run := SoloOperation(s, run, c1, 1.0, 2.0, RequestStart);
    var c2 := Operated(c1, RequestStart, 2.0);
    run := SoloOperation(s, run, c2, 2.0, 3.0, RequestEnd(SuccessUnverified));
    var c3 := Operated(c2, RequestEnd(SuccessUnverified), 3.0);
    run := SoloOperation(s, run, c3, 3.0, 4.0, RequestStart);
  }

  // -- switching back ---------------------------------------------------------

  const OTHER := Identity(1, 1, 8, 0.0)

  /** Lease 1 was invalidated when the session switched to another fingerprint, whose lease is 2. */
  function Switched(old1: Cell, clock: real): World {
    World(map[1 := Operated(old1, Invalidate, 2.0), 2 := Cell(NewEntry(OTHER, 0.0), Empty, None)], map[7 := 1, 8 := 2],
          map[], map[], clock)
  }

  function Targeted(): Cell {
    Operated(NEW_CELL, TargetStarted("bg-1"), 1.0)
  }

  lemma TargetedFacts()
    ensures var c := Targeted();
            && c.entry.lease.activeTargets == {"bg-1"} && c.entry.lease.state == Armed
            && c.entry.lease.identity == Identity(1, 1, 7, 0.0) && c.entry.runtime == FRESH_RUNTIME
  {
    assert Targeted().entry.lease.activeTargets == {"bg-1"};
  }

  lemma SwitchingStep(s: Settings, c: Cell)
    requires c.entry.lease.identity == Identity(1, 1, 7, 0.0) && c.entry.lease.state == Armed
    ensures Step(s, Solo(c, 1.0), Event(2.0, FindOrCreate(2, OTHER, 0.0))) == Switched(c, 2.0)
  {
    var w := Step(s, Solo(c, 1.0), Event(2.0, FindOrCreate(2, OTHER, 0.0)));
    assert w.cells == Switched(c, 2.0).cells && w.byFingerprint == map[7 := 1, 8 := 2];
  }

  lemma BackAndDisarmed(s: Settings, c: Cell)
    requires c.entry.lease.identity == Identity(1, 1, 7, 0.0) && c.entry.lease.activeTargets == {"bg-1"}
    ensures var w, back := Switched(c, 2.0), Event(3.0, FindOrCreate(3, Identity(1, 1, 7, 0.0), 0.0));
            && Existing(w, Identity(1, 1, 7, 0.0)) == Some(1) && !Live(w, 1) && Live(w, 2)
            && Enabled(w, back) && Step(s, w, back) == Switched(c, 3.0)
    ensures var w, disarm := Switched(c, 3.0), Event(4.0, Operate(1, TargetFinished("bg-1")));
            Enabled(w, disarm) && Clash(Step(s, w, disarm), 1, 2)
  {
  }

  /** A session that switches from one identity to another and back is handed its old, invalidated lease while
      the other one stays live; the target count of that very request then disarms the old lease, and two
      identities are live at once. */
  lemma SwitchingBackBreaksIt(s: Settings) returns (before: seq<Event>, w: World, run: seq<Event>, end: World)
    ensures Reaches(s, before, w)
    ensures Existing(w, Identity(1, 1, 7, 0.0)) == Some(1) && !Live(w, 1) && Live(w, 2)
    ensures Reaches(s, run, end) && before < run && Clash(end, 1, 2)
  {
    var c := Targeted();
    TargetedFacts();
    before := SoloStart(s);
    before := SoloOperation(s, before, NEW_CELL, 0.0, 1.0, TargetStarted("bg-1"));
    before, w := OnTo(s, before, Solo(c, 1.0), Event(2.0, FindOrCreate(2, OTHER, 0.0)));
    SwitchingStep(s, c);
    BackAndDisarmed(s, c);
    run, end := OnTo(s, before, w, Event(3.0, FindOrCreate(3, Identity(1, 1, 7, 0.0), 0.0)));
    run, end := OnTo(s, run, end, Event(4.0, Operate(1, TargetFinished("bg-1"))));
  }

  lemma OnTo(s: Settings, before: seq<Event>, w: World, ev: Event) returns (run: seq<Event>, end: World)
    requires Reaches(s, before, w) && Enabled(w, ev)
    ensures run == before + [ev] && end == Step(s, w, ev) && Reaches(s, run, end)
  {
    OneMoreEvent(s, START, before, ev, w);
    run, end := before + [ev], Step(s, w, ev);
  }

  // -- two leases on one fingerprint ------------------------------------------

  /** Leases 1 and 2 belong to different sessions and share fingerprint 7. */
  function Duo(a: Cell, b: Cell, tasks: map<TaskId, Task>, locks: map<Fingerprint, TaskId>, clock: real): World {
    World(map[1 := a, 2 := b], map[7 := 2], tasks, locks, clock)
  }

  const FIRST := Identity(1, 1, 7, 0.0)
  const SECOND := Identity(2, 1, 7, 0.0)
  const PRICES := PricingTable(14.0, 0.0, 4.0, 0.0)

  /** A target, one answered request, and a million tokens of prefix: 14 cold, 4 cached, 4 for the next warm. */
  function Rested(identity: Identity): Cell {
    Operated(Operated(Operated(Operated(Cell(NewEntry(identity, 0.0), Empty, None),
                                        TargetStarted("bg-1"), 1.0), RequestStart, 1.0),
                      RequestEnd(SuccessUnverified), 1.0),
             Reprice(1_000_000, Some(PRICES), None), 1.0)
  }

  lemma RestedFacts(identity: Identity)
    requires identity.jitter == 0.0 && identity.fingerprint == 7
    ensures var c := Rested(identity);
            && AtRest(c, 1.0) && c.entry.lease.identity == identity
            && c.entry.lease.coldCost == Some(14.0) && c.entry.lease.cachedCost == Some(4.0)
            && c.entry.lease.nextWarmCost == Some(4.0) && c.entry.lease.warmCost == 0.0
            && c.history == Then(Then(Empty, RequestStarted(1.0)), RequestEnded(SuccessUnverified, true, 1.0))
  {
    var c1 := Operated(Cell(NewEntry(identity, 0.0), Empty, None), TargetStarted("bg-1"), 1.0);
    assert c1.entry.lease.activeTargets == {"bg-1"};
  }

  lemma DuoStart(s: Settings) returns (run: seq<Event>)
    ensures var a, b := Cell(NewEntry(FIRST, 0.0), Empty, None), Cell(NewEntry(SECOND, 0.0), Empty, None);
            Reaches(s, run, Duo(a, b, map[], map[], 0.0))
  {
    var a, b := Cell(NewEntry(FIRST, 0.0), Empty, None), Cell(NewEntry(SECOND, 0.0), Empty, None);
    run := SoloStart(s);
    var ev := Event(0.0, FindOrCreate(2, SECOND, 0.0));
    var w := Solo(a, 0.0);
    OneMoreEvent(s, START, run, ev, w);
    run := run + [ev];
    assert Step(s, w, ev).cells == map[1 := a, 2 := b];
    assert map[7 := 1][7 := 2] == map[7 := 2];
  }

  function Chosen(a: Cell, b: Cell, id: LeaseId): Cell {
    if id == 1 then a else b
  }

  lemma DuoOperation(s: Settings, before: seq<Event>, a: Cell, b: Cell, clock: real, id: LeaseId, at: real, op: Operation)
    returns (run: seq<Event>)
    requires Reaches(s, before, Duo(a, b, map[], map[], clock)) && (id == 1 || id == 2) && at >= clock
    requires op.Reprice? && op.pricing.Some? ==> ValidPricing(op.pricing.value)
    ensures Reaches(s, run, Duo(if id == 1 then Operated(a, op, at) else a, if id == 2 then Operated(b, op, at) else b,
                                map[], map[], at))
  {
    var ev := Event(at, Operate(id, op));
    var w := Duo(a, b, map[], map[], clock);
    OneMoreEvent(s, START, before, ev, w);
    run := before + [ev];
    assert Step(s, w, ev).cells == map[1 := if id == 1 then Operated(a, op, at) else a,
                                       2 := if id == 2 then Operated(b, op, at) else b];
  }

  lemma DuoRest(s: Settings, before: seq<Event>, a: Cell, b: Cell, clock: real, id: LeaseId) returns (run: seq<Event>)
    requires Reaches(s, before, Duo(a, b, map[], map[], clock)) && (id == 1 || id == 2) && clock <= 1.0
    requires Chosen(a, b, id) == Cell(NewEntry(if id == 1 then FIRST else SECOND, 0.0), Empty, None)
    ensures Reaches(s, run, Duo(if id == 1 then Rested(FIRST) else a, if id == 2 then Rested(SECOND) else b,
                                map[], map[], 1.0))
  {
    run := DuoOperation(s, before, a, b, clock, id, 1.0, TargetStarted("bg-1"));
    var c1 := Operated(Chosen(a, b, id), TargetStarted("bg-1"), 1.0);
    run := DuoOperation(s, run, if id == 1 then c1 else a, if id == 2 then c1 else b, 1.0, id, 1.0, RequestStart);
    var c2 := Operated(c1, RequestStart, 1.0);
    run := DuoOperation(s, run, if id == 1 then c2 else a, if id == 2 then c2 else b, 1.0, id, 1.0, RequestEnd(SuccessUnverified));
    var c3 := Operated(c2, RequestEnd(SuccessUnverified), 1.0);
    run := DuoOperation(s, run, if id == 1 then c3 else a, if id == 2 then c3 else b, 1.0, id, 1.0,
                        Reprice(1_000_000, Some(PRICES), None));
  }

  lemma DuoReady(s: Settings) returns (run: seq<Event>)
    ensures Reaches(s, run, Duo(Rested(FIRST), Rested(SECOND), map[], map[], 1.0))
  {
    run := DuoStart(s);
    var a, b := Cell(NewEntry(FIRST, 0.0), Empty, None), Cell(NewEntry(SECOND, 0.0), Empty, None);
    run := DuoRest(s, run, a, b, 0.0, 1);
    run := DuoRest(s, run, Rested(FIRST), b, 1.0, 2);
  }

  // -- two evaluations of one lease -------------------------------------------

  /** All that the spend and termination bounds ask of a run, but for the one scheduler: no warm costs more than
      predicted, and for lease 1 no real request, no new prices and hits of at least c. */
  predicate Tame(s: Settings, w: World, run: seq<Event>, c: real)
    decreases |run|
  {
    run == [] || (&& Enabled(w, run[0]) && Honest(w, run[0], 0.0) && Calm(w, run[0], 1, c)
                  && Tame(s, Step(s, w, run[0]), run[1..], c))
  }

  predicate Plays(s: Settings, from: World, run: seq<Event>, to: World, c: real) {
    IsRun(s, from, run) && Exec(s, from, run) == to && Tame(s, from, run, c)
  }

  lemma PlayOn(s: Settings, from: World, before: seq<Event>, w: World, c: real, ev: Event) returns (run: seq<Event>)
    requires Plays(s, from, before, w, c) && Enabled(w, ev) && Honest(w, ev, 0.0) && Calm(w, ev, 1, c)
    ensures Plays(s, from, run, Step(s, w, ev), c)
  {
    OneMoreEvent(s, from, before, ev, w);
    TameOneMore(s, from, before, w, c, ev);
    run := before + [ev];
  }

  lemma {:induction false} TameOneMore(s: Settings, from: World, run: seq<Event>, to: World, c: real, ev: Event)
    requires Plays(s, from, run, to, c) && Enabled(to, ev) && Honest(to, ev, 0.0) && Calm(to, ev, 1, c)
    ensures Tame(s, from, run + [ev], c)
    decreases |run|
  {
    if run == [] {
      assert ([] + [ev])[1..] == [];
    } else {
      assert (run + [ev])[0] == run[0] && (run + [ev])[1..] == run[1..] + [ev];
      TameOneMore(s, Step(s, from, run[0]), run[1..], to, c, ev);
    }
  }

  /** Both leases at rest, the gate open to both. */
  predicate BothPass(s: Settings, a: Cell, b: Cell) {
    && ValidSettings(s) && !s.dryRun
    && AtRest(a, 1.0) && AtRest(b, 1.0) && GatePasses(s, a.entry.lease) && GatePasses(s, b.entry.lease)
  }

  /** A cell whose evaluation was let through, and one whose warm was sent. */
  function Let(s: Settings, c: Cell): Cell {
    var approval := ApprovalOf(s, c.entry);
    if approval.Some?
    then c.(history := Then(c.history, Approved(approval.value.budget, approval.value.predictor))) else c
  }

  function Warming(c: Cell): Cell {
    c.(entry := AfterSend(c.entry), history := Then(c.history, Sent))
  }

  function TaskOf(s: Settings, id: LeaseId, c: Cell, sending: bool): Task {
    Task(id, c.entry.lease.generation, c.history, ApprovalOf(s, c.entry), sending)
  }

  lemma RestedIsLet(s: Settings, c: Cell, at: real)
    requires ValidSettings(s) && AtRest(c, 1.0) && 1.0 <= at && GatePasses(s, c.entry.lease)
    ensures Evaluated(s, c, at) == Let(s, c)
    ensures DecideEvaluation(s, c.entry, at).verdict == Proceed(c.entry.lease.generation)
  {
    RestedIsDue(s, c, 1.0, at);
  }

  /** Lease 2 sends: it holds the lock. */
  lemma SecondSends(s: Settings, from: World, before: seq<Event>, a: Cell, b: Cell, c: real) returns (run: seq<Event>)
    requires BothPass(s, a, b) && Plays(s, from, before, Duo(a, b, map[], map[], 1.0), c)
    ensures Plays(s, from, run,
                  Duo(a, Warming(Let(s, b)), map[0 := TaskOf(s, 2, b, true)], map[7 := 0], 2.0), c)
  {
    var w, ev := Duo(a, b, map[], map[], 1.0), Event(2.0, Evaluate(0, 2, true));
    run := PlayOn(s, from, before, w, c, ev);
    RestedIsLet(s, b, 2.0);
    var w' := Step(s, w, ev);
    assert w'.cells == map[1 := a, 2 := Warming(Let(s, b))];
    assert w'.tasks == map[0 := TaskOf(s, 2, b, true)] && w'.locks == map[7 := 0];
  }

  /** An evaluation of lease 1 queues behind it. */
  lemma FirstQueues(s: Settings, from: World, before: seq<Event>, a: Cell, b: Cell, tasks: map<TaskId, Task>,
                    task: TaskId, clock: real, c: real) returns (run: seq<Event>)
    requires ValidSettings(s) && AtRest(a, 1.0) && GatePasses(s, a.entry.lease) && 1.0 <= clock && task !in tasks
    requires Plays(s, from, before, Duo(a, b, tasks, map[7 := 0], clock), c)
    ensures Plays(s, from, run,
                  Duo(Let(s, a), b, tasks[task := TaskOf(s, 1, a, false)], map[7 := 0], clock), c)
  {
    QueueingStep(s, a, b, tasks, task, clock);
    run := PlayOn(s, from, before, Duo(a, b, tasks, map[7 := 0], clock), c, Event(clock, Evaluate(task, 1, true)));
  }

  lemma QueueingStep(s: Settings, a: Cell, b: Cell, tasks: map<TaskId, Task>, task: TaskId, clock: real)
    requires ValidSettings(s) && AtRest(a, 1.0) && GatePasses(s, a.entry.lease) && 1.0 <= clock && task !in tasks
    ensures Step(s, Duo(a, b, tasks, map[7 := 0], clock), Event(clock, Evaluate(task, 1, true)))
            == Duo(Let(s, a), b, tasks[task := TaskOf(s, 1, a, false)], map[7 := 0], clock)
  {
    RestedIsLet(s, a, clock);
    var w := Duo(a, b, tasks, map[7 := 0], clock);
    assert w.cells[1 := Let(s, a)] == map[1 := Let(s, a), 2 := b];
    assert !LockIsIdle(w, 7);
  }

  /** The executor answers the task that holds the lock: a hit of the given cost. */
  function Hit(cost: real): WarmResult {
    WarmResult(Some(ConfirmedHit), false, cost)
  }

  lemma SecondAnswers(s: Settings, from: World, before: seq<Event>, a: Cell, b: Cell, tasks: map<TaskId, Task>,
                      clock: real, c: real) returns (run: seq<Event>)
    requires Plays(s, from, before, Duo(a, b, tasks, map[7 := 0], clock), c)
    requires 0 in tasks && tasks[0].sending && tasks[0].lease == 2 && b.entry.lease.identity.fingerprint == 7
    requires tasks[0].approval.Some? ==> 4.0 <= tasks[0].approval.value.predictor
    ensures Plays(s, from, run, Duo(a, Finished(b, Hit(4.0), clock), tasks - {0}, map[], clock), c)
  {
    var w, ev := Duo(a, b, tasks, map[7 := 0], clock), Event(clock, Finish(0, Hit(4.0)));
    run := PlayOn(s, from, before, w, c, ev);
    assert Step(s, w, ev).cells == map[1 := a, 2 := Finished(b, Hit(4.0), clock)];
    assert Step(s, w, ev).locks == map[];
  }

  /** What lets a queued warm of lease 1 through. */
  predicate NothingRefuses(s: Settings, a: Cell, t: Task) {
    && t.lease == 1 && !t.sending && a.entry.lease.identity.fingerprint == 7
    && LockedRefusal(s, a.entry, t.generation, true) == None
  }

  lemma FirstSends(s: Settings, from: World, before: seq<Event>, a: Cell, b: Cell, tasks: map<TaskId, Task>,
                   task: TaskId, clock: real, c: real) returns (run: seq<Event>)
    requires Plays(s, from, before, Duo(a, b, tasks, map[], clock), c)
    requires task in tasks && NothingRefuses(s, a, tasks[task])
    ensures Plays(s, from, run, Duo(Warming(a), b, tasks[task := tasks[task].(sending := true)], map[7 := task], clock), c)
  {
    var w, ev := Duo(a, b, tasks, map[], clock), Event(clock, Acquire(task, true));
    run := PlayOn(s, from, before, w, c, ev);
    assert Step(s, w, ev).cells == map[1 := Warming(a), 2 := b];
  }

  lemma FirstAnswers(s: Settings, from: World, before: seq<Event>, a: Cell, b: Cell, tasks: map<TaskId, Task>,
                     task: TaskId, clock: real, c: real) returns (run: seq<Event>)
    requires Plays(s, from, before, Duo(a, b, tasks, map[7 := task], clock), c) && c <= 4.0
    requires task in tasks && tasks[task].sending && tasks[task].lease == 1 && a.entry.lease.identity.fingerprint == 7
    requires tasks[task].approval.Some? ==> 4.0 <= tasks[task].approval.value.predictor
    ensures Plays(s, from, run, Duo(Finished(a, Hit(4.0), clock), b, tasks - {task}, map[], clock), c)
  {
    AnsweringStep(s, a, b, tasks, task, clock);
    run := PlayOn(s, from, before, Duo(a, b, tasks, map[7 := task], clock), c, Event(clock, Finish(task, Hit(4.0))));
  }

  lemma AnsweringStep(s: Settings, a: Cell, b: Cell, tasks: map<TaskId, Task>, task: TaskId, clock: real)
    requires task in tasks && tasks[task].sending && tasks[task].lease == 1 && a.entry.lease.identity.fingerprint == 7
    ensures Step(s, Duo(a, b, tasks, map[7 := task], clock), Event(clock, Finish(task, Hit(4.0))))
            == Duo(Finished(a, Hit(4.0), clock), b, tasks - {task}, map[], clock)
  {
    var w := Duo(a, b, tasks, map[7 := task], clock);
    assert w.cells[1 := Finished(a, Hit(4.0), clock)] == map[1 := Finished(a, Hit(4.0), clock), 2 := b];
    assert w.locks - {7} == map[];
  }

  // -- a queued warm brings an invalidated lease back -------------------------

  /** One evaluation of lease 1 is queued behind a warm of lease 2 when lease 1 is invalidated. It is not asked again:
      when the lock is free the warm is sent, and the lease is live again. */
  lemma QueuedWarmRevives(s: Settings) returns (run: seq<Event>, w: World, ev: Event)
    requires ValidSettings(s) && !s.dryRun && !s.economics.enabled
    ensures Reaches(s, run, w) && Enabled(w, ev)
    ensures SendsQueued(s, w, ev, 1) && !Disarms(w, ev, 1) && Revives(s, w, ev, 1)
  {
    var a, b := Rested(FIRST), Rested(SECOND);
    RestedFacts(FIRST);
    RestedFacts(SECOND);
    var rest := DuoReady(s);
    var dead, b';
    run, dead, b' := InvalidatedInTheQueue(s, a, b);
    w, ev := Duo(dead, b', map[1 := TaskOf(s, 1, a, false)], map[], 2.0), Event(2.0, Acquire(1, true));
    ExecConcat(s, START, rest, run);
    run := rest + run;
    QueuedIsSent(s, dead, b', TaskOf(s, 1, a, false));
  }

  lemma InvalidatedInTheQueue(s: Settings, a: Cell, b: Cell) returns (run: seq<Event>, dead: Cell, b': Cell)
    requires BothPass(s, a, b) && !s.economics.enabled
    ensures dead == Operated(a, Invalidate, 2.0)
    ensures Plays(s, Duo(a, b, map[], map[], 1.0), run, Duo(dead, b', map[1 := TaskOf(s, 1, a, false)], map[], 2.0), 1.0)
  {
    var from := Duo(a, b, map[], map[], 1.0);
    run := SecondSends(s, from, [], a, b, 1.0);
    var t0, t1, b1 := TaskOf(s, 2, b, true), TaskOf(s, 1, a, false), Warming(b);
    run := FirstQueues(s, from, run, a, b1, map[0 := t0], 1, 2.0, 1.0);
    var tasks := map[0 := t0][1 := t1];
    dead := Operated(a, Invalidate, 2.0);
    run := FirstInvalidated(s, from, run, a, b1, tasks);
    run := SecondAnswers(s, from, run, dead, b1, tasks, 2.0, 1.0);
    b' := Finished(b1, Hit(4.0), 2.0);
    assert tasks - {0} == map[1 := t1];
  }

  lemma FirstInvalidated(s: Settings, from: World, before: seq<Event>, a: Cell, b: Cell, tasks: map<TaskId, Task>)
    returns (run: seq<Event>)
    requires Plays(s, from, before, Duo(a, b, tasks, map[7 := 0], 2.0), 1.0)
    ensures Plays(s, from, run, Duo(Operated(a, Invalidate, 2.0), b, tasks, map[7 := 0], 2.0), 1.0)
  {
    InvalidatingStep(s, a, b, tasks);
    run := PlayOn(s, from, before, Duo(a, b, tasks, map[7 := 0], 2.0), 1.0, Event(2.0, Operate(1, Invalidate)));
  }

  lemma InvalidatingStep(s: Settings, a: Cell, b: Cell, tasks: map<TaskId, Task>)
    ensures Step(s, Duo(a, b, tasks, map[7 := 0], 2.0), Event(2.0, Operate(1, Invalidate)))
            == Duo(Operated(a, Invalidate, 2.0), b, tasks, map[7 := 0], 2.0)
  {
    var w := Duo(a, b, tasks, map[7 := 0], 2.0);
    assert w.cells[1 := Operated(a, Invalidate, 2.0)] == map[1 := Operated(a, Invalidate, 2.0), 2 := b];
  }

  lemma QueuedIsSent(s: Settings, dead: Cell, b: Cell, t: Task)
    requires !s.dryRun && NothingRefuses(s, dead, t) && dead.entry.lease.state == Invalidated
    ensures var w, ev := Duo(dead, b, map[1 := t], map[], 2.0), Event(2.0, Acquire(1, true));
            Enabled(w, ev) && SendsQueued(s, w, ev, 1) && !Disarms(w, ev, 1) && Revives(s, w, ev, 1)
  {
    var w, ev := Duo(dead, b, map[1 := t], map[], 2.0), Event(2.0, Acquire(1, true));
    RevivedExactlyBy(s, w, ev, 1);
  }

  // -- two schedulers overspend -----------------------------------------------

  /** Budget 5 for an expected value of 10: one warm of 4 fits, two do not. */
  predicate HalfOfTen(s: Settings) {
    && ValidSettings(s) && !s.dryRun && s.economics == EconomicConfig(true, 0.5, 0.0, 0.0)
    && s.resumeProbability == 1.0 && s.detachedResumeProbability == 1.0
  }

  lemma RestedIsApproved(s: Settings, identity: Identity)
    requires HalfOfTen(s) && identity.jitter == 0.0 && identity.fingerprint == 7
    ensures GatePasses(s, Rested(identity).entry.lease)
    ensures ApprovalOf(s, Rested(identity).entry) == Some(Approval(5.0, 4.0))
    ensures Ceiling(s, Rested(identity).entry.lease) == 5.0
  {
    RestedFacts(identity);
    var lease := Rested(identity).entry.lease;
    assert ResumeProbability(s, lease) == 1.0;
    var input := GateInputOf(s, lease);
    assert input == GateInput(14.0, 4.0, 4.0, 0.0, 1.0, true);
    assert ExpectedValue(input) == 10.0;
    assert Budget(s.economics, input) == 5.0;
  }

  /** A lease after one of its queued warms was sent and paid, and after both. */
  function OncePaid(c: Cell): Cell {
    Finished(Warming(c), Hit(4.0), 2.0)
  }

  lemma OncePaidCosts(c: Cell, touch: real)
    requires AtRest(c, touch)
    ensures var d := OncePaid(c);
            && PaidHits(d.history) == PaidHits(c.history) + 1 && PaidWarms(d.history) == PaidWarms(c.history) + 1
            && TotalPaid(d.history) == TotalPaid(c.history) + 4.0
            && LargestApproval(d.history) == LargestApproval(c.history)
            && AtRest(d, 2.0) && d.entry.lease.generation == c.entry.lease.generation
  {
    var d := OncePaid(c);
    assert d.history == Then(Then(c.history, Sent), Paid(ConfirmedHit, false, 4.0, 2.0));
    assert PaidHits(d.history.past) == PaidHits(c.history) && PaidWarms(d.history.past) == PaidWarms(c.history);
    assert TotalPaid(d.history.past) == TotalPaid(c.history);
  }

  /** Without one scheduler both bounds fail: two evaluations of lease 1 pass the gate while a warm of lease 2 holds the
      lock, and the gate is not asked again under it. Every warm costs what was predicted, no real request comes, and
      yet 8 is spent under a budget of 5. */
  lemma TwoSchedulersOverspend(s: Settings) returns (before: seq<Event>, w: World, run: seq<Event>, end: World)
    requires HalfOfTen(s)
    ensures Reaches(s, before, w) && w.tasks == map[] && 1 in w.cells && PaidWarms(w.cells[1].history) == 0
    ensures Plays(s, w, run, end, 4.0) && 1 in end.cells
    ensures LargestApproval(end.cells[1].history) == Some(5.0) && TotalPaid(end.cells[1].history) == 8.0
    ensures !SpentWithinBounds(s, w.cells[1], end.cells[1], 4.0)
  {
    var a, b := Rested(FIRST), Rested(SECOND);
    RestedFacts(FIRST);
    RestedFacts(SECOND);
    RestedIsApproved(s, FIRST);
    RestedIsApproved(s, SECOND);
    before := DuoReady(s);
    w := Duo(a, b, map[], map[], 1.0);
    run, end := QueueTwice(s, a, b);
    PaidBeyondTheBudget(s, a);
  }

  /** What was paid in the end, from a lease that had paid nothing. */
  lemma PaidBeyondTheBudget(s: Settings, a: Cell)
    requires AtRest(a, 1.0) && ApprovalOf(s, a.entry) == Some(Approval(5.0, 4.0)) && Ceiling(s, a.entry.lease) == 5.0
    requires PaidHits(a.history) == PaidWarms(a.history) == 0
    requires TotalPaid(a.history) == 0.0 && LargestApproval(a.history) == None
    ensures var c := OncePaid(OncePaid(Let(s, Let(s, a))));
            && LargestApproval(c.history) == Some(5.0) && TotalPaid(c.history) == 8.0
            && !SpentWithinBounds(s, a, c, 4.0)
  {
    var a1, a2 := Let(s, a), Let(s, Let(s, a));
    assert a1.history == Then(a.history, Approved(5.0, 4.0));
    assert LargestApproval(a1.history) == Some(5.0) && PaidHits(a1.history) == 0 && TotalPaid(a1.history) == 0.0;
    assert a2.history == Then(a1.history, Approved(5.0, 4.0));
    assert LargestApproval(a2.history) == Some(5.0) && PaidHits(a2.history) == 0 && TotalPaid(a2.history) == 0.0;
    OncePaidCosts(a2, 1.0);
    OncePaidCosts(OncePaid(a2), 2.0);
  }

  lemma QueueTwice(s: Settings, a: Cell, b: Cell) returns (run: seq<Event>, end: World)
    requires BothPass(s, a, b)
    requires ApprovalOf(s, a.entry) == Some(Approval(5.0, 4.0)) && ApprovalOf(s, b.entry) == Some(Approval(5.0, 4.0))
    ensures Plays(s, Duo(a, b, map[], map[], 1.0), run, end, 4.0) && 1 in end.cells
    ensures end.cells[1] == OncePaid(OncePaid(Let(s, Let(s, a))))
  {
    var a1, b1 := Let(s, a), Warming(Let(s, b));
    SameLeaseSameGate(s, a, a1);
    SameLeaseSameGate(s, a, Let(s, a1));
    var from, t0, t1, t2 := Duo(a, b, map[], map[], 1.0), TaskOf(s, 2, b, true), TaskOf(s, 1, a, false), TaskOf(s, 1, a1, false);
    run := SecondSends(s, from, [], a, b, 4.0);
    run := BothQueue(s, from, run, a, b1, t0, t1, t2);
    run := AllPay(s, from, run, Let(s, a1), b1, t0, t1, t2);
    end := Duo(OncePaid(OncePaid(Let(s, a1))), Finished(b1, Hit(4.0), 2.0), map[], map[], 2.0);
  }

  lemma BothQueue(s: Settings, from: World, before: seq<Event>, a: Cell, b: Cell, t0: Task, t1: Task, t2: Task)
    returns (run: seq<Event>)
    requires ValidSettings(s) && AtRest(a, 1.0) && AtRest(Let(s, a), 1.0)
    requires GatePasses(s, a.entry.lease) && GatePasses(s, Let(s, a).entry.lease)
    requires t1 == TaskOf(s, 1, a, false) && t2 == TaskOf(s, 1, Let(s, a), false)
    requires Plays(s, from, before, Duo(a, b, map[0 := t0], map[7 := 0], 2.0), 4.0)
    ensures Plays(s, from, run, Duo(Let(s, Let(s, a)), b, map[0 := t0, 1 := t1, 2 := t2], map[7 := 0], 2.0), 4.0)
  {
    run := FirstQueues(s, from, before, a, b, map[0 := t0], 1, 2.0, 4.0);
    assert map[0 := t0][1 := t1] == map[0 := t0, 1 := t1];
    run := FirstQueues(s, from, run, Let(s, a), b, map[0 := t0, 1 := t1], 2, 2.0, 4.0);
    assert map[0 := t0, 1 := t1][2 := t2] == map[0 := t0, 1 := t1, 2 := t2];
  }

  lemma AllPay(s: Settings, from: World, before: seq<Event>, a: Cell, b: Cell, t0: Task, t1: Task, t2: Task)
    returns (run: seq<Event>)
    requires ValidSettings(s) && !s.dryRun && AtRest(a, 1.0) && b.entry.lease.identity.fingerprint == 7
    requires t0.lease == 2 && t0.sending && (t0.approval.Some? ==> 4.0 <= t0.approval.value.predictor)
    requires Payable(a, t1) && Payable(a, t2)
    requires Plays(s, from, before, Duo(a, b, map[0 := t0, 1 := t1, 2 := t2], map[7 := 0], 2.0), 4.0)
    ensures Plays(s, from, run, Duo(OncePaid(OncePaid(a)), Finished(b, Hit(4.0), 2.0), map[], map[], 2.0), 4.0)
  {
    run := SecondAnswers(s, from, before, a, b, map[0 := t0, 1 := t1, 2 := t2], 2.0, 4.0);
    assert map[0 := t0, 1 := t1, 2 := t2] - {0} == map[1 := t1, 2 := t2];
    run := BothPay(s, from, run, a, Finished(b, Hit(4.0), 2.0), t1, t2);
  }

  lemma SameLeaseSameGate(s: Settings, a: Cell, b: Cell)
    requires a.entry == b.entry && a.recorded == b.recorded && AtRest(a, 1.0)
    ensures AtRest(b, 1.0) && GatePasses(s, b.entry.lease) == GatePasses(s, a.entry.lease)
    ensures ApprovalOf(s, b.entry) == ApprovalOf(s, a.entry)
  {
  }

  lemma BothPay(s: Settings, from: World, before: seq<Event>, a: Cell, b: Cell, t1: Task, t2: Task)
    returns (run: seq<Event>)
    requires ValidSettings(s) && !s.dryRun && AtRest(a, 1.0)
    requires Plays(s, from, before, Duo(a, b, map[1 := t1, 2 := t2], map[], 2.0), 4.0)
    requires Payable(a, t1) && Payable(a, t2)
    ensures Plays(s, from, run, Duo(OncePaid(OncePaid(a)), b, map[], map[], 2.0), 4.0)
  {
    OncePaidCosts(a, 1.0);
    run := OnePays(s, from, before, a, b, map[1 := t1, 2 := t2], 1, 1.0);
    assert map[1 := t1, 2 := t2] - {1} == map[2 := t2];
    run := OnePays(s, from, run, OncePaid(a), b, map[2 := t2], 2, 2.0);
    assert map[2 := t2] - {2} == map[];
  }

  predicate Payable(a: Cell, t: Task) {
    && t.lease == 1 && !t.sending && t.generation == a.entry.lease.generation
    && (t.approval.Some? ==> t.approval.value.predictor == 4.0)
  }

  lemma OnePays(s: Settings, from: World, before: seq<Event>, a: Cell, b: Cell, tasks: map<TaskId, Task>, task: TaskId,
                touch: real) returns (run: seq<Event>)
    requires ValidSettings(s) && !s.dryRun && AtRest(a, touch)
    requires Plays(s, from, before, Duo(a, b, tasks, map[], 2.0), 4.0)
    requires task in tasks && Payable(a, tasks[task])
    ensures Plays(s, from, run, Duo(OncePaid(a), b, tasks - {task}, map[], 2.0), 4.0)
  {
    run := FirstSends(s, from, before, a, b, tasks, task, 2.0, 4.0);
    var sent := tasks[task := tasks[task].(sending := true)];
    run := FirstAnswers(s, from, run, Warming(a), b, sent, task, 2.0, 4.0);
    assert sent - {task} == tasks - {task};
  }
}
