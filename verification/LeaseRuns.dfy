/** Laws of single leases over runs of the protocol: what kills one, what its flags and times stand for. */
module LeaseRuns {
  import opened Wrappers
  import opened Leases
  import opened LeaseLaws
  import opened History
  import opened WarmProtocol
  import opened WarmInvariants
  import opened LiveIdentity

  // -- creation and death -----------------------------------------------------

  /** The manager already has a lease of this session indexed under the fingerprint. */
  predicate IsIndexed(w: World, identity: Identity) {
    && identity.fingerprint in w.byFingerprint && w.byFingerprint[identity.fingerprint] in w.cells
    && w.cells[w.byFingerprint[identity.fingerprint]].entry.lease.identity.session == identity.session
  }

  /** One find-or-create: nothing when the lease is indexed; otherwise a blank one, indexed, and every other lease untouched
      unless it was a live one of the same session and provider under another fingerprint. */
  lemma CreatingExactly(s: Settings, w: World, at: real, newId: LeaseId, identity: Identity, ttl: real)
    requires Enabled(w, Event(at, FindOrCreate(newId, identity, ttl)))
    ensures var w' := Step(s, w, Event(at, FindOrCreate(newId, identity, ttl)));
            && w'.tasks == w.tasks && w'.locks == w.locks && w'.clock == at
            && (IsIndexed(w, identity) ==> w'.cells == w.cells && w'.byFingerprint == w.byFingerprint)
            && (!IsIndexed(w, identity) ==>
                  && w'.cells.Keys == w.cells.Keys + {newId}
                  && w'.byFingerprint == w.byFingerprint[identity.fingerprint := newId]
                  && IsBlank(w'.cells[newId].entry, identity, ttl) && w'.cells[newId].history == Empty
                  && forall x | x in w.cells :: LeftOrReplaced(w.cells[x].entry, w'.cells[x].entry, identity))
  {
  }

  /** The two ways a live lease dies. */
  predicate IsKilledBy(w: World, ev: Event, id: LeaseId)
    requires id in w.cells
  {
    match ev.action
    case Operate(x, op) => x == id && op.Invalidate?
    case FindOrCreate(_, identity, _) => !IsIndexed(w, identity) && IsReplacedBy(w.cells[id].entry.lease, identity)
    case _ => false
  }

  lemma DiesExactly(s: Settings, w: World, ev: Event, id: LeaseId)
    requires Enabled(w, ev) && Live(w, id)
    ensures !Live(Step(s, w, ev), id) <==> IsKilledBy(w, ev, id)
  {
    match ev.action
    case FindOrCreate(newId, identity, ttl) => CreatingExactly(s, w, ev.at, newId, identity, ttl);
    case Operate(x, _) =>
    case Evaluate(task, x, sendable) =>
      if x != id {
        EvaluatingIsLocal(s, w, ev.at, task, x, sendable, id);
      } else {
        EvaluatingKillsNothing(s, w, ev.at, task, id, sendable);
      }
    case Acquire(_, _) =>
    case Finish(_, _) =>
    case Cancel(_) =>
  }

  lemma EvaluatingKillsNothing(s: Settings, w: World, at: real, task: TaskId, id: LeaseId, sendable: bool)
    requires Live(w, id)
    ensures Live(Evaluating(s, w, at, task, id, sendable), id)
  {
  }

  /** Nobody invalidates the lease by hand, and its session asks for no other fingerprint at its provider. */
  predicate Undisturbed(w: World, run: seq<Event>, session: SessionId, provider: ProviderId, fingerprint: Fingerprint, id: LeaseId) {
    forall i | 0 <= i < |run| ::
      && !(run[i].action.Operate? && run[i].action.id == id && run[i].action.op.Invalidate?)
      && (run[i].action.FindOrCreate? ==>
            var other := run[i].action.identity;
            other.session != session || other.provider != provider || other.fingerprint == fingerprint)
  }

  /** Leases of different sessions or providers never invalidate one another: over any run in which its own session asks for
      no other fingerprint at its own provider, a live lease stays live. */
  lemma {:induction false} OthersNeverKill(s: Settings, w: World, run: seq<Event>, id: LeaseId)
    requires IsRun(s, w, run) && Live(w, id)
    requires var mine := w.cells[id].entry.lease.identity;
             Undisturbed(w, run, mine.session, mine.provider, mine.fingerprint, id)
    ensures Live(Exec(s, w, run), id)
    decreases |run|
  {
    if run != [] {
      var next := Step(s, w, run[0]);
      DiesExactly(s, w, run[0], id);
      IdentityIsFixed(s, w, run[0], id);
      assert forall i | 0 <= i < |run[1..]| :: run[1..][i] == run[i + 1];
      OthersNeverKill(s, next, run[1..], id);
    }
  }

  // -- flags and times --------------------------------------------------------

  /** When the last real request started. */
  function LastStart(h: History): Option<real> {
    match h
    case Empty => None
    case Then(_, RequestStarted(at)) => Some(at)
    case Then(past, _) => LastStart(past)
  }

  /** The start time is that of the latest real request, and a pending warm is one that could still be sent: recorded for
      the present generation of a live lease that somebody waits for. */
  predicate FlagsAreTrue(c: Cell) {
    && c.entry.lease.lastRealRequestAt == LastStart(c.history).UnwrapOr(0.0)
    && (c.entry.runtime.pendingWarm ==>
          && c.entry.runtime.scheduledGeneration == Some(c.entry.lease.generation)
          && c.entry.lease.activeTargets != {} && c.entry.lease.state != Invalidated)
  }

  /** Somebody's warm for this lease is at the executor. */
  predicate HasWarm(w: World, id: LeaseId) {
    exists t | t in w.tasks :: w.tasks[t].sending && w.tasks[t].lease == id
  }

  /** A lease says it is being warmed only while a warm of it is at the executor. */
  predicate WarmIsReal(w: World, id: LeaseId)
    requires id in w.cells
  {
    w.cells[id].entry.runtime.warmRequestActive || w.cells[id].entry.lease.state == Warming ==> HasWarm(w, id)
  }

  predicate FlagsInv(w: World) {
    forall id | id in w.cells :: FlagsAreTrue(w.cells[id]) && WarmIsReal(w, id)
  }

  lemma OperatingKeepsFlags(c: Cell, op: Operation, at: real)
    requires op.Reprice? && op.pricing.Some? ==> Pricing.ValidPricing(op.pricing.value)
    requires FlagsAreTrue(c)
    ensures FlagsAreTrue(Operated(c, op, at))
    ensures var c' := Operated(c, op, at);
            && (c'.entry.runtime.warmRequestActive ==> c.entry.runtime.warmRequestActive)
            && (c'.entry.lease.state == Warming ==> c.entry.lease.state == Warming)
  {
  }

  lemma EvaluatedKeepsFlags(s: Settings, c: Cell, at: real)
    requires FlagsAreTrue(c)
    ensures FlagsAreTrue(Evaluated(s, c, at))
    ensures Evaluated(s, c, at).entry.runtime.warmRequestActive == c.entry.runtime.warmRequestActive
    ensures Evaluated(s, c, at).entry.lease.state == Warming ==> c.entry.lease.state == Warming
  {
  }

  lemma CreatingKeepsFlags(s: Settings, w: World, ev: Event, id: LeaseId)
    requires Enabled(w, ev) && FlagsInv(w) && ev.action.FindOrCreate? && id in Step(s, w, ev).cells
    ensures FlagsAreTrue(Step(s, w, ev).cells[id]) && WarmIsReal(Step(s, w, ev), id)
  {
    CreatingExactly(s, w, ev.at, ev.action.newId, ev.action.identity, ev.action.ttl);
    if id in w.cells {
      assert WarmIsReal(w, id);
      OperatingKeepsFlags(w.cells[id], Invalidate, ev.at);
    }
  }

  lemma EvaluatingKeepsFlags(s: Settings, w: World, at: real, task: TaskId, id: LeaseId, sendable: bool, x: LeaseId)
    requires id in w.cells && task !in w.tasks && FlagsInv(w) && x in w.cells
    ensures var w' := Evaluating(s, w, at, task, id, sendable);
            x in w'.cells && FlagsAreTrue(w'.cells[x]) && WarmIsReal(w', x)
  {
    var w' := Evaluating(s, w, at, task, id, sendable);
    assert WarmIsReal(w, x);
    EvaluatedKeepsFlags(s, w.cells[id], at);
    TasksAreKept(s, w, at, task, id, sendable);
    if x != id {
      EvaluatingIsLocal(s, w, at, task, id, sendable, x);
    } else {
      EvaluatedOrSent(s, w, at, task, id, sendable);
    }
    if HasWarm(w, x) {
      var t :| t in w.tasks && w.tasks[t].sending && w.tasks[t].lease == x;
      assert w'.tasks[t] == w.tasks[t];
    }
  }

  lemma TasksAreKept(s: Settings, w: World, at: real, task: TaskId, id: LeaseId, sendable: bool)
    requires id in w.cells && task !in w.tasks
    ensures forall t | t in w.tasks :: t in Evaluating(s, w, at, task, id, sendable).tasks
                                       && Evaluating(s, w, at, task, id, sendable).tasks[t] == w.tasks[t]
  {
  }

  lemma EvaluatedOrSent(s: Settings, w: World, at: real, task: TaskId, id: LeaseId, sendable: bool)
    requires id in w.cells && task !in w.tasks
    ensures var w', c := Evaluating(s, w, at, task, id, sendable), Evaluated(s, w.cells[id], at);
            && id in w'.cells
            && (w'.cells[id] == c
                || (&& w'.cells[id] == c.(entry := AfterSend(c.entry), history := Then(c.history, Sent))
                    && !c.entry.runtime.pendingWarm
                    && task in w'.tasks && w'.tasks[task].sending && w'.tasks[task].lease == id))
  {
  }

  lemma AcquiringKeepsFlags(s: Settings, w: World, ev: Event, id: LeaseId)
    requires Enabled(w, ev) && FlagsInv(w) && ev.action.Acquire? && id in Step(s, w, ev).cells
    ensures FlagsAreTrue(Step(s, w, ev).cells[id]) && WarmIsReal(Step(s, w, ev), id)
  {
    var w' := Step(s, w, ev);
    assert WarmIsReal(w, id);
    if w'.cells[id] == w.cells[id] && HasWarm(w, id) {
      var t :| t in w.tasks && w.tasks[t].sending && w.tasks[t].lease == id;
      assert w'.tasks[t] == w.tasks[t];
    } else if w'.cells[id] != w.cells[id] {
      assert w'.tasks[ev.action.task].sending && w'.tasks[ev.action.task].lease == id;
    }
  }

  lemma ReleasingKeepsFlags(w: World, task: TaskId, cell: Cell, at: real, id: LeaseId)
    requires Inv(w) && FlagsInv(w) && task in w.tasks && w.tasks[task].sending && w.tasks[task].lease in w.cells && id in w.cells
    requires FlagsAreTrue(cell) && !cell.entry.runtime.warmRequestActive && cell.entry.lease.state != Warming
    ensures var w' := Released(w, task, cell, at);
            id in w'.cells && FlagsAreTrue(w'.cells[id]) && WarmIsReal(w', id)
  {
    assert WarmIsReal(w, id);
    var w' := Released(w, task, cell, at);
    if id != w.tasks[task].lease && HasWarm(w, id) {
      var t :| t in w.tasks && w.tasks[t].sending && w.tasks[t].lease == id;
      assert t != task && w'.tasks[t] == w.tasks[t];
    }
  }

  lemma ReturningKeepsFlags(c: Cell, result: WarmResult, at: real)
    requires FlagsAreTrue(c)
    ensures var d, f := c.(entry := AfterWarmReturned(c.entry)), Finished(c, result, at);
            && FlagsAreTrue(d) && !d.entry.runtime.warmRequestActive && d.entry.lease.state != Warming
            && FlagsAreTrue(f) && !f.entry.runtime.warmRequestActive && f.entry.lease.state != Warming
  {
  }

  lemma StepKeepsFlags(s: Settings, w: World, ev: Event)
    requires Inv(w) && FlagsInv(w) && Enabled(w, ev)
    ensures FlagsInv(Step(s, w, ev))
  {
    forall id | id in Step(s, w, ev).cells
      ensures FlagsAreTrue(Step(s, w, ev).cells[id]) && WarmIsReal(Step(s, w, ev), id)
    {
      StepKeepsFlagsOf(s, w, ev, id);
    }
  }

  lemma OperateKeepsFlagsOf(s: Settings, w: World, ev: Event, id: LeaseId)
    requires FlagsInv(w) && Enabled(w, ev) && ev.action.Operate? && id in w.cells
    ensures id in Step(s, w, ev).cells && FlagsAreTrue(Step(s, w, ev).cells[id]) && WarmIsReal(Step(s, w, ev), id)
  {
    assert WarmIsReal(w, id);
    OperatingKeepsFlags(w.cells[ev.action.id], ev.action.op, ev.at);
    assert HasWarm(w, id) ==> HasWarm(Step(s, w, ev), id);
  }

  lemma StepKeepsFlagsOf(s: Settings, w: World, ev: Event, id: LeaseId)
    requires Inv(w) && FlagsInv(w) && Enabled(w, ev) && id in Step(s, w, ev).cells
    ensures FlagsAreTrue(Step(s, w, ev).cells[id]) && WarmIsReal(Step(s, w, ev), id)
  {
    match ev.action
    case FindOrCreate(_, _, _) => CreatingKeepsFlags(s, w, ev, id);
    case Operate(_, _) =>
      OnlyCreationAddsLeases(s, w, ev, id);
      OperateKeepsFlagsOf(s, w, ev, id);
    case Evaluate(task, x, sendable) =>
      OnlyCreationAddsLeases(s, w, ev, id);
      EvaluatingKeepsFlags(s, w, ev.at, task, x, sendable, id);
    case Acquire(_, _) => AcquiringKeepsFlags(s, w, ev, id);
    case Finish(task, result) =>
      OnlyCreationAddsLeases(s, w, ev, id);
      ReturningKeepsFlags(w.cells[w.tasks[task].lease], result, ev.at);
      ReleasingKeepsFlags(w, task, Finished(w.cells[w.tasks[task].lease], result, ev.at), ev.at, id);
    case Cancel(task) =>
      OnlyCreationAddsLeases(s, w, ev, id);
      CancellingKeepsFlags(s, w, ev, id);
  }

  lemma CancellingKeepsFlags(s: Settings, w: World, ev: Event, id: LeaseId)
    requires Inv(w) && FlagsInv(w) && Enabled(w, ev) && ev.action.Cancel? && id in w.cells
    ensures id in Step(s, w, ev).cells && FlagsAreTrue(Step(s, w, ev).cells[id]) && WarmIsReal(Step(s, w, ev), id)
  {
    var task := ev.action.task;
    var cell := w.cells[w.tasks[task].lease];
    if w.tasks[task].sending {
      ReturningKeepsFlags(cell, WarmResult(None, false, 0.0), ev.at);
      ReleasingKeepsFlags(w, task, cell.(entry := AfterWarmReturned(cell.entry)), ev.at, id);
    } else {
      assert WarmIsReal(w, id);
      if HasWarm(w, id) {
        var t :| t in w.tasks && w.tasks[t].sending && w.tasks[t].lease == id;
        assert Step(s, w, ev).tasks[t] == w.tasks[t];
      }
    }
  }

  lemma {:induction false} RunKeepsFlags(s: Settings, w: World, run: seq<Event>)
    requires Inv(w) && FlagsInv(w) && IsRun(s, w, run)
    ensures FlagsInv(Exec(s, w, run))
    decreases |run|
  {
    if run != [] {
      StepKeepsInv(s, w, run[0]);
      StepKeepsFlags(s, w, run[0]);
      RunKeepsFlags(s, Step(s, w, run[0]), run[1..]);
    }
  }

  /** In every reachable state of every interleaving: a lease's start time is that of its latest real request, its pending
      warm could still be sent, and it says it is being warmed only while a warm of it is at the executor. */
  lemma FlagsTellTheTruth(s: Settings, run: seq<Event>, id: LeaseId)
    requires IsRun(s, START, run) && id in Exec(s, START, run).cells
    ensures var w := Exec(s, START, run);
            var e := w.cells[id].entry;
            && e.lease.lastRealRequestAt == LastStart(w.cells[id].history).UnwrapOr(0.0)
            && (e.runtime.pendingWarm ==>
                  && e.runtime.scheduledGeneration == Some(e.lease.generation)
                  && e.lease.activeTargets != {} && e.lease.state != Invalidated)
            && (e.runtime.warmRequestActive || e.lease.state == Warming ==>
                  exists t | t in w.tasks :: w.tasks[t].sending && w.tasks[t].lease == id)
  {
    RunKeepsFlags(s, START, run);
    assert FlagsAreTrue(Exec(s, START, run).cells[id]) && WarmIsReal(Exec(s, START, run), id);
  }
}
