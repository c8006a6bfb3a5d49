/** One live identity per session and provider: when it holds, and the only steps that break it. */
module LiveIdentity {
  import opened Wrappers
  import opened Leases
  import opened History
  import opened WarmProtocol
  import opened WarmInvariants

  predicate Live(w: World, id: LeaseId) {
    id in w.cells && w.cells[id].entry.lease.state != Invalidated
  }

  /** Two live leases of one session and provider that disagree on the cache fingerprint. */
  predicate Clash(w: World, a: LeaseId, b: LeaseId) {
    && Live(w, a) && Live(w, b)
    && var x, y := w.cells[a].entry.lease.identity, w.cells[b].entry.lease.identity;
    x.session == y.session && x.provider == y.provider && x.fingerprint != y.fingerprint
  }

  predicate OneLiveIdentity(w: World) {
    forall a, b | a in w.cells && b in w.cells :: !Clash(w, a, b)
  }

  /** The step brings an invalidated lease back. */
  predicate Revives(s: Settings, w: World, ev: Event, id: LeaseId)
    requires Enabled(w, ev)
  {
    id in w.cells && !Live(w, id) && Live(Step(s, w, ev), id)
  }

  /** Disarming: completing the lease, or finishing a target that leaves none. */
  predicate Disarms(w: World, ev: Event, id: LeaseId) {
    && id in w.cells && ev.action.Operate? && ev.action.id == id
    && (|| ev.action.op.Complete?
        || (&& ev.action.op.TargetFinished? && ev.action.op.target != ""
            && w.cells[id].entry.lease.activeTargets - {ev.action.op.target} == {}))
  }

  /** A warm of this lease that was queued on the lock is sent. */
  predicate SendsQueued(s: Settings, w: World, ev: Event, id: LeaseId) {
    && ev.action.Acquire? && ev.action.task in w.tasks && w.tasks[ev.action.task].lease == id
    && id in w.cells
    && LockedRefusal(s, w.cells[id].entry, w.tasks[ev.action.task].generation, ev.action.sendable) == None
  }

  /** An invalidated lease comes back by exactly two kinds of step: a disarm, which has no guard against it, and
      a warm that was already queued on the lock when the lease was invalidated, which is not checked again. */
  lemma RevivedExactlyBy(s: Settings, w: World, ev: Event, id: LeaseId)
    requires Enabled(w, ev) && id in w.cells && !Live(w, id)
    ensures Revives(s, w, ev, id) <==> Disarms(w, ev, id) || SendsQueued(s, w, ev, id)
  {
    match ev.action
    case FindOrCreate(_, _, _) =>
    case Operate(x, op) =>
    case Evaluate(task, x, sendable) =>
      if x == id {
        assert !DecideEvaluation(s, w.cells[id].entry, ev.at).verdict.Proceed?;
      } else {
        EvaluatingIsLocal(s, w, ev.at, task, x, sendable, id);
      }
    case Acquire(_, _) =>
    case Finish(_, _) =>
    case Cancel(_) =>
  }

  /** No step changes who a lease is for, and no lease is ever dropped. */
  lemma IdentityIsFixed(s: Settings, w: World, ev: Event, id: LeaseId)
    requires Enabled(w, ev) && id in w.cells
    ensures id in Step(s, w, ev).cells
    ensures Step(s, w, ev).cells[id].entry.lease.identity == w.cells[id].entry.lease.identity
  {
    match ev.action
    case FindOrCreate(_, _, _) =>
    case Operate(x, op) =>
      OperationKeepsIdentity(w.cells[x], op, ev.at);
    case Evaluate(task, x, sendable) =>
      if x != id {
        EvaluatingIsLocal(s, w, ev.at, task, x, sendable, id);
      } else {
        DecisionKeepsIdentity(s, w.cells[x], ev.at);
      }
    case Acquire(_, _) =>
    case Finish(_, _) =>
    case Cancel(_) =>
  }

  lemma OperationKeepsIdentity(c: Cell, op: Operation, at: real)
    requires op.Reprice? && op.pricing.Some? ==> Pricing.ValidPricing(op.pricing.value)
    ensures Operated(c, op, at).entry.lease.identity == c.entry.lease.identity
  {
  }

  lemma DecisionKeepsIdentity(s: Settings, c: Cell, at: real)
    ensures Evaluated(s, c, at).entry.lease.identity == c.entry.lease.identity
  {
  }

  /** The dead lease `id` would clash with the live lease `b` if it came back. */
  predicate WouldClash(w: World, id: LeaseId, b: LeaseId) {
    && id in w.cells && !Live(w, id) && Live(w, b)
    && var x, y := w.cells[id].entry.lease.identity, w.cells[b].entry.lease.identity;
    x.session == y.session && x.provider == y.provider && x.fingerprint != y.fingerprint
  }

  /** The step disarms, or sends a queued warm of, a dead lease that would clash. Only the world before it is asked. */
  predicate BringsBackAClash(s: Settings, w: World, ev: Event) {
    exists id, b | id in w.cells && b in w.cells ::
      (Disarms(w, ev, id) || SendsQueued(s, w, ev, id)) && WouldClash(w, id, b)
  }

  /** From a world with one live identity, a step keeps it exactly unless it brings back a lease that would clash. */
  lemma StepKeepsOneLiveIdentityExactly(s: Settings, w: World, ev: Event)
    requires OneLiveIdentity(w) && Enabled(w, ev)
    ensures OneLiveIdentity(Step(s, w, ev)) <==> !BringsBackAClash(s, w, ev)
  {
    var w' := Step(s, w, ev);
    if BringsBackAClash(s, w, ev) {
      var id, b :| id in w.cells && b in w.cells && (Disarms(w, ev, id) || SendsQueued(s, w, ev, id)) && WouldClash(w, id, b);
      RevivalClashes(s, w, ev, id, b);
      assert id in w'.cells && b in w'.cells;
    } else {
      forall a, b | a in w'.cells && b in w'.cells
        ensures !Clash(w', a, b)
      {
        StepLeavesNoClash(s, w, ev, a, b);
      }
    }
  }

  lemma RevivalClashes(s: Settings, w: World, ev: Event, id: LeaseId, b: LeaseId)
    requires Enabled(w, ev) && id in w.cells && b in w.cells
    requires (Disarms(w, ev, id) || SendsQueued(s, w, ev, id)) && WouldClash(w, id, b)
    ensures Clash(Step(s, w, ev), id, b)
  {
    RevivedExactlyBy(s, w, ev, id);
    IdentityIsFixed(s, w, ev, id);
    ReviverTouchesOnlyItsLease(s, w, ev, id, b);
  }

  lemma ReviverTouchesOnlyItsLease(s: Settings, w: World, ev: Event, id: LeaseId, other: LeaseId)
    requires Enabled(w, ev) && id in w.cells && other in w.cells && other != id
    requires Disarms(w, ev, id) || SendsQueued(s, w, ev, id)
    ensures other in Step(s, w, ev).cells && Step(s, w, ev).cells[other] == w.cells[other]
  {
  }

  lemma StepLeavesNoClash(s: Settings, w: World, ev: Event, a: LeaseId, b: LeaseId)
    requires OneLiveIdentity(w) && Enabled(w, ev) && !BringsBackAClash(s, w, ev)
    requires a in Step(s, w, ev).cells && b in Step(s, w, ev).cells
    ensures !Clash(Step(s, w, ev), a, b)
  {
    if ev.action.FindOrCreate? {
      CreationLeavesNoClash(w, ev, s, a, b);
    } else {
      OnlyCreationAddsLeases(s, w, ev, a);
      OnlyCreationAddsLeases(s, w, ev, b);
      IdentityIsFixed(s, w, ev, a);
      IdentityIsFixed(s, w, ev, b);
      RevivedFits(s, w, ev, a, b);
      RevivedFits(s, w, ev, b, a);
      NoClashAcross(w, Step(s, w, ev), a, b);
    }
  }

  /** A lease the step brings back does not clash: whatever lives beside it lived before. */
  lemma RevivedFits(s: Settings, w: World, ev: Event, id: LeaseId, b: LeaseId)
    requires Enabled(w, ev) && !BringsBackAClash(s, w, ev) && id in w.cells && b in w.cells
    ensures Revives(s, w, ev, id) ==> !Clash(Step(s, w, ev), id, b)
  {
    if Revives(s, w, ev, id) && b != id {
      RevivedExactlyBy(s, w, ev, id);
      IdentityIsFixed(s, w, ev, id);
      ReviverTouchesOnlyItsLease(s, w, ev, id, b);
      assert !WouldClash(w, id, b);
    }
  }

  lemma NoClashAcross(w: World, w': World, a: LeaseId, b: LeaseId)
    requires OneLiveIdentity(w) && a in w.cells && b in w.cells && a in w'.cells && b in w'.cells
    requires w'.cells[a].entry.lease.identity == w.cells[a].entry.lease.identity
    requires w'.cells[b].entry.lease.identity == w.cells[b].entry.lease.identity
    requires !Live(w, a) && Live(w', a) ==> !Clash(w', a, b)
    requires !Live(w, b) && Live(w', b) ==> !Clash(w', b, a)
    ensures !Clash(w', a, b)
  {
    assert !Clash(w, a, b);
  }

  lemma OnlyCreationAddsLeases(s: Settings, w: World, ev: Event, id: LeaseId)
    requires Enabled(w, ev) && !ev.action.FindOrCreate? && id in Step(s, w, ev).cells
    ensures id in w.cells
  {
    match ev.action
    case Operate(_, _) =>
    case Evaluate(_, _, _) =>
    case Acquire(_, _) =>
    case Finish(_, _) =>
    case Cancel(_) =>
  }

  lemma CreationLeavesNoClash(w: World, ev: Event, s: Settings, a: LeaseId, b: LeaseId)
    requires OneLiveIdentity(w) && Enabled(w, ev) && ev.action.FindOrCreate?
    requires a in Step(s, w, ev).cells && b in Step(s, w, ev).cells
    ensures !Clash(Step(s, w, ev), a, b)
  {
    if a in w.cells && b in w.cells {
      assert !Clash(w, a, b);
    }
  }

  // -- runs with one scheduler ------------------------------------------------

  /** The scheduler evaluates leases one after the other, and nobody disarms an invalidated lease. */
  predicate Careful(w: World, ev: Event) {
    && (ev.action.Evaluate? ==> w.tasks == map[])
    && (ev.action.Operate? && ev.action.id in w.cells && !Live(w, ev.action.id) ==> !Disarms(w, ev, ev.action.id))
  }

  predicate CarefulRun(s: Settings, w: World, run: seq<Event>)
    decreases |run|
  {
    run == [] || (Enabled(w, run[0]) && Careful(w, run[0]) && CarefulRun(s, Step(s, w, run[0]), run[1..]))
  }

  lemma {:induction false} CarefulRunsAreRuns(s: Settings, w: World, run: seq<Event>)
    requires CarefulRun(s, w, run)
    ensures IsRun(s, w, run)
    decreases |run|
  {
    if run != [] {
      CarefulRunsAreRuns(s, Step(s, w, run[0]), run[1..]);
    }
  }

  /** Nobody is queued on a lock. */
  predicate NobodyQueues(w: World) {
    forall t | t in w.tasks :: w.tasks[t].sending
  }

  lemma NoTasksNoLocks(w: World)
    requires Inv(w)
    ensures w.tasks == map[] ==> w.locks == map[]
  {
    assert forall fp | fp in w.locks :: LockInv(w, fp) && w.locks[fp] in w.tasks;
  }

  /** With one scheduler the lock is always free when asked for, so decision and send are one atomic step. */
  lemma OneSchedulerNeverQueues(s: Settings, w: World, ev: Event)
    requires Inv(w) && NobodyQueues(w) && Enabled(w, ev) && (ev.action.Evaluate? ==> w.tasks == map[])
    ensures NobodyQueues(Step(s, w, ev))
    ensures !ev.action.Acquire?
  {
    if ev.action.Evaluate? {
      NoTasksNoLocks(w);
    }
  }

  lemma CarefulStepRevivesNothing(s: Settings, w: World, ev: Event)
    requires Inv(w) && NobodyQueues(w) && Enabled(w, ev) && Careful(w, ev)
    ensures forall id | id in w.cells :: !Revives(s, w, ev, id)
  {
    OneSchedulerNeverQueues(s, w, ev);
    forall id | id in w.cells && !Live(w, id)
      ensures !Revives(s, w, ev, id)
    {
      RevivedExactlyBy(s, w, ev, id);
    }
  }

  /** Over every careful run all live leases of one session and provider share one cache fingerprint, and a lease
      invalidated at any moment of it stays invalidated to the end. */
  lemma {:induction false} OneLiveIdentityForever(s: Settings, w: World, run: seq<Event>)
    requires Inv(w) && NobodyQueues(w) && OneLiveIdentity(w) && CarefulRun(s, w, run)
    ensures IsRun(s, w, run)
    ensures Inv(Exec(s, w, run)) && NobodyQueues(Exec(s, w, run)) && OneLiveIdentity(Exec(s, w, run))
    ensures forall id | id in w.cells && !Live(w, id) :: id in Exec(s, w, run).cells && !Live(Exec(s, w, run), id)
    decreases |run|
  {
    CarefulRunsAreRuns(s, w, run);
    if run != [] {
      var next := Step(s, w, run[0]);
      StepKeepsInv(s, w, run[0]);
      OneSchedulerNeverQueues(s, w, run[0]);
      CarefulStepRevivesNothing(s, w, run[0]);
      forall id | id in w.cells && !Live(w, id)
        ensures !Disarms(w, run[0], id) && !SendsQueued(s, w, run[0], id)
      {
        RevivedExactlyBy(s, w, run[0], id);
      }
      StepKeepsOneLiveIdentityExactly(s, w, run[0]);
      OneLiveIdentityForever(s, next, run[1..]);
      forall id | id in w.cells && !Live(w, id)
        ensures id in next.cells && !Live(next, id)
      {
        IdentityIsFixed(s, w, run[0], id);
        assert !Revives(s, w, run[0], id);
      }
    }
  }

  lemma OneLiveIdentityFromStart(s: Settings, run: seq<Event>)
    requires CarefulRun(s, START, run)
    ensures IsRun(s, START, run) && OneLiveIdentity(Exec(s, START, run))
  {
    OneLiveIdentityForever(s, START, run);
  }

  /** The end of a real request never re-arms or refreshes an invalidated lease. */
  lemma RequestsDoNotRefreshInvalidated(e: Entry, outcome: Outcome, now: real)
    requires e.lease.state == Invalidated
    ensures AfterRequestEnd(e, outcome, now).lease == e.lease
    ensures AfterRequestStart(e, now).lease == e.lease.(generation := e.lease.generation + 1, lastRealRequestAt := now)
  {
  }
}
