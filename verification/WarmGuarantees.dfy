/** Guarantees over every run of the protocol from the empty manager, in every interleaving. */
module WarmGuarantees {
  import opened Leases
  import opened History
  import opened WarmProtocol
  import opened WarmInvariants

  predicate AtExecutor(w: World, task: TaskId) {
    task in w.tasks && w.tasks[task].sending
  }

  /** At most one warm per cache fingerprint is at the executor, even for two leases sharing it; no lease ever
      paid for more than two misses between two pieces of verified evidence, and its breaker is open exactly
      when it has just paid for two. */
  lemma MutualExclusionAndBreaker(s: Settings, run: seq<Event>)
    requires IsRun(s, START, run)
    ensures var w := Exec(s, START, run);
            && (forall a, b | AtExecutor(w, a) && AtExecutor(w, b) ::
                  w.tasks[a].lease in w.cells && w.tasks[b].lease in w.cells
                  && (FingerprintOf(w, w.tasks[a].lease) == FingerprintOf(w, w.tasks[b].lease) ==> a == b))
            && (forall id | id in w.cells ::
                  var c := w.cells[id];
                  && c.entry.runtime.consecutiveWarmMisses == MissesSinceEvidence(c.history) <= 2
                  && (c.entry.runtime.circuitOpen <==> c.entry.runtime.consecutiveWarmMisses == 2)
                  && forall earlier | IsPast(earlier, c.history) :: MissesSinceEvidence(earlier) <= 2)
  {
    RunKeepsInv(s, START, run);
    var w := Exec(s, START, run);
    forall a | AtExecutor(w, a) ensures TaskInv(w, a) {}
    forall id | id in w.cells
      ensures forall earlier | IsPast(earlier, w.cells[id].history) :: MissesSinceEvidence(earlier) <= 2
    {
      forall earlier | IsPast(earlier, w.cells[id].history) {
        BoundedAtEveryPast(earlier, w.cells[id].history);
      }
    }
  }

  /** The step puts a warm in front of the executor. */
  predicate Sends(s: Settings, w: World, ev: Event, task: TaskId)
    requires Enabled(w, ev)
  {
    !AtExecutor(w, task) && AtExecutor(Step(s, w, ev), task)
  }

  /** Real requests win: when a warm reaches the executor, no real request has started on its lease since the
      generation it carries was recorded, targets remain and the breaker is closed. If the lease's real requests
      never overlapped and it was never invalidated, none is in flight. */
  lemma RealRequestsWin(s: Settings, run: seq<Event>, ev: Event, task: TaskId)
    requires IsRun(s, START, run) && Enabled(Exec(s, START, run), ev)
    requires Sends(s, Exec(s, START, run), ev, task)
    ensures var w := Step(s, Exec(s, START, run), ev);
            var t := w.tasks[task];
            && t.lease in w.cells
            && var c := w.cells[t.lease];
            && NoStartSince(t.recorded, c.history)
            && c.entry.lease.generation == t.generation == Starts(t.recorded)
            && c.entry.lease.activeTargets != {}
            && !c.entry.runtime.circuitOpen && !c.entry.runtime.realRequestActive && !s.dryRun
            && (Sequential(c.history) && !EverInvalidated(c.history) ==> InFlight(c.history) == 0)
  {
    RunKeepsInv(s, START, run);
    var before := Exec(s, START, run);
    StepKeepsInv(s, before, ev);
    var w := Step(s, before, ev);
    SendingStepChecked(s, before, ev, task);
    assert TaskInv(w, task);
    var t := w.tasks[task];
    var c := w.cells[t.lease];
    EqualStartsMeanNoStartBetween(t.recorded, c.history);
    if Sequential(c.history) && !EverInvalidated(c.history) {
      LastMarkDecidesInFlight(c.history);
    }
  }

  /** What the checks under the lock leave true of a lease whose warm has just been sent. */
  predicate Checked(s: Settings, w: World, task: TaskId) {
    && task in w.tasks && w.tasks[task].lease in w.cells
    && var e := w.cells[w.tasks[task].lease].entry;
    && e.lease.generation == w.tasks[task].generation
    && e.lease.activeTargets != {}
    && !e.runtime.circuitOpen && !e.runtime.realRequestActive && !s.dryRun
  }

  lemma UnderLockChecks(s: Settings, w: World, task: TaskId, t: Task, sendable: bool)
    requires t.lease in w.cells && !AtExecutor(w, task) && AtExecutor(UnderLock(s, w, task, t, sendable), task)
    ensures Checked(s, UnderLock(s, w, task, t, sendable), task)
  {
  }

  lemma OnlyTheLockSends(s: Settings, w: World, ev: Event, task: TaskId)
    requires Enabled(w, ev) && Sends(s, w, ev, task)
    ensures (ev.action.Evaluate? || ev.action.Acquire?) && ev.action.task == task
  {
    match ev.action
    case Evaluate(_, _, _) =>
    case Acquire(_, _) =>
    case _ =>
  }

  lemma SendingStepChecked(s: Settings, w: World, ev: Event, task: TaskId)
    requires Enabled(w, ev) && Sends(s, w, ev, task)
    ensures Checked(s, Step(s, w, ev), task)
  {
    OnlyTheLockSends(s, w, ev, task);
    if ev.action.Acquire? {
      UnderLockChecks(s, w.(clock := ev.at), task, w.tasks[task], ev.action.sendable);
    } else {
      EvaluationChecked(s, w, ev.at, task, ev.action.id, ev.action.sendable);
    }
  }

  lemma EvaluationChecked(s: Settings, w: World, at: real, task: TaskId, id: LeaseId, sendable: bool)
    requires task !in w.tasks && id in w.cells && AtExecutor(Evaluating(s, w, at, task, id, sendable), task)
    ensures Checked(s, Evaluating(s, w, at, task, id, sendable), task)
  {
    var cell := w.cells[id];
    var decided := w.(cells := w.cells[id := Evaluated(s, cell, at)], clock := at);
    var verdict := DecideEvaluation(s, cell.entry, at).verdict;
    if verdict.Proceed? {
      var t := Task(id, verdict.generation, cell.recorded.UnwrapOr(cell.history), ApprovalOf(s, cell.entry), false);
      UnderLockChecks(s, decided, task, t, sendable);
    }
  }

  /** Every guard of an evaluation but the one for real requests. */
  predicate ReadyButForRequests(s: Settings, e: Entry, at: real) {
    && e.lease.activeTargets != {} && !e.runtime.warmRequestActive && e.lease.state != Invalidated
    && !e.runtime.circuitOpen && !s.dryRun
    && NextDeadline(s, e.lease).Some? && NextDeadline(s, e.lease).value <= at && GatePasses(s, e.lease)
    && (e.runtime.scheduledGeneration.Some? ==> e.runtime.scheduledGeneration.value == e.lease.generation)
  }

  /** Exactly when an evaluation that finds the lock idle sends its warm: every other guard passes, and of the starts,
      ends and invalidations of real requests on the lease the latest is not a start. So requests in flight are overrun
      exactly when another one ended, or the lease was invalidated, after the last start. */
  lemma EvaluationSendsExactly(s: Settings, w: World, at: real, task: TaskId, id: LeaseId)
    requires Inv(w) && id in w.cells && task !in w.tasks && w.clock <= at
    requires LockIsIdle(w, FingerprintOf(w, id))
    ensures Sends(s, w, Event(at, Evaluate(task, id, true)), task) <==>
              ReadyButForRequests(s, w.cells[id].entry, at) && !LastMarkIsStart(w.cells[id].history)
  {
    assert CellInv(w.cells[id]);
  }

  /** The same for a warm queued on the lock: of the first segment's guards only these are asked again. */
  lemma AcquireSendsExactly(s: Settings, w: World, at: real, task: TaskId)
    requires Inv(w) && Enabled(w, Event(at, Acquire(task, true)))
    ensures var c := w.cells[w.tasks[task].lease];
            Sends(s, w, Event(at, Acquire(task, true)), task) <==>
              && c.entry.lease.activeTargets != {} && c.entry.lease.generation == w.tasks[task].generation
              && !s.dryRun && !c.entry.runtime.circuitOpen && !LastMarkIsStart(c.history)
  {
    assert CellInv(w.cells[w.tasks[task].lease]);
  }

  /** Touch evidence: the recorded touch is the time of the latest fact that touched the cache, and is absent
      exactly when there was none; the last hit is never later, and neither lies in the future. */
  lemma TouchEvidence(s: Settings, run: seq<Event>, id: LeaseId)
    requires IsRun(s, START, run) && id in Exec(s, START, run).cells
    ensures var w := Exec(s, START, run);
            var c := w.cells[id];
            && c.entry.lease.lastCacheTouchAt == LastTouch(c.history)
            && c.entry.lease.lastConfirmedHitAt == LastHit(c.history)
            && (LastTouch(c.history).Some? ==> LastTouch(c.history).value <= w.clock)
            && (LastHit(c.history).Some? ==>
                  LastTouch(c.history).Some? && LastHit(c.history).value <= LastTouch(c.history).value)
  {
    RunKeepsInv(s, START, run);
  }
}
