/** What every step of the protocol keeps, in every interleaving. */
module WarmInvariants {
  import opened Wrappers
  import opened Leases
  import opened History
  import opened WarmProtocol

  /** Generations count real requests, and a recorded generation is the count at its recording. */
  predicate GenerationInv(c: Cell) {
    && c.entry.lease.generation == Starts(c.history)
    && (c.recorded.Some? <==> c.entry.runtime.scheduledGeneration.Some?)
    && (c.recorded.Some? ==>
          && c.entry.runtime.scheduledGeneration.value == Starts(c.recorded.value)
          && IsPast(c.recorded.value, c.history))
  }

  /** The breaker is open exactly after two paid misses in a row, and there are never more. */
  predicate BreakerInv(c: Cell) {
    && c.entry.runtime.consecutiveWarmMisses == MissesSinceEvidence(c.history)
    && (c.entry.runtime.circuitOpen <==> MissesSinceEvidence(c.history) == 2)
    && MissesAlwaysBounded(c.history)
  }

  predicate TouchInv(c: Cell) {
    && c.entry.lease.lastCacheTouchAt == LastTouch(c.history)
    && c.entry.lease.lastConfirmedHitAt == LastHit(c.history)
  }

  predicate MoneyInv(c: Cell) {
    && c.entry.lease.warmCount == PaidWarms(c.history)
    && c.entry.lease.warmCost == TotalPaid(c.history)
  }

  /** The request flag is a boolean, not a counter: it says what the last start, end or invalidation was. */
  predicate FlagInv(c: Cell) {
    c.entry.runtime.realRequestActive <==> LastMarkIsStart(c.history)
  }

  /** The lease agrees with its history. */
  predicate CellInv(c: Cell) {
    GenerationInv(c) && BreakerInv(c) && TouchInv(c) && MoneyInv(c) && FlagInv(c)
  }

  /** Touches lie in the past, and a hit is never later than the last touch. */
  predicate TimesInv(c: Cell, clock: real) {
    var lease := c.entry.lease;
    && (lease.lastCacheTouchAt.Some? ==> lease.lastCacheTouchAt.value <= clock)
    && (lease.lastConfirmedHitAt.Some? ==>
          lease.lastCacheTouchAt.Some? && lease.lastConfirmedHitAt.value <= lease.lastCacheTouchAt.value)
  }

  /** A suspended evaluation carries the generation its lease had when that was recorded; while it is at the
      executor it holds its fingerprint's lock and the breaker is closed. */
  predicate TaskInv(w: World, id: TaskId)
    requires id in w.tasks
  {
    var t := w.tasks[id];
    && t.lease in w.cells
    && t.generation == Starts(t.recorded)
    && IsPast(t.recorded, w.cells[t.lease].history)
    && (t.sending ==>
          && FingerprintOf(w, t.lease) in w.locks && w.locks[FingerprintOf(w, t.lease)] == id
          && !w.cells[t.lease].entry.runtime.circuitOpen)
  }

  predicate LockInv(w: World, fp: Fingerprint)
    requires fp in w.locks
  {
    var holder := w.locks[fp];
    && holder in w.tasks && w.tasks[holder].sending
    && w.tasks[holder].lease in w.cells && FingerprintOf(w, w.tasks[holder].lease) == fp
  }

  predicate Inv(w: World) {
    && (forall id | id in w.cells :: CellInv(w.cells[id]) && TimesInv(w.cells[id], w.clock))
    && (forall id | id in w.tasks :: TaskInv(w, id))
    && (forall fp | fp in w.locks :: LockInv(w, fp))
  }

  // -- one lease --------------------------------------------------------------

  lemma OperatedKeeps(c: Cell, op: Operation, clock: real, at: real)
    requires op.Reprice? && op.pricing.Some? ==> Pricing.ValidPricing(op.pricing.value)
    requires CellInv(c) && TimesInv(c, clock) && clock <= at
    ensures CellInv(Operated(c, op, at)) && TimesInv(Operated(c, op, at), at)
    ensures IsPast(c.history, Operated(c, op, at).history)
    ensures !c.entry.runtime.circuitOpen ==> !Operated(c, op, at).entry.runtime.circuitOpen
    ensures Operated(c, op, at).entry.lease.identity == c.entry.lease.identity
  {
    if op.RequestEnd? {
      RequestEndKeeps(c, op.outcome, clock, at);
    }
  }

  lemma RequestEndKeeps(c: Cell, outcome: Outcome, clock: real, at: real)
    requires CellInv(c) && TimesInv(c, clock) && clock <= at
    ensures CellInv(Operated(c, RequestEnd(outcome), at)) && TimesInv(Operated(c, RequestEnd(outcome), at), at)
  {
  }

  lemma EvaluatedKeeps(s: Settings, c: Cell, clock: real, at: real)
    requires CellInv(c) && TimesInv(c, clock) && clock <= at
    ensures CellInv(Evaluated(s, c, at)) && TimesInv(Evaluated(s, c, at), at)
    ensures IsPast(c.history, Evaluated(s, c, at).history)
    ensures Evaluated(s, c, at).entry.runtime.circuitOpen == c.entry.runtime.circuitOpen
    ensures Evaluated(s, c, at).entry.lease.identity == c.entry.lease.identity
  {
    DecidingKeepsHistory(s, c, at);
    DecidingKeepsLease(s, c, at);
    ApprovalIsNoMark(c, Evaluated(s, c, at));
  }

  predicate RecordedNowOrBefore(c: Cell, c': Cell) {
    if c'.recorded == c.recorded then c'.entry.runtime.scheduledGeneration == c.entry.runtime.scheduledGeneration
    else
      && c'.recorded == Some(c.history)
      && c'.entry.runtime.scheduledGeneration == Some(c.entry.lease.generation)
  }

  /** Deciding adds at most an approval to the history, and records the generation when it schedules. */
  lemma DecidingKeepsHistory(s: Settings, c: Cell, at: real)
    requires GenerationInv(c)
    ensures var c' := Evaluated(s, c, at);
            && (c'.history == c.history || (c'.history.Then? && c'.history.past == c.history && c'.history.fact.Approved?))
            && (c'.recorded.Some? <==> c'.entry.runtime.scheduledGeneration.Some?)
            && (c'.recorded.Some? ==> c'.history == c.history && RecordedNowOrBefore(c, c'))
  {
  }

  /** Deciding touches the state, the pending warm and the recorded generation, and nothing else of a lease. */
  lemma DecidingKeepsLease(s: Settings, c: Cell, at: real)
    ensures var e, e' := c.entry, Evaluated(s, c, at).entry;
            && e'.lease == e.lease.(state := e'.lease.state)
            && e'.runtime == e.runtime.(pendingWarm := e'.runtime.pendingWarm,
                                        scheduledGeneration := e'.runtime.scheduledGeneration)
  {
  }

  /** An approval changes none of the history's answers about generations, misses, touches, money and requests. */
  lemma ApprovalIsNoMark(c: Cell, c': Cell)
    requires c'.history == c.history || (c'.history.Then? && c'.history.past == c.history && c'.history.fact.Approved?)
    ensures Starts(c'.history) == Starts(c.history) && MissesSinceEvidence(c'.history) == MissesSinceEvidence(c.history)
    ensures LastTouch(c'.history) == LastTouch(c.history) && LastHit(c'.history) == LastHit(c.history)
    ensures PaidWarms(c'.history) == PaidWarms(c.history) && TotalPaid(c'.history) == TotalPaid(c.history)
    ensures LastMarkIsStart(c'.history) == LastMarkIsStart(c.history) && IsPast(c.history, c'.history)
    ensures MissesAlwaysBounded(c.history) ==> MissesAlwaysBounded(c'.history)
  {
  }

  lemma SentKeeps(c: Cell, clock: real)
    requires CellInv(c) && TimesInv(c, clock)
    ensures var c' := c.(entry := AfterSend(c.entry), history := Then(c.history, Sent));
            CellInv(c') && TimesInv(c', clock) && IsPast(c.history, c'.history)
  {
  }

  lemma FinishedKeeps(c: Cell, result: WarmResult, clock: real, at: real)
    requires CellInv(c) && TimesInv(c, clock) && clock <= at
    requires !c.entry.runtime.circuitOpen
    ensures CellInv(Finished(c, result, at)) && TimesInv(Finished(c, result, at), at)
    ensures IsPast(c.history, Finished(c, result, at).history)
  {
    var c' := Finished(c, result, at);
    if result.outcome.Some? {
      var fact := c'.history.fact;
      assert c'.history == Then(c.history, fact);
      assert GenerationInv(c');
      assert FlagInv(c');
      assert IsEvidence(fact) <==> result.outcome.value == ConfirmedHit;
      assert BreakerInv(c');
      assert TouchTime(fact).Some? <==> WarmTouches(result);
      assert TouchInv(c');
      assert MoneyInv(c');
    }
  }

  // -- the world --------------------------------------------------------------

  /** Replacing one cell by a successor keeps every other clause. */
  lemma ReplaceCell(w: World, id: LeaseId, c: Cell, at: real)
    requires Inv(w) && id in w.cells && w.clock <= at
    requires Successor(w.cells[id], c, at)
    ensures Inv(w.(cells := w.cells[id := c], clock := at))
  {
    var w' := w.(cells := w.cells[id := c], clock := at);
    forall x | x in w.cells
      ensures x in w'.cells && Successor(w.cells[x], w'.cells[x], at)
    {
    }
    SuccessorsKeep(w, w');
  }

  lemma RemoveTask(w: World, task: TaskId)
    requires Inv(w) && task in w.tasks && !w.tasks[task].sending
    ensures Inv(w.(tasks := w.tasks - {task}))
  {
    var w' := w.(tasks := w.tasks - {task});
    forall t | t in w'.tasks ensures TaskInv(w', t) { assert TaskInv(w, t); }
    forall fp | fp in w'.locks ensures LockInv(w', fp) { assert LockInv(w, fp); }
  }

  /** Releasing the lock of a finished or cancelled warm, whatever became of its lease. */
  lemma ReleaseTask(w: World, task: TaskId, c: Cell, at: real)
    requires Inv(w) && task in w.tasks && w.tasks[task].sending && w.clock <= at
    requires w.tasks[task].lease in w.cells
    requires CellInv(c) && TimesInv(c, at) && IsPast(w.cells[w.tasks[task].lease].history, c.history)
    requires c.entry.lease.identity == w.cells[w.tasks[task].lease].entry.lease.identity
    ensures var id := w.tasks[task].lease;
            Inv(w.(cells := w.cells[id := c], tasks := w.tasks - {task},
                   locks := w.locks - {FingerprintOf(w, id)}, clock := at))
  {
    var id := w.tasks[task].lease;
    var w' := w.(cells := w.cells[id := c], tasks := w.tasks - {task},
                 locks := w.locks - {FingerprintOf(w, id)}, clock := at);
    assert TaskInv(w, task);
    forall t | t in w'.tasks
      ensures TaskInv(w', t)
    {
      assert TaskInv(w, t);
      if w.tasks[t].lease == id {
        PastIsTransitive(w.tasks[t].recorded, w.cells[id].history, c.history);
      }
    }
    forall fp | fp in w'.locks
      ensures LockInv(w', fp)
    {
      assert LockInv(w, fp);
    }
  }

  lemma AddWaiting(w: World, task: TaskId, t: Task)
    requires Inv(w) && task !in w.tasks && !t.sending
    requires t.lease in w.cells && t.generation == Starts(t.recorded) && IsPast(t.recorded, w.cells[t.lease].history)
    ensures Inv(w.(tasks := w.tasks[task := t]))
  {
    var w' := w.(tasks := w.tasks[task := t]);
    forall x | x in w'.tasks ensures TaskInv(w', x) { assert x == task || TaskInv(w, x); }
    forall fp | fp in w'.locks ensures LockInv(w', fp) { assert LockInv(w, fp); }
  }

  lemma TakeLock(w: World, task: TaskId)
    requires Inv(w) && task in w.tasks && !w.tasks[task].sending
    requires w.tasks[task].lease in w.cells
    requires FingerprintOf(w, w.tasks[task].lease) !in w.locks
    requires !w.cells[w.tasks[task].lease].entry.runtime.circuitOpen
    ensures Inv(w.(tasks := w.tasks[task := w.tasks[task].(sending := true)],
                   locks := w.locks[FingerprintOf(w, w.tasks[task].lease) := task]))
  {
    var fp := FingerprintOf(w, w.tasks[task].lease);
    var w' := w.(tasks := w.tasks[task := w.tasks[task].(sending := true)], locks := w.locks[fp := task]);
    forall x | x in w'.tasks ensures TaskInv(w', x) { assert TaskInv(w, x); }
    forall f | f in w'.locks ensures LockInv(w', f) { assert f == fp || LockInv(w, f); }
  }

  lemma UnderLockKeeps(s: Settings, w: World, task: TaskId, sendable: bool)
    requires Inv(w) && task in w.tasks && !w.tasks[task].sending
    requires w.tasks[task].lease in w.cells
    requires FingerprintOf(w, w.tasks[task].lease) !in w.locks
    ensures Inv(UnderLock(s, w, task, w.tasks[task], sendable))
  {
    var t := w.tasks[task];
    var cell := w.cells[t.lease];
    if LockedRefusal(s, cell.entry, t.generation, sendable).Some? {
      RemoveTask(w, task);
    } else {
      SentKeeps(cell, w.clock);
      var c := cell.(entry := AfterSend(cell.entry), history := Then(cell.history, Sent));
      ReplaceCell(w, t.lease, c, w.clock);
      TakeLock(w.(cells := w.cells[t.lease := c], clock := w.clock), task);
    }
  }

  /** UnderLock does not care whether its task is already queued. */
  lemma UnderLockOfQueued(s: Settings, w: World, task: TaskId, t: Task, sendable: bool)
    requires t.lease in w.cells && task !in w.tasks
    ensures UnderLock(s, w.(tasks := w.tasks[task := t]), task, t, sendable) == UnderLock(s, w, task, t, sendable)
  {
    var q := w.(tasks := w.tasks[task := t]);
    assert q.tasks - {task} == w.tasks - {task};
    assert q.tasks[task := t.(sending := true)] == w.tasks[task := t.(sending := true)];
  }

  lemma EvaluateKeeps(s: Settings, w: World, at: real, task: TaskId, id: LeaseId, sendable: bool)
    requires Inv(w) && w.clock <= at && task !in w.tasks && id in w.cells
    ensures Inv(Evaluating(s, w, at, task, id, sendable))
  {
    var cell := w.cells[id];
    EvaluatedKeeps(s, cell, w.clock, at);
    ReplaceCell(w, id, Evaluated(s, cell, at), at);
    var decided := w.(cells := w.cells[id := Evaluated(s, cell, at)], clock := at);
    var verdict := DecideEvaluation(s, cell.entry, at).verdict;
    if verdict.Proceed? {
      var t := Task(id, verdict.generation, cell.recorded.UnwrapOr(cell.history), ApprovalOf(s, cell.entry), false);
      PastIsTransitive(t.recorded, cell.history, decided.cells[id].history);
      AddWaiting(decided, task, t);
      if LockIsIdle(w, FingerprintOf(w, id)) {
        UnderLockOfQueued(s, decided, task, t, sendable);
        UnderLockKeeps(s, decided.(tasks := w.tasks[task := t]), task, sendable);
      }
    }
  }

  lemma CreatedKeeps(w: World, newId: LeaseId, identity: Identity, ttl: real, at: real)
    requires Inv(w) && newId !in w.cells && w.clock <= at
    ensures Inv(Created(w.(clock := at), newId, identity, ttl, at))
  {
    var w' := Created(w.(clock := at), newId, identity, ttl, at);
    if Existing(w, identity).Some? {
      ClockKeeps(w, at);
    } else {
      forall id | id in w.cells
        ensures id in w'.cells && Successor(w.cells[id], w'.cells[id], at)
      {
        if Superseded(w.cells[id].entry.lease, identity) {
          OperatedKeeps(w.cells[id], Invalidate, w.clock, at);
        }
      }
      assert CellInv(w'.cells[newId]) && TimesInv(w'.cells[newId], at);
      SuccessorsKeep(w, w');
    }
  }

  /** `c'` is a cell a task of `c` can go on with. */
  predicate Successor(c: Cell, c': Cell, at: real) {
    && CellInv(c') && TimesInv(c', at)
    && IsPast(c.history, c'.history)
    && c'.entry.lease.identity == c.entry.lease.identity
    && (c'.entry.runtime.circuitOpen ==> c.entry.runtime.circuitOpen)
  }

  lemma SuccessorsKeep(w: World, w': World)
    requires Inv(w) && w'.tasks == w.tasks && w'.locks == w.locks
    requires forall id | id in w.cells :: id in w'.cells && Successor(w.cells[id], w'.cells[id], w'.clock)
    requires forall id | id in w'.cells && id !in w.cells :: CellInv(w'.cells[id]) && TimesInv(w'.cells[id], w'.clock)
    ensures Inv(w')
  {
    forall t | t in w'.tasks
      ensures TaskInv(w', t)
    {
      assert TaskInv(w, t);
      var id := w.tasks[t].lease;
      PastIsTransitive(w.tasks[t].recorded, w.cells[id].history, w'.cells[id].history);
    }
    forall fp | fp in w'.locks
      ensures LockInv(w', fp)
    {
      assert LockInv(w, fp);
    }
    forall id | id in w'.cells
      ensures CellInv(w'.cells[id]) && TimesInv(w'.cells[id], w'.clock)
    {
      assert id in w.cells ==> Successor(w.cells[id], w'.cells[id], w'.clock);
    }
  }

  lemma FinishKeeps(s: Settings, w: World, at: real, task: TaskId, result: WarmResult)
    requires Inv(w) && Enabled(w, Event(at, Finish(task, result)))
    ensures Inv(Step(s, w, Event(at, Finish(task, result))))
  {
    assert TaskInv(w, task);
    var c := w.cells[w.tasks[task].lease];
    FinishedKeeps(c, result, w.clock, at);
    ReleaseTask(w, task, Finished(c, result, at), at);
  }

  lemma CancelKeeps(s: Settings, w: World, at: real, task: TaskId)
    requires Inv(w) && Enabled(w, Event(at, Cancel(task)))
    ensures Inv(Step(s, w, Event(at, Cancel(task))))
  {
    assert TaskInv(w, task);
    if !w.tasks[task].sending {
      ClockKeeps(w, at);
      RemoveTask(w.(clock := at), task);
    } else {
      var c := w.cells[w.tasks[task].lease];
      ReleaseTask(w, task, c.(entry := AfterWarmReturned(c.entry)), at);
    }
  }

  lemma OperateKeeps(s: Settings, w: World, at: real, id: LeaseId, op: Operation)
    requires Inv(w) && Enabled(w, Event(at, Operate(id, op)))
    ensures Inv(Step(s, w, Event(at, Operate(id, op))))
  {
    OperatedKeeps(w.cells[id], op, w.clock, at);
    ReplaceCell(w, id, Operated(w.cells[id], op, at), at);
  }

  lemma AcquireKeeps(s: Settings, w: World, at: real, task: TaskId, sendable: bool)
    requires Inv(w) && Enabled(w, Event(at, Acquire(task, sendable)))
    ensures Inv(Step(s, w, Event(at, Acquire(task, sendable))))
  {
    ClockKeeps(w, at);
    UnderLockKeeps(s, w.(clock := at), task, sendable);
  }

  lemma StepKeepsInv(s: Settings, w: World, ev: Event)
    requires Inv(w) && Enabled(w, ev)
    ensures Inv(Step(s, w, ev))
  {
    match ev.action
    case FindOrCreate(newId, identity, ttl) => CreatedKeeps(w, newId, identity, ttl, ev.at);
    case Operate(id, op) => OperateKeeps(s, w, ev.at, id, op);
    case Evaluate(task, id, sendable) => EvaluateKeeps(s, w, ev.at, task, id, sendable);
    case Acquire(task, sendable) => AcquireKeeps(s, w, ev.at, task, sendable);
    case Finish(task, result) => FinishKeeps(s, w, ev.at, task, result);
    case Cancel(task) => CancelKeeps(s, w, ev.at, task);
  }

  lemma ClockKeeps(w: World, at: real)
    requires Inv(w) && w.clock <= at
    ensures Inv(w.(clock := at))
  {
    var w' := w.(clock := at);
    forall t | t in w'.tasks ensures TaskInv(w', t) { assert TaskInv(w, t); }
    forall fp | fp in w'.locks ensures LockInv(w', fp) { assert LockInv(w, fp); }
  }

  lemma {:induction false} RunKeepsInv(s: Settings, w: World, run: seq<Event>)
    requires Inv(w) && IsRun(s, w, run)
    ensures Inv(Exec(s, w, run))
    decreases |run|
  {
    if run != [] {
      StepKeepsInv(s, w, run[0]);
      RunKeepsInv(s, Step(s, w, run[0]), run[1..]);
    }
  }
}
