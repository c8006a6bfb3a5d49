/** What one scheduler can spend: warming a lease terminates, and its cost stays below what was approved. */
module WarmSpending {
  import opened Wrappers
  import opened Economics
  import opened Leases
  import opened History
  import opened WarmProtocol
  import opened WarmInvariants

  /** The scheduler evaluates one lease after the other: no evaluation starts while another is suspended. */
  predicate OneScheduler(w: World, ev: Event) {
    ev.action.Evaluate? ==> w.tasks == map[]
  }

  /** The event is the executor's answer for a warm of this lease, and it was paid for. */
  predicate Pays(w: World, ev: Event, id: LeaseId) {
    && ev.action.Finish? && ev.action.task in w.tasks
    && w.tasks[ev.action.task].lease == id && ev.action.result.outcome.Some?
  }

  predicate EndsRequest(ev: Event, id: LeaseId) {
    ev.action.Operate? && ev.action.id == id && ev.action.op.RequestEnd?
  }

  predicate Reprices(ev: Event, id: LeaseId) {
    ev.action.Operate? && ev.action.id == id && ev.action.op.Reprice?
  }

  /** Nothing was paid between the two cells, and no approval was forgotten. */
  predicate SameSpending(c: Cell, c': Cell) {
    && c'.entry.lease.warmCost == c.entry.lease.warmCost
    && PaidWarms(c'.history) == PaidWarms(c.history)
    && PaidHits(c'.history) == PaidHits(c.history)
    && (LargestApproval(c.history).Some? ==>
          && LargestApproval(c'.history).Some?
          && LargestApproval(c'.history).value >= LargestApproval(c.history).value)
  }

  predicate SamePrices(a: Lease, b: Lease) {
    b.coldCost == a.coldCost && b.cachedCost == a.cachedCost && b.nextWarmCost == a.nextWarmCost
  }

  predicate SameStreak(c: Cell, c': Cell) {
    MissesSinceEvidence(c'.history) == MissesSinceEvidence(c.history)
  }

  lemma OperationsSpendNothing(c: Cell, op: Operation, at: real)
    requires op.Reprice? && op.pricing.Some? ==> Pricing.ValidPricing(op.pricing.value)
    ensures SameSpending(c, Operated(c, op, at))
    ensures !op.RequestEnd? ==> SameStreak(c, Operated(c, op, at))
    ensures !op.Reprice? ==> SamePrices(c.entry.lease, Operated(c, op, at).entry.lease)
  {
  }

  lemma DecidingSpendsNothing(s: Settings, c: Cell, at: real)
    ensures var c' := Evaluated(s, c, at);
            SameSpending(c, c') && SameStreak(c, c') && SamePrices(c.entry.lease, c'.entry.lease)
  {
  }

  lemma CheckingSpendsNothing(s: Settings, w: World, task: TaskId, t: Task, sendable: bool, id: LeaseId)
    requires t.lease in w.cells && id in w.cells
    ensures id in UnderLock(s, w, task, t, sendable).cells
    ensures var c, c' := w.cells[id], UnderLock(s, w, task, t, sendable).cells[id];
            SameSpending(c, c') && SameStreak(c, c') && SamePrices(c.entry.lease, c'.entry.lease)
  {
  }

  /** Money and evidence of a lease move only when a warm is paid for, its prices only with a re-pricing. */
  lemma OnlyAnswersSpend(s: Settings, w: World, ev: Event, id: LeaseId)
    requires Enabled(w, ev) && id in w.cells && !Pays(w, ev, id)
    ensures id in Step(s, w, ev).cells
    ensures var c, c' := w.cells[id], Step(s, w, ev).cells[id];
            && SameSpending(c, c')
            && (!EndsRequest(ev, id) ==> SameStreak(c, c'))
            && (!Reprices(ev, id) ==> SamePrices(c.entry.lease, c'.entry.lease))
  {
    match ev.action
    case FindOrCreate(_, _, _) =>
      OperationsSpendNothing(w.cells[id], Invalidate, ev.at);
    case Operate(x, op) =>
      OperationsSpendNothing(w.cells[x], op, ev.at);
    case Evaluate(task, x, sendable) =>
      if x != id {
        EvaluatingIsLocal(s, w, ev.at, task, x, sendable, id);
      } else {
        EvaluationSpendsNothing(s, w, ev.at, task, id, sendable);
      }
    case Acquire(task, sendable) =>
      CheckingSpendsNothing(s, w.(clock := ev.at), task, w.tasks[task], sendable, id);
    case Finish(task, result) =>
      if w.tasks[task].lease == id {
        ReturningSpendsNothing(w.cells[id]);
        assert result.outcome == None;
      }
    case Cancel(task) =>
      if w.tasks[task].lease == id {
        ReturningSpendsNothing(w.cells[id]);
      }
  }

  lemma ReturningSpendsNothing(c: Cell)
    ensures var c' := c.(entry := AfterWarmReturned(c.entry));
            SameSpending(c, c') && SameStreak(c, c') && SamePrices(c.entry.lease, c'.entry.lease)
  {
  }

  lemma EvaluationSpendsNothing(s: Settings, w: World, at: real, task: TaskId, id: LeaseId, sendable: bool)
    requires id in w.cells
    ensures id in Evaluating(s, w, at, task, id, sendable).cells
    ensures var c, c' := w.cells[id], Evaluating(s, w, at, task, id, sendable).cells[id];
            SameSpending(c, c') && SameStreak(c, c') && SamePrices(c.entry.lease, c'.entry.lease)
  {
    var cell := w.cells[id];
    DecidingSpendsNothing(s, cell, at);
    var decided := w.(cells := w.cells[id := Evaluated(s, cell, at)], clock := at);
    var verdict := DecideEvaluation(s, cell.entry, at).verdict;
    if verdict.Proceed? {
      var t := Task(id, verdict.generation, cell.recorded.UnwrapOr(cell.history), ApprovalOf(s, cell.entry), false);
      CheckingSpendsNothing(s, decided, task, t, sendable, id);
    }
  }

  lemma OnlyEvaluationsAddTasks(s: Settings, w: World, ev: Event, task: TaskId)
    requires Enabled(w, ev) && task in Step(s, w, ev).tasks && task !in w.tasks
    ensures ev.action.Evaluate? && ev.action.task == task
  {
    match ev.action
    case FindOrCreate(_, _, _) =>
    case Operate(_, _) =>
    case Evaluate(_, _, _) =>
    case Acquire(_, _) =>
    case Finish(_, _) =>
    case Cancel(_) =>
  }

  /** The task carries what the gate approved, for the lease as it was, and the history remembers the budget. */
  predicate CarriesApproval(s: Settings, w: World, w': World, task: TaskId, id: LeaseId)
    requires id in w.cells && task in w'.tasks
  {
    var t, input := w'.tasks[task], GateInputOf(s, w.cells[id].entry.lease);
    && t.lease == id && id in w'.cells
    && Economics.Evaluate(s.economics, input).ShouldWarm()
    && t.approval == Some(Approval(Economics.Evaluate(s.economics, input).maxWarmBudget, input.nextWarmCost))
    && LargestApproval(w'.cells[id].history).Some?
    && LargestApproval(w'.cells[id].history).value >= t.approval.value.budget
  }

  lemma EvaluationApproves(s: Settings, w: World, at: real, task: TaskId, id: LeaseId, sendable: bool)
    requires s.economics.enabled && id in w.cells && task !in w.tasks
    requires task in Evaluating(s, w, at, task, id, sendable).tasks
    ensures CarriesApproval(s, w, Evaluating(s, w, at, task, id, sendable), task, id)
  {
  }

  /** New tasks come only from an evaluation the gate let through, and tell what it approved. */
  lemma NewTaskWasApproved(s: Settings, w: World, ev: Event, task: TaskId)
    requires ValidSettings(s) && s.economics.enabled && Enabled(w, ev)
    requires task in Step(s, w, ev).tasks && task !in w.tasks
    ensures ev.action.Evaluate? && ev.action.task == task
    ensures CarriesApproval(s, w, Step(s, w, ev), task, ev.action.id)
  {
    OnlyEvaluationsAddTasks(s, w, ev, task);
    EvaluationApproves(s, w, ev.at, task, ev.action.id, ev.action.sendable);
  }

  lemma OldTaskIsUnchanged(s: Settings, w: World, ev: Event, task: TaskId)
    requires Enabled(w, ev) && task in Step(s, w, ev).tasks && task in w.tasks
    ensures var t, t' := w.tasks[task], Step(s, w, ev).tasks[task];
            t'.lease == t.lease && t'.approval == t.approval
    ensures !(ev.action.Finish? && ev.action.task == task)
  {
    match ev.action
    case FindOrCreate(_, _, _) =>
    case Operate(_, _) =>
    case Evaluate(_, _, _) =>
    case Acquire(_, _) =>
    case Finish(_, _) =>
    case Cancel(_) =>
  }

  // -- spend bound ------------------------------------------------------------

  /** No warm costs more than `excess` over what the gate was told it would. */
  predicate Honest(w: World, ev: Event, excess: real) {
    ev.action.Finish? && ev.action.task in w.tasks && ev.action.result.outcome.Some?
    && w.tasks[ev.action.task].approval.Some? ==>
      ev.action.result.cost <= w.tasks[ev.action.task].approval.value.predictor + excess
  }

  predicate WithinExcess(w: World, ev: Event, excess: real) {
    OneScheduler(w, ev) && Honest(w, ev, excess)
  }

  predicate ExcessRun(s: Settings, w: World, run: seq<Event>, excess: real)
    decreases |run|
  {
    run == [] || (&& Enabled(w, run[0]) && WithinExcess(w, run[0], excess)
                  && ExcessRun(s, Step(s, w, run[0]), run[1..], excess))
  }

  /** A suspended warm still fits the budget it was approved under. */
  predicate Affordable(w: World, task: TaskId)
    requires task in w.tasks
  {
    var t := w.tasks[task];
    && t.lease in w.cells && t.approval.Some?
    && w.cells[t.lease].entry.lease.warmCost + t.approval.value.predictor < t.approval.value.budget
    && LargestApproval(w.cells[t.lease].history).Some?
    && t.approval.value.budget <= LargestApproval(w.cells[t.lease].history).value
  }

  predicate Thrifty(c: Cell, excess: real) {
    if PaidWarms(c.history) == 0 then c.entry.lease.warmCost == 0.0
    else LargestApproval(c.history).Some? && c.entry.lease.warmCost < LargestApproval(c.history).value + excess
  }

  predicate SpendInv(w: World, excess: real) {
    && (forall a, b | a in w.tasks && b in w.tasks :: a == b)
    && (forall t | t in w.tasks :: Affordable(w, t))
    && (forall id | id in w.cells :: Thrifty(w.cells[id], excess))
  }

  lemma StepKeepsTasksAffordable(s: Settings, w: World, ev: Event, excess: real, task: TaskId)
    requires ValidSettings(s) && s.economics.enabled
    requires SpendInv(w, excess) && Enabled(w, ev) && WithinExcess(w, ev, excess)
    requires task in Step(s, w, ev).tasks
    ensures Affordable(Step(s, w, ev), task)
    ensures forall b | b in Step(s, w, ev).tasks :: b == task
  {
    var w' := Step(s, w, ev);
    forall b | b in w'.tasks
      ensures b == task
    {
      if b !in w.tasks { NewTaskWasApproved(s, w, ev, b); }
      if task !in w.tasks { NewTaskWasApproved(s, w, ev, task); }
    }
    if task in w.tasks {
      OldTaskIsUnchanged(s, w, ev, task);
      assert Affordable(w, task);
      assert !Pays(w, ev, w.tasks[task].lease);
      OnlyAnswersSpend(s, w, ev, w.tasks[task].lease);
    } else {
      NewTaskWasApproved(s, w, ev, task);
      WarmLeavesValueAboveSpend(s.economics, GateInputOf(s, w.cells[ev.action.id].entry.lease));
      OnlyAnswersSpend(s, w, ev, ev.action.id);
    }
  }

  lemma StepKeepsThrift(s: Settings, w: World, ev: Event, excess: real, id: LeaseId)
    requires SpendInv(w, excess) && Enabled(w, ev) && WithinExcess(w, ev, excess)
    requires id in Step(s, w, ev).cells
    ensures Thrifty(Step(s, w, ev).cells[id], excess)
  {
    if id in w.cells {
      assert Thrifty(w.cells[id], excess);
      if Pays(w, ev, id) {
        assert Affordable(w, ev.action.task);
      } else {
        OnlyAnswersSpend(s, w, ev, id);
      }
    } else {
      NewLeaseSpentNothing(s, w, ev, id);
    }
  }

  lemma NewLeaseSpentNothing(s: Settings, w: World, ev: Event, id: LeaseId)
    requires Enabled(w, ev) && id in Step(s, w, ev).cells && id !in w.cells
    ensures Step(s, w, ev).cells[id].history == Empty && Step(s, w, ev).cells[id].entry.lease.warmCost == 0.0
  {
    match ev.action
    case FindOrCreate(_, _, _) =>
    case Operate(_, _) =>
    case Evaluate(_, _, _) =>
    case Acquire(_, _) =>
    case Finish(_, _) =>
    case Cancel(_) =>
  }

  lemma {:induction false} RunKeepsSpend(s: Settings, w: World, run: seq<Event>, excess: real)
    requires ValidSettings(s) && s.economics.enabled
    requires SpendInv(w, excess) && ExcessRun(s, w, run, excess)
    ensures IsRun(s, w, run) && SpendInv(Exec(s, w, run), excess)
    decreases |run|
  {
    if run != [] {
      var w' := Step(s, w, run[0]);
      forall t | t in w'.tasks
        ensures Affordable(w', t) && forall b | b in w'.tasks :: b == t
      {
        StepKeepsTasksAffordable(s, w, run[0], excess, t);
      }
      forall id | id in w'.cells
        ensures Thrifty(w'.cells[id], excess)
      {
        StepKeepsThrift(s, w, run[0], excess, id);
      }
      RunKeepsSpend(s, w', run[1..], excess);
    }
  }

  /** Over any run of one scheduler, whatever requests re-price the lease: if no warm costs more than its predictor
      plus `excess`, a lease that paid for warms spent less than the largest budget ever approved plus `excess`. */
  lemma SpendStaysBelowTheLargestApproval(s: Settings, run: seq<Event>, excess: real, id: LeaseId)
    requires ValidSettings(s) && s.economics.enabled && ExcessRun(s, START, run, excess)
    ensures IsRun(s, START, run)
    ensures id in Exec(s, START, run).cells ==>
              var c := Exec(s, START, run).cells[id];
              && c.entry.lease.warmCost == TotalPaid(c.history)
              && (PaidWarms(c.history) > 0 ==>
                    && LargestApproval(c.history).Some?
                    && TotalPaid(c.history) < LargestApproval(c.history).value + excess)
  {
    RunKeepsSpend(s, START, run, excess);
    RunKeepsInv(s, START, run);
  }

  // -- warming terminates -----------------------------------------------------

  /** No real request on the lease, no warm of it has a negative cost, every confirmed hit costs at least c. */
  predicate Calm(w: World, ev: Event, id: LeaseId, c: real) {
    && !EndsRequest(ev, id) && !Reprices(ev, id)
    && !(ev.action.Operate? && ev.action.id == id && ev.action.op.RequestStart?)
    && (Pays(w, ev, id) ==>
          && ev.action.result.cost >= 0.0
          && (ev.action.result.outcome.value == ConfirmedHit ==> ev.action.result.cost >= c))
  }

  predicate Quiet(w: World, ev: Event, id: LeaseId, c: real) {
    OneScheduler(w, ev) && Calm(w, ev, id, c)
  }

  predicate QuietRun(s: Settings, w: World, run: seq<Event>, id: LeaseId, c: real)
    decreases |run|
  {
    run == [] || (&& Enabled(w, run[0]) && Quiet(w, run[0], id, c)
                  && QuietRun(s, Step(s, w, run[0]), run[1..], id, c))
  }

  /** The largest budget the gate can grant the lease at its present prices. */
  function Ceiling(s: Settings, lease: Lease): real {
    s.economics.budgetRatio * Max(s.resumeProbability, s.detachedResumeProbability)
    * (lease.coldCost.UnwrapOr(0.0) - lease.cachedCost.UnwrapOr(0.0))
  }

  /** What `hits` hits cost when each costs c. */
  function CostOfHits(hits: nat, c: real): real {
    if hits == 0 then 0.0 else CostOfHits(hits - 1, c) + c
  }

  lemma {:induction false} CostOfHitsIsTheProduct(hits: nat, c: real)
    ensures CostOfHits(hits, c) == hits as real * c
  {
    if hits > 0 {
      CostOfHitsIsTheProduct(hits - 1, c);
      OneMoreTimes((hits - 1) as real, c);
    }
  }

  lemma OneMoreTimes(n: real, c: real)
    ensures (n + 1.0) * c == n * c + c
  {
  }

  /** What a quiet run keeps of its lease, having started with `hits0` hits and `paid0` paid warms. */
  predicate QuietCell(cell: Cell, ceiling: real, c: real, hits0: nat, paid0: nat) {
    var hits := PaidHits(cell.history) - hits0;
    && hits >= 0 && cell.entry.lease.warmCost >= CostOfHits(hits, c)
    && (hits > 0 ==> CostOfHits(hits, c) < ceiling)
    && PaidWarms(cell.history) - paid0 <= 2 * hits + MissesSinceEvidence(cell.history)
  }

  predicate QuietInv(s: Settings, w: World, id: LeaseId, c: real, prices: Lease, hits0: nat, paid0: nat) {
    && Inv(w) && id in w.cells
    && SamePrices(prices, w.cells[id].entry.lease)
    && QuietCell(w.cells[id], Ceiling(s, prices), c, hits0, paid0)
    && (forall a, b | a in w.tasks && b in w.tasks :: a == b)
    && (forall t | t in w.tasks && w.tasks[t].lease == id ::
          w.cells[id].entry.lease.warmCost + c < Ceiling(s, prices))
  }

  lemma ApprovalFitsTheCeiling(s: Settings, lease: Lease, c: real)
    requires ValidSettings(s) && s.economics.enabled
    requires lease.nextWarmCost.Some? && lease.nextWarmCost.value >= c
    requires Economics.Evaluate(s.economics, GateInputOf(s, lease)).ShouldWarm()
    ensures lease.warmCost + c < Ceiling(s, lease)
  {
    var input := GateInputOf(s, lease);
    WarmLeavesValueAboveSpend(s.economics, input);
    ResumeProbabilityIsBounded(s, lease);
    var p, largest := input.resumeProbability, Max(s.resumeProbability, s.detachedResumeProbability);
    var loss := input.coldResumeCost - input.cachedResumeCost;
    ProductIsMonotone(s.economics.budgetRatio, s.economics.budgetRatio, p, largest);
    ProductIsMonotone(0.0, s.economics.budgetRatio, 0.0, p);
    ProductIsMonotone(s.economics.budgetRatio * p, s.economics.budgetRatio * largest, loss, loss);
  }

  /** An answer to a quiet warm: a hit pays at least c and clears a streak of at most one, a miss lengthens it. */
  lemma AnswerKeepsQuietCell(cell: Cell, result: WarmResult, at: real, ceiling: real, c: real, hits0: nat, paid0: nat)
    requires c > 0.0 && QuietCell(cell, ceiling, c, hits0, paid0)
    requires MissesSinceEvidence(cell.history) <= 1 && cell.entry.lease.warmCost + c < ceiling
    requires result.outcome.Some? && result.cost >= 0.0
    requires result.outcome.value == ConfirmedHit ==> result.cost >= c
    ensures QuietCell(Finished(cell, result, at), ceiling, c, hits0, paid0)
  {
    var cell' := Finished(cell, result, at);
    var hits := PaidHits(cell.history) - hits0;
    assert PaidWarms(cell'.history) == PaidWarms(cell.history) + 1;
    assert cell'.entry.lease.warmCost == cell.entry.lease.warmCost + result.cost;
    if result.outcome.value == ConfirmedHit {
      assert PaidHits(cell'.history) == PaidHits(cell.history) + 1;
      assert CostOfHits(hits + 1, c) == CostOfHits(hits, c) + c;
    } else {
      assert MissesSinceEvidence(cell'.history) == MissesSinceEvidence(cell.history) + 1;
    }
  }

  lemma QuietAnswer(s: Settings, w: World, ev: Event, id: LeaseId, c: real, prices: Lease, hits0: nat, paid0: nat)
    requires c > 0.0 && QuietInv(s, w, id, c, prices, hits0, paid0)
    requires Enabled(w, ev) && Quiet(w, ev, id, c) && Pays(w, ev, id)
    ensures QuietInv(s, Step(s, w, ev), id, c, prices, hits0, paid0)
  {
    var w' := Step(s, w, ev);
    StepKeepsInv(s, w, ev);
    assert TaskInv(w, ev.action.task);
    assert BreakerInv(w.cells[id]);
    AnswerKeepsQuietCell(w.cells[id], ev.action.result, ev.at, Ceiling(s, prices), c, hits0, paid0);
    assert w'.cells[id] == Finished(w.cells[id], ev.action.result, ev.at);
    assert w'.tasks == w.tasks - {ev.action.task};
    assert w'.tasks == map[];
  }

  lemma SpendingKeepsQuietCell(c: Cell, c': Cell, ceiling: real, price: real, hits0: nat, paid0: nat)
    requires QuietCell(c, ceiling, price, hits0, paid0) && SameSpending(c, c') && SameStreak(c, c')
    ensures QuietCell(c', ceiling, price, hits0, paid0)
  {
  }

  lemma CeilingFollowsPrices(s: Settings, a: Lease, b: Lease)
    requires SamePrices(a, b)
    ensures Ceiling(s, a) == Ceiling(s, b)
  {
  }

  /** A suspended warm of the lease has room for another hit under the ceiling. */
  lemma QuietTaskFits(s: Settings, w: World, ev: Event, id: LeaseId, c: real, task: TaskId)
    requires ValidSettings(s) && s.economics.enabled && id in w.cells
    requires w.cells[id].entry.lease.nextWarmCost.Some? && w.cells[id].entry.lease.nextWarmCost.value >= c
    requires Enabled(w, ev)
    requires task in Step(s, w, ev).tasks && Step(s, w, ev).tasks[task].lease == id
    requires task in w.tasks && w.tasks[task].lease == id ==>
               w.cells[id].entry.lease.warmCost + c < Ceiling(s, w.cells[id].entry.lease)
    ensures w.cells[id].entry.lease.warmCost + c < Ceiling(s, w.cells[id].entry.lease)
  {
    if task in w.tasks {
      OldTaskIsUnchanged(s, w, ev, task);
    } else {
      NewTaskWasApproved(s, w, ev, task);
      ApprovalFitsTheCeiling(s, w.cells[id].entry.lease, c);
    }
  }

  lemma QuietOther(s: Settings, w: World, ev: Event, id: LeaseId, c: real, prices: Lease, hits0: nat, paid0: nat)
    requires ValidSettings(s) && s.economics.enabled
    requires prices.nextWarmCost.Some? && prices.nextWarmCost.value >= c > 0.0
    requires QuietInv(s, w, id, c, prices, hits0, paid0)
    requires Enabled(w, ev) && Quiet(w, ev, id, c) && !Pays(w, ev, id)
    ensures QuietInv(s, Step(s, w, ev), id, c, prices, hits0, paid0)
  {
    var w' := Step(s, w, ev);
    OnlyAnswersSpend(s, w, ev, id);
    SpendingKeepsQuietCell(w.cells[id], w'.cells[id], Ceiling(s, prices), c, hits0, paid0);
    CeilingFollowsPrices(s, prices, w.cells[id].entry.lease);
    forall t | t in w'.tasks && w'.tasks[t].lease == id
      ensures w'.cells[id].entry.lease.warmCost + c < Ceiling(s, prices)
    {
      QuietTaskFits(s, w, ev, id, c, t);
    }
    AtMostOneTask(s, w, ev);
    StepKeepsInv(s, w, ev);
  }

  lemma AtMostOneTask(s: Settings, w: World, ev: Event)
    requires Enabled(w, ev) && OneScheduler(w, ev)
    requires forall a, b | a in w.tasks && b in w.tasks :: a == b
    ensures forall a, b | a in Step(s, w, ev).tasks && b in Step(s, w, ev).tasks :: a == b
  {
    match ev.action
    case FindOrCreate(_, _, _) =>
    case Operate(_, _) =>
    case Evaluate(_, _, _) =>
    case Acquire(_, _) =>
    case Finish(_, _) =>
    case Cancel(_) =>
  }

  lemma {:induction false} QuietRunKeeps(
      s: Settings, w: World, run: seq<Event>, id: LeaseId, c: real, prices: Lease, hits0: nat, paid0: nat)
    requires ValidSettings(s) && s.economics.enabled
    requires prices.nextWarmCost.Some? && prices.nextWarmCost.value >= c > 0.0
    requires QuietInv(s, w, id, c, prices, hits0, paid0) && QuietRun(s, w, run, id, c)
    ensures IsRun(s, w, run) && QuietInv(s, Exec(s, w, run), id, c, prices, hits0, paid0)
    decreases |run|
  {
    if run != [] {
      if Pays(w, run[0], id) {
        QuietAnswer(s, w, run[0], id, c, prices, hits0, paid0);
      } else {
        QuietOther(s, w, run[0], id, c, prices, hits0, paid0);
      }
      QuietRunKeeps(s, Step(s, w, run[0]), run[1..], id, c, prices, hits0, paid0);
    }
  }

  /** Between the two moments the hits H satisfy H * c < budget ratio * larger probability * (cold - cached), and at
      most 2H + 2 warms were paid. */
  predicate SpentWithinBounds(s: Settings, from: Cell, to: Cell, c: real) {
    var hits := PaidHits(to.history) - PaidHits(from.history);
    && hits >= 0
    && (hits > 0 ==> hits as real * c < Ceiling(s, from.entry.lease))
    && PaidWarms(to.history) - PaidWarms(from.history) <= 2 * hits + 2
  }

  lemma QuietCellIsWithinBounds(s: Settings, from: Cell, to: Cell, c: real)
    requires QuietCell(to, Ceiling(s, from.entry.lease), c, PaidHits(from.history), PaidWarms(from.history))
    requires BreakerInv(to)
    ensures SpentWithinBounds(s, from, to, c)
  {
    CostOfHitsIsTheProduct(PaidHits(to.history) - PaidHits(from.history), c);
  }

  ghost predicate Reachable(s: Settings, w: World) {
    exists run :: IsRun(s, START, run) && w == Exec(s, START, run)
  }

  lemma ReachableInv(s: Settings, w: World)
    requires Reachable(s, w)
    ensures Inv(w)
  {
    var run :| IsRun(s, START, run) && w == Exec(s, START, run);
    RunKeepsInv(s, START, run);
  }

  lemma QuietStart(s: Settings, w: World, id: LeaseId, c: real)
    requires Inv(w) && w.tasks == map[] && id in w.cells && w.cells[id].entry.lease.warmCost >= 0.0
    ensures var cell := w.cells[id];
            QuietInv(s, w, id, c, cell.entry.lease, PaidHits(cell.history), PaidWarms(cell.history))
  {
  }

  /** Warming terminates. Take any reachable moment with no evaluation suspended, and any continuation without a real
      request on the lease. With a predictor of at least c and every confirmed hit costing at least c, the hits H
      satisfy H * c < budget ratio * larger probability * (cold - cached), and at most 2H + 2 warms are paid. */
  lemma WarmingTerminates(s: Settings, w: World, run: seq<Event>, id: LeaseId, c: real)
    requires ValidSettings(s) && s.economics.enabled && c > 0.0
    requires Reachable(s, w) && w.tasks == map[] && id in w.cells
    requires w.cells[id].entry.lease.warmCost >= 0.0
    requires w.cells[id].entry.lease.nextWarmCost.Some? && w.cells[id].entry.lease.nextWarmCost.value >= c
    requires QuietRun(s, w, run, id, c)
    ensures IsRun(s, w, run) && id in Exec(s, w, run).cells
    ensures SpentWithinBounds(s, w.cells[id], Exec(s, w, run).cells[id], c)
  {
    ReachableInv(s, w);
    QuietStart(s, w, id, c);
    var cell := w.cells[id];
    QuietRunKeeps(s, w, run, id, c, cell.entry.lease, PaidHits(cell.history), PaidWarms(cell.history));
    QuietCellIsWithinBounds(s, cell, Exec(s, w, run).cells[id], c);
  }
}
