/** The lease manager as a concurrent step system. Code between two awaits is atomic; an evaluation awaits
    only at the per-fingerprint lock (when it is taken or queued for) and at the executor call, so any other
    step may fall there. */
module WarmProtocol {
  import opened Wrappers
  import opened Pricing
  import opened Leases
  import opened History

  type TaskId = nat

  /** A lease, its history, and the point of that history at which `scheduledGeneration` was recorded. */
  datatype Cell = Cell(entry: Entry, history: History, recorded: Option<History>)

  /** A suspended evaluation: queued for the lock, or waiting for the executor's answer. `recorded` is when the
      generation it carries was recorded; `approval` is what the economic gate approved it for. */
  datatype Task = Task(lease: LeaseId, generation: nat, recorded: History, approval: Option<Approval>, sending: bool)

  datatype Approval = Approval(budget: real, predictor: real)

  datatype World = World(
    cells: map<LeaseId, Cell>, byFingerprint: map<Fingerprint, LeaseId>,
    tasks: map<TaskId, Task>, locks: map<Fingerprint, TaskId>, clock: real)

  const START := World(map[], map[], map[], map[], 0.0)

  datatype Operation =
    | Arm | Invalidate | Complete
    | TargetStarted(target: string) | TargetFinished(target: string)
    | RequestStart | RequestEnd(outcome: Outcome)
    | Reprice(prefix: nat, pricing: Option<PricingTable>, fallback: Option<real>)
    | RefreshTtl(ttl: real)

  datatype Action =
    | FindOrCreate(newId: LeaseId, identity: Identity, ttl: real)
    | Operate(id: LeaseId, op: Operation)
    | Evaluate(task: TaskId, id: LeaseId, sendable: bool)
    | Acquire(task: TaskId, sendable: bool)
    | Finish(task: TaskId, result: WarmResult)
    | Cancel(task: TaskId)

  /** One atomic step, at a time of the injected clock. */
  datatype Event = Event(at: real, action: Action)

  function FingerprintOf(w: World, id: LeaseId): Fingerprint
    requires id in w.cells
  {
    w.cells[id].entry.lease.identity.fingerprint
  }

  predicate Enabled(w: World, ev: Event) {
    ev.at >= w.clock &&
    match ev.action
    case FindOrCreate(newId, _, _) => newId !in w.cells
    case Operate(id, op) => id in w.cells && (op.Reprice? && op.pricing.Some? ==> ValidPricing(op.pricing.value))
    case Evaluate(task, id, _) => task !in w.tasks && id in w.cells
    case Acquire(task, _) =>
      && task in w.tasks && !w.tasks[task].sending
      && w.tasks[task].lease in w.cells && FingerprintOf(w, w.tasks[task].lease) !in w.locks
    case Finish(task, _) => task in w.tasks && w.tasks[task].sending && w.tasks[task].lease in w.cells
    case Cancel(task) => task in w.tasks && w.tasks[task].lease in w.cells
  }

  // -- steps of one lease -----------------------------------------------------

  function Operated(cell: Cell, op: Operation, at: real): Cell
    requires op.Reprice? && op.pricing.Some? ==> ValidPricing(op.pricing.value)
  {
    var e, h := cell.entry, cell.history;
    match op
    case Arm => cell.(entry := AfterArm(e))
    case Invalidate => cell.(entry := AfterInvalidate(e), history := Then(h, IdentityInvalidated))
    case Complete => cell.(entry := AfterComplete(e))
    case TargetStarted(t) => cell.(entry := AfterTargetStarted(e, t))
    case TargetFinished(t) => cell.(entry := AfterTargetFinished(e, t))
    case RequestStart => cell.(entry := AfterRequestStart(e, at), history := Then(h, RequestStarted(at)))
    case RequestEnd(outcome) =>
      cell.(entry := AfterRequestEnd(e, outcome, at),
            history := Then(h, RequestEnded(outcome, e.lease.state != Invalidated, at)))
    case Reprice(prefix, pricing, fallback) => cell.(entry := AfterReprice(e, prefix, pricing, fallback))
    case RefreshTtl(ttl) => cell.(entry := AfterRefreshTtl(e, ttl))
  }

  function ApprovalOf(s: Settings, e: Entry): Option<Approval> {
    if s.economics.enabled then
      var d := Economics.Evaluate(s.economics, GateInputOf(s, e.lease));
      Some(Approval(d.maxWarmBudget, d.nextWarmCost))
    else None
  }

  /** The lease after segment 1 of an evaluation. */
  function Evaluated(s: Settings, cell: Cell, at: real): Cell {
    var d := DecideEvaluation(s, cell.entry, at);
    match d.verdict
    case Done(Scheduled) => Cell(d.entry, cell.history, Some(cell.history))
    case Done(SkippedStale) => Cell(d.entry, cell.history, None)
    case Done(_) => cell.(entry := d.entry)
    case Proceed(_) =>
      var approval := ApprovalOf(s, cell.entry);
      Cell(d.entry,
           if approval.Some? then Then(cell.history, Approved(approval.value.budget, approval.value.predictor))
           else cell.history,
           None)
  }

  function Finished(cell: Cell, result: WarmResult, at: real): Cell {
    Cell(AfterWarmResult(cell.entry, result, at),
         if result.outcome.Some?
         then Then(cell.history, Paid(result.outcome.value, result.wroteCache, result.cost, at))
         else cell.history,
         cell.recorded)
  }

  // -- steps of the whole manager ---------------------------------------------

  /** The lease find-or-create returns without creating one. */
  function Existing(w: World, identity: Identity): Option<LeaseId> {
    if && identity.fingerprint in w.byFingerprint
       && w.byFingerprint[identity.fingerprint] in w.cells
       && w.cells[w.byFingerprint[identity.fingerprint]].entry.lease.identity.session == identity.session
    then Some(w.byFingerprint[identity.fingerprint])
    else None
  }

  function Created(w: World, newId: LeaseId, identity: Identity, ttl: real, at: real): World {
    if Existing(w, identity).Some? then w
    else
      var others := map id | id in w.cells ::
        if Superseded(w.cells[id].entry.lease, identity) then Operated(w.cells[id], Invalidate, at) else w.cells[id];
      w.(cells := others[newId := Cell(NewEntry(identity, ttl), Empty, None)],
         byFingerprint := w.byFingerprint[identity.fingerprint := newId])
  }

  /** Segment 2: the lock is free, take it; either refuse and release it, or send and keep it. */
  function UnderLock(s: Settings, w: World, task: TaskId, t: Task, sendable: bool): World
    requires t.lease in w.cells
  {
    var cell := w.cells[t.lease];
    if LockedRefusal(s, cell.entry, t.generation, sendable).Some? then
      w.(tasks := w.tasks - {task})
    else
      w.(cells := w.cells[t.lease := cell.(entry := AfterSend(cell.entry), history := Then(cell.history, Sent))],
         tasks := w.tasks[task := t.(sending := true)],
         locks := w.locks[FingerprintOf(w, t.lease) := task])
  }

  /** asyncio.Lock hands over without suspending exactly when nobody holds it or queues for it. */
  predicate LockIsIdle(w: World, fingerprint: Fingerprint) {
    && fingerprint !in w.locks
    && forall t | t in w.tasks && !w.tasks[t].sending && w.tasks[t].lease in w.cells ::
         FingerprintOf(w, w.tasks[t].lease) != fingerprint
  }

  /** Segment 1, and segment 2 with it when nobody holds or awaits the lock. */
  function Evaluating(s: Settings, w: World, at: real, task: TaskId, id: LeaseId, sendable: bool): World
    requires id in w.cells
  {
    var cell := w.cells[id];
    var decided := w.(cells := w.cells[id := Evaluated(s, cell, at)], clock := at);
    var verdict := DecideEvaluation(s, cell.entry, at).verdict;
    if verdict.Done? then decided
    else
      var t := Task(id, verdict.generation, cell.recorded.UnwrapOr(cell.history), ApprovalOf(s, cell.entry), false);
      if LockIsIdle(w, FingerprintOf(w, id)) then UnderLock(s, decided, task, t, sendable)
      else decided.(tasks := w.tasks[task := t])
  }

  lemma EvaluatingIsLocal(s: Settings, w: World, at: real, task: TaskId, id: LeaseId, sendable: bool, other: LeaseId)
    requires id in w.cells && other in w.cells && other != id
    ensures var w' := Evaluating(s, w, at, task, id, sendable);
            other in w'.cells && w'.cells[other] == w.cells[other]
  {
  }

  /** Segment 3: the task is over, with the lease as given, and the lock is free again. */
  function Released(w: World, task: TaskId, cell: Cell, at: real): World
    requires task in w.tasks && w.tasks[task].lease in w.cells
  {
    var id := w.tasks[task].lease;
    w.(cells := w.cells[id := cell], tasks := w.tasks - {task}, locks := w.locks - {FingerprintOf(w, id)}, clock := at)
  }

  function Step(s: Settings, w: World, ev: Event): World
    requires Enabled(w, ev)
  {
    match ev.action
    case FindOrCreate(newId, identity, ttl) => Created(w.(clock := ev.at), newId, identity, ttl, ev.at)
    case Operate(id, op) => w.(cells := w.cells[id := Operated(w.cells[id], op, ev.at)], clock := ev.at)
    case Evaluate(task, id, sendable) => Evaluating(s, w, ev.at, task, id, sendable)
    case Acquire(task, sendable) => UnderLock(s, w.(clock := ev.at), task, w.tasks[task], sendable)
    case Finish(task, result) => Released(w, task, Finished(w.cells[w.tasks[task].lease], result, ev.at), ev.at)
    case Cancel(task) =>
      if !w.tasks[task].sending then w.(tasks := w.tasks - {task}, clock := ev.at)
      else
        var cell := w.cells[w.tasks[task].lease];
        Released(w, task, cell.(entry := AfterWarmReturned(cell.entry)), ev.at)
  }

  /** A run: every event is enabled where it happens. */
  predicate IsRun(s: Settings, w: World, run: seq<Event>)
    decreases |run|
  {
    run == [] || (Enabled(w, run[0]) && IsRun(s, Step(s, w, run[0]), run[1..]))
  }

  function Exec(s: Settings, w: World, run: seq<Event>): World
    requires IsRun(s, w, run)
    decreases |run|
  {
    if run == [] then w else Exec(s, Step(s, w, run[0]), run[1..])
  }

  lemma {:induction false} ExecConcat(s: Settings, w: World, a: seq<Event>, b: seq<Event>)
    requires IsRun(s, w, a) && IsRun(s, Exec(s, w, a), b)
    ensures IsRun(s, w, a + b) && Exec(s, w, a + b) == Exec(s, Exec(s, w, a), b)
    decreases |a|
  {
    if a == [] {
      assert a + b == b;
    } else {
      assert (a + b)[0] == a[0] && (a + b)[1..] == a[1..] + b;
      ExecConcat(s, Step(s, w, a[0]), a[1..], b);
    }
  }

  lemma OneMoreEvent(s: Settings, w: World, run: seq<Event>, ev: Event, end: World)
    requires IsRun(s, w, run) && Exec(s, w, run) == end && Enabled(end, ev)
    ensures IsRun(s, w, run + [ev]) && Exec(s, w, run + [ev]) == Step(s, end, ev)
  {
    var last := [ev];
    assert last[1..] == [];
    assert IsRun(s, Step(s, end, ev), last[1..]) && Exec(s, Step(s, end, ev), last[1..]) == Step(s, end, ev);
    ExecConcat(s, w, run, last);
  }
}
