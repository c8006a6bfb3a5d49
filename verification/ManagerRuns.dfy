/** The objects follow the step system: every run of the protocol can be replayed on a LeaseManager, step by step, and
    what is proved about worlds holds of its leases. */
module ManagerRuns {
  import opened Pricing
  import opened Leases
  import opened History
  import opened LeaseManager
  import opened WarmProtocol
  import opened WarmInvariants

  function EntriesOf(w: World): map<LeaseId, Entry> {
    map id | id in w.cells :: w.cells[id].entry
  }

  /** The manager's leases, runtime records and fingerprint index are those of the world. */
  ghost predicate Matches(m: LeaseManager, w: World)
    reads m, m.AllObjects()
  {
    m.Valid() && m.byFingerprint == w.byFingerprint && m.Entries() == EntriesOf(w)
  }

  // -- what a step does to the entries ----------------------------------------

  function OperatedEntry(e: Entry, op: Operation, at: real): Entry
    requires op.Reprice? && op.pricing.Some? ==> ValidPricing(op.pricing.value)
  {
    match op
    case Arm => AfterArm(e)
    case Invalidate => AfterInvalidate(e)
    case Complete => AfterComplete(e)
    case TargetStarted(t) => AfterTargetStarted(e, t)
    case TargetFinished(t) => AfterTargetFinished(e, t)
    case RequestStart => AfterRequestStart(e, at)
    case RequestEnd(outcome) => AfterRequestEnd(e, outcome, at)
    case Reprice(prefix, pricing, fallback) => AfterReprice(e, prefix, pricing, fallback)
    case RefreshTtl(ttl) => AfterRefreshTtl(e, ttl)
  }

  /** The lease after an evaluation that may or may not have gone on to the executor. */
  function EvaluatedEntry(s: Settings, e: Entry, at: real, sendable: bool, lockIsIdle: bool): Entry {
    var d := DecideEvaluation(s, e, at);
    if d.verdict.Proceed? && lockIsIdle then AcquiredEntry(s, d.entry, d.verdict.generation, sendable) else d.entry
  }

  function AcquiredEntry(s: Settings, e: Entry, authorised: nat, sendable: bool): Entry {
    if LockedRefusal(s, e, authorised, sendable).Some? then e else AfterSend(e)
  }

  lemma OperateEntries(s: Settings, w: World, id: LeaseId, op: Operation, at: real)
    requires Enabled(w, Event(at, Operate(id, op)))
    ensures var w' := Step(s, w, Event(at, Operate(id, op)));
            && EntriesOf(w') == EntriesOf(w)[id := OperatedEntry(w.cells[id].entry, op, at)]
            && w'.byFingerprint == w.byFingerprint
  {
  }

  lemma EvaluateEntries(s: Settings, w: World, task: TaskId, id: LeaseId, sendable: bool, at: real)
    requires id in w.cells
    ensures var w' := Evaluating(s, w, at, task, id, sendable);
            var after := EvaluatedEntry(s, w.cells[id].entry, at, sendable, LockIsIdle(w, FingerprintOf(w, id)));
            EntriesOf(w') == EntriesOf(w)[id := after] && w'.byFingerprint == w.byFingerprint
  {
  }

  lemma AcquireEntries(s: Settings, w: World, task: TaskId, t: Task, sendable: bool)
    requires t.lease in w.cells
    ensures var w' := UnderLock(s, w, task, t, sendable);
            && EntriesOf(w') == EntriesOf(w)[t.lease := AcquiredEntry(s, w.cells[t.lease].entry, t.generation, sendable)]
            && w'.byFingerprint == w.byFingerprint
  {
  }

  lemma ReleaseEntries(w: World, task: TaskId, cell: Cell, at: real)
    requires task in w.tasks && w.tasks[task].lease in w.cells
    ensures var w' := Released(w, task, cell, at);
            EntriesOf(w') == EntriesOf(w)[w.tasks[task].lease := cell.entry] && w'.byFingerprint == w.byFingerprint
  {
  }

  lemma CreateEntries(w: World, newId: LeaseId, identity: Identity, ttl: real, at: real)
    requires newId !in w.cells
    ensures var w' := Created(w, newId, identity, ttl, at);
            && EntriesOf(w') == (if Existing(w, identity).Some? then EntriesOf(w)
                                 else AllSuperseded(EntriesOf(w), identity)[newId := NewEntry(identity, ttl)])
            && w'.byFingerprint == (if Existing(w, identity).Some? then w.byFingerprint
                                    else w.byFingerprint[identity.fingerprint := newId])
  {
  }

  // -- the steps on objects ---------------------------------------------------

  method Apply(m: LeaseManager, id: LeaseId, op: Operation, at: real)
    requires m.Valid() && id in m.leases && (op.Reprice? && op.pricing.Some? ==> ValidPricing(op.pricing.value))
    modifies m.Objects(id)
    ensures m.EntryOf(id) == OperatedEntry(old(m.EntryOf(id)), op, at)
  {
    var found: bool;
    match op
    case Arm => found := m.Arm(id);
    case Invalidate => found := m.Invalidate(id);
    case Complete => found := m.Complete(id);
    case TargetStarted(t) => found := m.TargetStarted(id, t);
    case TargetFinished(t) => found := m.TargetFinished(id, t);
    case RequestStart => found := m.BeforeNormalRequest(id, at);
    case RequestEnd(outcome) => found := m.AfterNormalRequest(id, outcome, at);
    case Reprice(prefix, pricing, fallback) => found := m.UpdateCostEstimates(id, prefix, pricing, fallback);
    case RefreshTtl(ttl) => found := m.RefreshTtl(id, ttl);
  }

  method Evaluate(m: LeaseManager, id: LeaseId, sendable: bool, lockIsIdle: bool, at: real)
    requires m.Valid() && id in m.leases
    modifies m.Objects(id)
    ensures m.EntryOf(id) == EvaluatedEntry(m.settings, old(m.EntryOf(id)), at, sendable, lockIsIdle)
  {
    var verdict := m.BeginEvaluation(id, at);
    if verdict.Proceed? && lockIsIdle {
      var _ := m.SendUnderLock(id, verdict.generation, sendable);
    }
  }

  /** The lease it concerns, after a step. */
  function StepEntry(s: Settings, w: World, ev: Event): Entry
    requires Enabled(w, ev) && !ev.action.FindOrCreate?
  {
    var e := w.cells[Concerned(w, ev)].entry;
    match ev.action
    case Operate(_, op) => OperatedEntry(e, op, ev.at)
    case Evaluate(_, id, sendable) => EvaluatedEntry(s, e, ev.at, sendable, LockIsIdle(w, FingerprintOf(w, id)))
    case Acquire(task, sendable) => AcquiredEntry(s, e, w.tasks[task].generation, sendable)
    case Finish(_, result) => AfterWarmResult(e, result, ev.at)
    case Cancel(task) => if w.tasks[task].sending then AfterWarmReturned(e) else e
  }

  lemma StepEntries(s: Settings, w: World, ev: Event)
    requires Enabled(w, ev) && !ev.action.FindOrCreate?
    ensures EntriesOf(Step(s, w, ev)) == EntriesOf(w)[Concerned(w, ev) := StepEntry(s, w, ev)]
    ensures Step(s, w, ev).byFingerprint == w.byFingerprint
  {
    var id := Concerned(w, ev);
    match ev.action
    case Operate(_, op) => OperateEntries(s, w, id, op, ev.at);
    case Evaluate(task, _, sendable) => EvaluateEntries(s, w, task, id, sendable, ev.at);
    case Acquire(task, sendable) => AcquireEntries(s, w.(clock := ev.at), task, w.tasks[task], sendable);
    case Finish(task, result) => ReleaseEntries(w, task, Finished(w.cells[id], result, ev.at), ev.at);
    case Cancel(task) =>
      if w.tasks[task].sending {
        ReleaseEntries(w, task, w.cells[id].(entry := AfterWarmReturned(w.cells[id].entry)), ev.at);
      }
  }

  /** One step on the lease it concerns. */
  method OneLease(m: LeaseManager, w: World, ev: Event) returns (id: LeaseId)
    requires Matches(m, w) && Enabled(w, ev) && !ev.action.FindOrCreate?
    modifies m.Objects(Concerned(w, ev))
    ensures id == Concerned(w, ev) && m.Valid() && id in m.leases
    ensures m.EntryOf(id) == StepEntry(m.settings, w, ev)
  {
    id := Concerned(w, ev);
    assert id in m.Entries() && m.EntryOf(id) == w.cells[id].entry;
    match ev.action
    case Operate(_, op) =>
      Apply(m, id, op, ev.at);
    case Evaluate(_, _, sendable) =>
      Evaluate(m, id, sendable, LockIsIdle(w, FingerprintOf(w, id)), ev.at);
    case Acquire(task, sendable) =>
      var _ := m.SendUnderLock(id, w.tasks[task].generation, sendable);
    case Finish(_, result) =>
      var _ := m.ApplyWarmResult(id, result, ev.at);
    case Cancel(task) =>
      if w.tasks[task].sending {
        m.ReturnWarm(id);
      }
  }

  /** The lease a step is about. */
  function Concerned(w: World, ev: Event): LeaseId
    requires Enabled(w, ev) && !ev.action.FindOrCreate?
  {
    match ev.action
    case Operate(id, _) => id
    case Evaluate(_, id, _) => id
    case Acquire(task, _) => w.tasks[task].lease
    case Finish(task, _) => w.tasks[task].lease
    case Cancel(task) => w.tasks[task].lease
  }

  method Drive(m: LeaseManager, w: World, ev: Event)
    requires Matches(m, w) && Enabled(w, ev)
    modifies m, m.AllObjects()
    ensures Matches(m, Step(m.settings, w, ev)) && fresh(m.AllObjects() - old(m.AllObjects()))
  {
    match ev.action
    case FindOrCreate(newId, identity, ttl) =>
      Creates(m, w, newId, identity, ttl, ev.at);
    case _ =>
      Steps(m, w, ev);
  }

  method Steps(m: LeaseManager, w: World, ev: Event)
    requires Matches(m, w) && Enabled(w, ev) && !ev.action.FindOrCreate?
    modifies m.Objects(Concerned(w, ev))
    ensures Matches(m, Step(m.settings, w, ev)) && m.AllObjects() == old(m.AllObjects())
  {
    StepEntries(m.settings, w, ev);
    var id := OneLease(m, w, ev);
    m.OnlyOneChanged(id);
  }

  method Creates(m: LeaseManager, w: World, newId: LeaseId, identity: Identity, ttl: real, at: real)
    requires Matches(m, w) && newId !in w.cells
    modifies m, m.AllObjects()
    ensures Matches(m, Created(w.(clock := at), newId, identity, ttl, at)) && fresh(m.AllObjects() - old(m.AllObjects()))
  {
    CreateEntries(w.(clock := at), newId, identity, ttl, at);
    KnownIsExisting(m, w, identity);
    assert newId !in m.Entries();
    var _ := m.FindOrCreate(newId, identity, ttl);
  }

  lemma KnownIsExisting(m: LeaseManager, w: World, identity: Identity)
    requires Matches(m, w)
    ensures m.Known(identity) == Existing(w, identity) == Existing(w.(clock := w.clock), identity)
  {
    if identity.fingerprint in m.byFingerprint {
      var id := m.byFingerprint[identity.fingerprint];
      assert id in m.Entries() && m.EntryOf(id) == w.cells[id].entry;
    }
  }

  /** The world after the first k events of a run. */
  ghost predicate IsAt(settings: Settings, run: seq<Event>, k: nat, w: World) {
    k <= |run| && IsRun(settings, START, run) && IsRun(settings, w, run[k..])
    && Exec(settings, w, run[k..]) == Exec(settings, START, run)
  }

  lemma NextEvent(settings: Settings, run: seq<Event>, k: nat, w: World)
    requires IsAt(settings, run, k, w)
    ensures k < |run| ==> Enabled(w, run[k]) && IsAt(settings, run, k + 1, Step(settings, w, run[k]))
    ensures k == |run| ==> w == Exec(settings, START, run)
  {
    if k < |run| {
      assert run[k..][1..] == run[k + 1..];
    }
  }

  /** The objects after the first k events of a run. */
  ghost predicate Follows(m: LeaseManager, run: seq<Event>, k: nat, w: World)
    reads m, m.AllObjects()
  {
    Matches(m, w) && IsAt(m.settings, run, k, w)
  }

  method Follow(m: LeaseManager, run: seq<Event>, k: nat, w: World) returns (next: World)
    requires Follows(m, run, k, w) && k < |run|
    modifies m, m.AllObjects()
    ensures Follows(m, run, k + 1, next) && fresh(m.AllObjects() - old(m.AllObjects()))
  {
    NextEvent(m.settings, run, k, w);
    Drive(m, w, run[k]);
    next := Step(m.settings, w, run[k]);
  }

  method FollowAll(m: LeaseManager, run: seq<Event>) returns (w: World)
    requires Follows(m, run, 0, START)
    modifies m, m.AllObjects()
    ensures Follows(m, run, |run|, w)
  {
    w := START;
    for k := 0 to |run|
      invariant Follows(m, run, k, w) && fresh(m.AllObjects() - old(m.AllObjects()))
    {
      w := Follow(m, run, k, w);
    }
  }

  method Empty(settings: Settings, run: seq<Event>) returns (m: LeaseManager)
    requires IsRun(settings, START, run)
    ensures fresh(m) && fresh(m.AllObjects()) && m.settings == settings && Follows(m, run, 0, START)
  {
    m := new LeaseManager(settings);
    assert m.Entries() == EntriesOf(START) && run[0..] == run;
  }

  /** Replays any run of the protocol on objects: at its end the manager is in the state the protocol says. */
  method Replay(settings: Settings, run: seq<Event>) returns (m: LeaseManager, w: World)
    requires IsRun(settings, START, run)
    ensures m.settings == settings && w == Exec(settings, START, run) && Matches(m, w)
  {
    m := Empty(settings, run);
    w := FollowAll(m, run);
    NextEvent(settings, run, |run|, w);
  }

  /** So the guarantees hold of the objects: after any replayed run, a lease's recorded touch is that of its history, its
      breaker is open exactly after two paid misses in a row, and its generation counts its real requests. */
  lemma ObjectsKeepTheGuarantees(m: LeaseManager, w: World, run: seq<Event>, id: LeaseId)
    requires IsRun(m.settings, START, run) && w == Exec(m.settings, START, run) && Matches(m, w) && id in m.leases
    ensures id in w.cells
    ensures var h := w.cells[id].history;
            && m.leases[id].lastCacheTouchAt == LastTouch(h) && m.leases[id].lastConfirmedHitAt == LastHit(h)
            && m.leases[id].generation == Starts(h) && m.leases[id].warmCost == TotalPaid(h)
            && (m.runtimes[id].circuitOpen <==> MissesSinceEvidence(h) == 2) && MissesSinceEvidence(h) <= 2
            && (m.runtimes[id].realRequestActive <==> LastMarkIsStart(h))
  {
    assert id in m.Entries() && m.EntryOf(id) == w.cells[id].entry;
    RunKeepsInv(m.settings, START, run);
    assert CellInv(w.cells[id]);
  }
}
