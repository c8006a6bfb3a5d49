/** The keep-warm guarantee on the real protocol: one lease of many, watched through a run of the manager. */
module KeepWarmRuns {
  import opened Wrappers
  import opened Leases
  import opened FakeProvider
  import opened KeepWarm
  import opened WarmProtocol
  import opened WarmInvariants
  import opened WarmSpending
  import opened LiveIdentity

  /** What the watcher knows: the provider's cache, when the last evaluation of the lease was over, and when its warm in
      flight was sent. */
  datatype Watch = Watch(cache: Cache, idleSince: real, sentAt: Option<real>)

  /** An event, and when the provider saw the warm it answers. */
  datatype Seen = Seen(ev: Event, served: real)

  predicate EvaluatesIt(w: World, ev: Event, id: LeaseId) {
    ev.action.Evaluate? && ev.action.id == id
  }

  predicate AnswersIt(w: World, ev: Event, id: LeaseId) {
    ev.action.Finish? && ev.action.task in w.tasks && w.tasks[ev.action.task].lease == id
  }

  predicate OperatesOnIt(ev: Event, id: LeaseId) {
    ev.action.Operate? && ev.action.id == id
  }

  /** Targets may come, and go while some are left; prices and the ttl estimate may change. */
  predicate Harmless(e: Entry, op: Operation) {
    match op
    case Arm => true
    case TargetStarted(_) => true
    case TargetFinished(t) => e.lease.activeTargets - {t} != {}
    case Reprice(_, _, _) => true
    case RefreshTtl(_) => true
    case _ => false
  }

  /** The event does the lease no harm, is not about its fingerprint, and does not supersede it. */
  predicate LeavesAlone(w: World, ev: Event, id: LeaseId)
    requires id in w.cells
  {
    match ev.action
    case Operate(x, op) => x == id ==> Harmless(w.cells[id].entry, op)
    case FindOrCreate(_, identity, _) =>
      identity.fingerprint != WarmProtocol.FingerprintOf(w, id) && !Superseded(w.cells[id].entry.lease, identity)
    case Cancel(task) => task in w.tasks ==> w.tasks[task].lease != id
    case _ => true
  }

  /** One scheduler evaluates the lease at most `gap` after the last time, with the gate open when it is due; the simulated
      provider answers within `latency`; and the ttl estimate stays sustainable. All other leases are free. */
  predicate Permitted(s: Settings, config: ProviderConfig, w: World, watch: Watch, seen: Seen, id: LeaseId, gap: real, latency: real)
    requires id in w.cells
  {
    var ev, lease := seen.ev, w.cells[id].entry.lease;
    && Enabled(w, ev) && OneScheduler(w, ev) && LeavesAlone(w, ev, id)
    && (EvaluatesIt(w, ev, id) ==>
          ev.action.sendable && watch.idleSince <= ev.at <= watch.idleSince + gap && GateOpen(s, lease, ev.at))
    && (OperatesOnIt(ev, id) ==>
          Sustainable(s, config, Operated(w.cells[id], ev.action.op, ev.at).entry.lease, gap, latency))
    && (AnswersIt(w, ev, id) && watch.sentAt.Some? ==>
          && watch.sentAt.value <= seen.served <= ev.at <= watch.sentAt.value + latency
          && ev.action.result == AnswerOf(watch.cache, WarmProtocol.FingerprintOf(w, id), seen.served, ev.action.result.cost))
  }

  function AnswerOf(cache: Cache, fp: Fingerprint, served: real, cost: real): WarmResult {
    var outcome := OutcomeOf(cache, fp, served);
    WarmResult(Some(outcome), outcome == MissRebuilt, cost)
  }

  function NextWatch(s: Settings, config: ProviderConfig, w: World, watch: Watch, seen: Seen, id: LeaseId): Watch
    requires id in w.cells && Enabled(w, seen.ev)
  {
    var ev := seen.ev;
    if EvaluatesIt(w, ev, id) then
      if ev.action.task in Step(s, w, ev).tasks
      then watch.(sentAt := Some(ev.at))
      else watch.(idleSince := ev.at)
    else if AnswersIt(w, ev, id) then
      Watch(AfterRequest(config, watch.cache, WarmProtocol.FingerprintOf(w, id), seen.served), ev.at, None)
    else watch
  }

  // -- invariant --------------------------------------------------------------

  predicate Unshared(w: World, id: LeaseId)
    requires id in w.cells
  {
    forall x | x in w.cells && x != id :: WarmProtocol.FingerprintOf(w, x) != WarmProtocol.FingerprintOf(w, id)
  }

  /** A lease whose warm is at the executor. */
  predicate Flying(e: Entry) {
    && e.lease.activeTargets != {} && e.lease.state != Invalidated && e.lease.lastCacheTouchAt.Some?
    && !e.runtime.realRequestActive && !e.runtime.circuitOpen && e.runtime.scheduledGeneration.None?
  }

  /** What the lease is in the middle of. */
  predicate Phase(config: ProviderConfig, e: Entry, watch: Watch, gap: real, latency: real) {
    match watch.sentAt
    case None => InTime(config, Kept(e, watch.cache, watch.idleSince), gap, latency)
    case Some(sent) =>
      && Flying(e) && e.lease.identity.fingerprint in watch.cache
      && watch.idleSince <= sent <= watch.idleSince + gap
      && watch.idleSince + gap + latency < watch.cache[e.lease.identity.fingerprint]
  }

  predicate WatchInv(s: Settings, config: ProviderConfig, w: World, watch: Watch, id: LeaseId, gap: real, latency: real) {
    && Inv(w) && NobodyQueues(w) && id in w.cells && Unshared(w, id)
    && Sustainable(s, config, w.cells[id].entry.lease, gap, latency)
    && Phase(config, w.cells[id].entry, watch, gap, latency)
    && (forall a, b | a in w.tasks && b in w.tasks :: a == b)
    && (watch.sentAt.None? ==> forall t | t in w.tasks :: w.tasks[t].lease != id)
    && (watch.sentAt.Some? ==> exists t :: t in w.tasks && w.tasks[t].lease == id)
  }

  // -- events about other leases ----------------------------------------------

  predicate AboutAnother(w: World, ev: Event, id: LeaseId)
    requires id in w.cells
  {
    LeavesAlone(w, ev, id) && !EvaluatesIt(w, ev, id) && !AnswersIt(w, ev, id) && !OperatesOnIt(ev, id)
  }

  lemma OthersLeaveItAlone(s: Settings, w: World, ev: Event, id: LeaseId)
    requires Enabled(w, ev) && NobodyQueues(w) && id in w.cells && AboutAnother(w, ev, id)
    ensures id in Step(s, w, ev).cells && Step(s, w, ev).cells[id] == w.cells[id]
  {
    if ev.action.Evaluate? {
      EvaluatingIsLocal(s, w, ev.at, ev.action.task, ev.action.id, ev.action.sendable, id);
    }
  }

  lemma OthersKeepItsTask(s: Settings, w: World, ev: Event, id: LeaseId, t: TaskId)
    requires Enabled(w, ev) && NobodyQueues(w) && id in w.cells
    requires LeavesAlone(w, ev, id) && !EvaluatesIt(w, ev, id) && !AnswersIt(w, ev, id)
    ensures t in w.tasks && w.tasks[t].lease == id <==> t in Step(s, w, ev).tasks && Step(s, w, ev).tasks[t].lease == id
  {
  }

  lemma UnsharedStays(s: Settings, w: World, ev: Event, id: LeaseId)
    requires Enabled(w, ev) && id in w.cells && Unshared(w, id) && LeavesAlone(w, ev, id)
    ensures id in Step(s, w, ev).cells && Unshared(Step(s, w, ev), id)
  {
    var w' := Step(s, w, ev);
    IdentityIsFixed(s, w, ev, id);
    forall x | x in w'.cells && x != id
      ensures WarmProtocol.FingerprintOf(w', x) != WarmProtocol.FingerprintOf(w', id)
    {
      if x in w.cells {
        IdentityIsFixed(s, w, ev, x);
      } else {
        NewLeaseHasItsIdentity(s, w, ev, x);
      }
    }
  }

  lemma NewLeaseHasItsIdentity(s: Settings, w: World, ev: Event, x: LeaseId)
    requires Enabled(w, ev) && x in Step(s, w, ev).cells && x !in w.cells
    ensures ev.action.FindOrCreate? && Step(s, w, ev).cells[x].entry.lease.identity == ev.action.identity
  {
    if !ev.action.FindOrCreate? {
      OnlyCreationAddsLeases(s, w, ev, x);
    }
  }

  // -- one event --------------------------------------------------------------

  /** What an event does to the watched lease and to the provider. */
  lemma PhaseMoves(s: Settings, config: ProviderConfig, w: World, watch: Watch, seen: Seen, id: LeaseId, gap: real, latency: real)
    requires WatchInv(s, config, w, watch, id, gap, latency) && Permitted(s, config, w, watch, seen, id, gap, latency)
    ensures var w', watch' := Step(s, w, seen.ev), NextWatch(s, config, w, watch, seen, id);
            && id in w'.cells
            && Sustainable(s, config, w'.cells[id].entry.lease, gap, latency)
            && Phase(config, w'.cells[id].entry, watch', gap, latency)
    ensures AnswersIt(w, seen.ev, id) ==> seen.ev.action.result.outcome == Some(ConfirmedHit)
  {
    if EvaluatesIt(w, seen.ev, id) {
      EvaluationMoves(s, config, w, watch, seen, id, gap, latency);
    } else if AnswersIt(w, seen.ev, id) {
      AnswerMoves(s, config, w, watch, seen, id, gap, latency);
    } else if OperatesOnIt(seen.ev, id) {
      HarmlessKeepsPhase(config, w.cells[id], seen.ev.action.op, seen.ev.at, watch, gap, latency);
    } else {
      OthersLeaveItAlone(s, w, seen.ev, id);
    }
  }

  lemma HarmlessKeepsPhase(config: ProviderConfig, c: Cell, op: Operation, at: real, watch: Watch, gap: real, latency: real)
    requires op.Reprice? && op.pricing.Some? ==> Pricing.ValidPricing(op.pricing.value)
    requires Harmless(c.entry, op) && Phase(config, c.entry, watch, gap, latency)
    ensures Phase(config, Operated(c, op, at).entry, watch, gap, latency)
  {
  }

  /** An evaluation of the lease, with nobody else at work, is one scheduler tick up to the executor. */
  lemma EvaluationIsATick(s: Settings, w: World, at: real, task: TaskId, id: LeaseId)
    requires id in w.cells && w.tasks == map[] && w.locks == map[]
    ensures var w', e := Evaluating(s, w, at, task, id, true), w.cells[id].entry;
            var d := DecideEvaluation(s, e, at);
            var sends := d.verdict.Proceed? && LockedRefusal(s, d.entry, d.verdict.generation, true) == None;
            && id in w'.cells && w'.cells[id].entry == (if sends then AfterSend(d.entry) else d.entry)
            && (task in w'.tasks <==> sends)
  {
  }

  lemma EvaluationMoves(s: Settings, config: ProviderConfig, w: World, watch: Watch, seen: Seen, id: LeaseId, gap: real, latency: real)
    requires WatchInv(s, config, w, watch, id, gap, latency) && Permitted(s, config, w, watch, seen, id, gap, latency)
    requires EvaluatesIt(w, seen.ev, id)
    ensures var w', watch' := Step(s, w, seen.ev), NextWatch(s, config, w, watch, seen, id);
            && id in w'.cells
            && Sustainable(s, config, w'.cells[id].entry.lease, gap, latency)
            && Phase(config, w'.cells[id].entry, watch', gap, latency)
  {
    NoTasksNoLocks(w);
    EvaluationIsATick(s, w, seen.ev.at, seen.ev.action.task, id);
    assert watch.sentAt.None?;
    PhaseAfterEvaluation(s, config, w.cells[id].entry, watch, seen.ev.at, gap, latency);
  }

  lemma PhaseAfterEvaluation(s: Settings, config: ProviderConfig, e: Entry, watch: Watch, at: real, gap: real, latency: real)
    requires Sustainable(s, config, e.lease, gap, latency) && watch.sentAt.None? && Phase(config, e, watch, gap, latency)
    requires watch.idleSince <= at <= watch.idleSince + gap && GateOpen(s, e.lease, at)
    ensures var d := DecideEvaluation(s, e, at);
            if d.verdict.Proceed? && LockedRefusal(s, d.entry, d.verdict.generation, true) == None then
              && Sustainable(s, config, AfterSend(d.entry).lease, gap, latency)
              && Phase(config, AfterSend(d.entry), watch.(sentAt := Some(at)), gap, latency)
            else
              && Sustainable(s, config, d.entry.lease, gap, latency)
              && Phase(config, d.entry, watch.(idleSince := at), gap, latency)
  {
    var k := Kept(e, watch.cache, watch.idleSince);
    TickStaysInTime(s, config, k, Tick(at, at, at, 0.0), gap, latency);
    DecidingKeepsTheWait(s, e, at);
  }

  lemma DecidingKeepsTheWait(s: Settings, e: Entry, at: real)
    ensures var d := DecideEvaluation(s, e, at);
            Wait(s, d.entry.lease) == Wait(s, e.lease) == Wait(s, AfterSend(d.entry).lease)
  {
    var d := DecideEvaluation(s, e, at);
    SameTtlSameWait(s, e.lease, d.entry.lease);
    SameTtlSameWait(s, e.lease, AfterSend(d.entry).lease);
  }

  lemma AnswerMoves(s: Settings, config: ProviderConfig, w: World, watch: Watch, seen: Seen, id: LeaseId, gap: real, latency: real)
    requires WatchInv(s, config, w, watch, id, gap, latency) && Permitted(s, config, w, watch, seen, id, gap, latency)
    requires AnswersIt(w, seen.ev, id)
    ensures var w', watch' := Step(s, w, seen.ev), NextWatch(s, config, w, watch, seen, id);
            && id in w'.cells
            && Sustainable(s, config, w'.cells[id].entry.lease, gap, latency)
            && Phase(config, w'.cells[id].entry, watch', gap, latency)
    ensures seen.ev.action.result.outcome == Some(ConfirmedHit)
  {
    var e, result := w.cells[id].entry, seen.ev.action.result;
    AnswerLands(s, config, e, watch, seen.served, seen.ev.at, result.cost, gap, latency);
    assert Step(s, w, seen.ev).cells[id].entry == AfterWarmResult(e, result, seen.ev.at);
  }

  /** The answer finds the entry alive, and the refreshed entry outlives the next evaluation. */
  lemma AnswerLands(s: Settings, config: ProviderConfig, e: Entry, watch: Watch, served: real, at: real, cost: real, gap: real, latency: real)
    requires Sustainable(s, config, e.lease, gap, latency) && watch.sentAt.Some? && Phase(config, e, watch, gap, latency)
    requires watch.sentAt.value <= served <= at <= watch.sentAt.value + latency
    ensures var fp := e.lease.identity.fingerprint;
            var result := AnswerOf(watch.cache, fp, served, cost);
            && result.outcome == Some(ConfirmedHit)
            && Sustainable(s, config, AfterWarmResult(e, result, at).lease, gap, latency)
            && Phase(config, AfterWarmResult(e, result, at), Watch(AfterRequest(config, watch.cache, fp, served), at, None), gap, latency)
  {
    var result := AnswerOf(watch.cache, e.lease.identity.fingerprint, served, cost);
    SameTtlSameWait(s, e.lease, AfterWarmResult(e, result, at).lease);
  }

  lemma WatchedStep(s: Settings, config: ProviderConfig, w: World, watch: Watch, seen: Seen, id: LeaseId, gap: real, latency: real)
    requires WatchInv(s, config, w, watch, id, gap, latency) && Permitted(s, config, w, watch, seen, id, gap, latency)
    ensures WatchInv(s, config, Step(s, w, seen.ev), NextWatch(s, config, w, watch, seen, id), id, gap, latency)
    ensures AnswersIt(w, seen.ev, id) ==> seen.ev.action.result.outcome == Some(ConfirmedHit)
  {
    PhaseMoves(s, config, w, watch, seen, id, gap, latency);
    StepKeepsInv(s, w, seen.ev);
    OneSchedulerNeverQueues(s, w, seen.ev);
    UnsharedStays(s, w, seen.ev, id);
    TasksStayApart(s, config, w, watch, seen, id, gap, latency);
  }

  lemma TasksStayApart(s: Settings, config: ProviderConfig, w: World, watch: Watch, seen: Seen, id: LeaseId, gap: real, latency: real)
    requires WatchInv(s, config, w, watch, id, gap, latency) && Permitted(s, config, w, watch, seen, id, gap, latency)
    ensures var w', watch' := Step(s, w, seen.ev), NextWatch(s, config, w, watch, seen, id);
            && (forall a, b | a in w'.tasks && b in w'.tasks :: a == b)
            && (watch'.sentAt.None? ==> forall t | t in w'.tasks :: w'.tasks[t].lease != id)
            && (watch'.sentAt.Some? ==> exists t :: t in w'.tasks && w'.tasks[t].lease == id)
  {
    var ev := seen.ev;
    AtMostOneTask(s, w, ev);
    if EvaluatesIt(w, ev, id) {
      NoTasksNoLocks(w);
      EvaluationIsATick(s, w, ev.at, ev.action.task, id);
      TaskOfEvaluation(s, w, ev.at, ev.action.task, id);
    } else if !AnswersIt(w, ev, id) {
      forall t
        ensures t in w.tasks && w.tasks[t].lease == id <==> t in Step(s, w, ev).tasks && Step(s, w, ev).tasks[t].lease == id
      {
        OthersKeepItsTask(s, w, ev, id, t);
      }
    }
  }

  lemma TaskOfEvaluation(s: Settings, w: World, at: real, task: TaskId, id: LeaseId)
    requires id in w.cells && w.tasks == map[] && w.locks == map[]
    ensures var w' := Evaluating(s, w, at, task, id, true);
            forall t | t in w'.tasks :: t == task && w'.tasks[t].lease == id
  {
  }

  // -- whole runs -------------------------------------------------------------

  predicate WatchedRun(s: Settings, config: ProviderConfig, w: World, watch: Watch, run: seq<Seen>, id: LeaseId, gap: real, latency: real)
    decreases |run|
  {
    id in w.cells &&
    (run == [] ||
     (&& Permitted(s, config, w, watch, run[0], id, gap, latency)
      && WatchedRun(s, config, Step(s, w, run[0].ev), NextWatch(s, config, w, watch, run[0], id), run[1..], id, gap, latency)))
  }

  /** At every moment of the run: every answer to a warm of the lease is a confirmed hit, its breaker is closed, and while
      no warm is on its way the provider's entry is alive at the latest moment the next evaluation can start. */
  predicate NeverLost(s: Settings, config: ProviderConfig, w: World, watch: Watch, run: seq<Seen>, id: LeaseId, gap: real, latency: real)
    requires WatchedRun(s, config, w, watch, run, id, gap, latency)
    decreases |run|
  {
    && !w.cells[id].entry.runtime.circuitOpen
    && (watch.sentAt.None? ==> IsCached(watch.cache, WarmProtocol.FingerprintOf(w, id), watch.idleSince + gap))
    && (run != [] ==>
          && (AnswersIt(w, run[0].ev, id) ==> run[0].ev.action.result.outcome == Some(ConfirmedHit))
          && NeverLost(s, config, Step(s, w, run[0].ev), NextWatch(s, config, w, watch, run[0], id), run[1..], id, gap, latency))
  }

  /** One lease among any others, under one scheduler: in every run of the manager without real requests on it that leaves its
      fingerprint to the scheduler, however long and whatever happens to the other leases, its cache entry is never lost. */
  lemma {:induction false} WarmForeverAmongOthers(
      s: Settings, config: ProviderConfig, w: World, watch: Watch, run: seq<Seen>, id: LeaseId, gap: real, latency: real)
    requires WatchInv(s, config, w, watch, id, gap, latency)
    requires WatchedRun(s, config, w, watch, run, id, gap, latency)
    ensures NeverLost(s, config, w, watch, run, id, gap, latency)
    decreases |run|
  {
    if run != [] {
      WatchedStep(s, config, w, watch, run[0], id, gap, latency);
      WarmForeverAmongOthers(s, config, Step(s, w, run[0].ev), NextWatch(s, config, w, watch, run[0], id), run[1..], id, gap, latency);
    }
  }

  /** The guarantee starts in any reachable world at rest, from a touch of the lease the provider saw within the latency. */
  lemma WarmForeverFromReachable(
      s: Settings, config: ProviderConfig, w: World, cache: Cache, since: real, run: seq<Seen>, id: LeaseId, gap: real, latency: real)
    requires Reachable(s, w) && w.tasks == map[] && id in w.cells && Unshared(w, id)
    requires Sustainable(s, config, w.cells[id].entry.lease, gap, latency) && Watched(w.cells[id].entry)
    requires w.cells[id].entry.lease.lastCacheTouchAt == Some(since)
    requires WarmProtocol.FingerprintOf(w, id) in cache
             && since - latency + config.ttl <= cache[WarmProtocol.FingerprintOf(w, id)]
    requires Stale(w.cells[id].entry) ==> 2.0 * gap + 2.0 * latency < config.ttl
    requires WatchedRun(s, config, w, Watch(cache, since, None), run, id, gap, latency)
    ensures NeverLost(s, config, w, Watch(cache, since, None), run, id, gap, latency)
  {
    ReachableInv(s, w);
    JustTouchedIsInTime(s, config, Kept(w.cells[id].entry, cache, since), gap, latency);
    WarmForeverAmongOthers(s, config, w, Watch(cache, since, None), run, id, gap, latency);
  }
}
