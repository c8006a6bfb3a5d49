# CachePilot: a verified model of its cache-warming core

CachePilot sits between an agent and its model provider. While background work of a session is alive it replays the
session's last request ("a warm") shortly before the provider's prompt cache would expire, as long as that is cheaper
than rebuilding the cache. It learns each route's cache lifetime from what it observes, estimates survival curves from
the same observations, explains why a prompt stopped matching, and may pin a session to its previous route.

The project models that logic in Dafny and proves what holds over every run, every interleaving and every input.

| module (file) | what it holds |
|---|---|
| `Pricing`, `Economics` | token prices, the warm/stop decision and its budget |
| `Leases` | one lease as a value: every atomic piece of the lease manager as a function |
| `LeaseLaws` | what those pieces mean, on the fields of a lease: exactly when each answer is given |
| `LeaseManager`, `LeaseController` | the same pieces as the program runs them, on objects updated in place, proved equal to the functions |
| `History` | what happened to a lease, as an append-only history, and the questions asked of it |
| `WarmProtocol`, `WarmInvariants`, `WarmGuarantees` | all leases, suspended evaluations and fingerprint locks as a step system; its invariant; the guarantees |
| `ManagerRuns` | every run of the step system replayed on the objects, step by step |
| `WarmSpending` | spend bounds and termination under one scheduler |
| `LiveIdentity` | one live cache identity per session and provider: exactly when it holds |
| `LeaseRuns` | which leases a new identity leaves alive, and that the flags tell the truth, over every run |
| `FailingRuns` | runs in which a promise fails, and why each assumption is there |
| `FakeProvider`, `KeepWarm`, `KeepWarmRuns` | the simulated provider, and warming against it for ever: one lease, and one lease among any others in a run of the manager |
| `TtlProfiles`, `TtlLearning`, `LearnerTruth` | learned lifetime bounds, the tables they come from, and their truth against the simulator |
| `Observation` | the order in which a request reaches the tables, and what counts as evidence |
| `SurvivalSpec`, `SurvivalBounds`, `SurvivalEstimator`, `SurvivalCurve`, `ProfileCurve` | the product-limit curve without loops, its inequalities, the loop that computes it, its queries, and its agreement with the learner |
| `ChurnDiagnosis` (Churn.dfy), `ChurnLaws` | two diagnoses of a changed prompt, and exactly which is given |
| `Topology`, `TopologyLaws` | counters over all consecutive pairs of requests, and exactly what they count |
| `RouteAffinity`, `PinUse`, `PinRuns` | the pin registry, how often a pin is used, and that the controller's pins follow it |

Conventions. An evaluation of a lease is three atomic segments (decide; check under the lock and send; fold the answer
in), because the source awaits only at the fingerprint's lock and at the executor. The lock is taken without suspending
exactly when nobody holds or awaits it. The executor's answer, its cost, the clock and every scheduling choice are
arbitrary. `requires` clauses that speak of a run name the assumption the property needs. Each of these is shown to be
needed: one scheduler (`TwoSchedulersOverspend`), no overlap of real requests (`OverlappingRequestsLetAWarmThrough`,
`OverlapSharesAPin`), no invalidation (`InvalidationLetsAWarmThrough`), no disarming of invalidated leases and no queued
evaluations (`SwitchingBackBreaksIt`, `QueuedWarmRevives`), a clock that does not go back
(`LowerBoundFailsWhenTheClockGoesBack`).

## Where the code does less than its documentation says

Each of these follows the code: a lemma gives the failing run or input, and another says exactly when the promise holds,
in terms of the state before the step or of the events of the run.

- An invalidated lease is meant to stay dead. `disarm` has no guard, and a warm already queued on the lock is not
  checked again for invalidation, so it can come back (`SwitchingBackBreaksIt`, `QueuedWarmRevives`);
  `RevivedExactlyBy` says these are the only two ways.
- A session that switches identity and back is handed its old, invalidated lease, and can then have two live
  identities: `SwitchingBackBreaksIt`, and exactly when `StepKeepsOneLiveIdentityExactly`. A header of zero targets
  followed by a header of some is enough: `ZeroThenSomeRevivesExactlyWhenTargetsWereLeft`.
- A warm is meant not to be sent while a real request is in flight. `real_request_active` is a flag, not a counter, so
  of two overlapping requests the first to end lets a warm through (`OverlappingRequestsLetAWarmThrough`); and an
  invalidation clears it too (`InvalidationLetsAWarmThrough`). A warm that passes every other check is sent exactly when
  the latest start, end or invalidation on its lease is not a start: `EvaluationSendsExactly`, `AcquireSendsExactly`.
  Without overlap and invalidation none is in flight: `RealRequestsWin`.
- A request judged ROUTE_INSTABILITY is meant never to be evidence about lifetimes. That needs churn detection to be
  on: `InstabilityCanBeEvidenceWithoutChurnDetection`, and exactly when `SwitchedRequestIsCleanIff`.
- Against a provider that does not refresh on hits, learned upper bounds can fall below the true lifetime
  (`UpperBoundFailsWithoutRefresh`), exactly by a clean miss that follows a hit of its fingerprint by less than the
  lifetime (`UpperBoundHoldsExactly`); lower bounds stay true.
- The history sub-layers of a pair can be reported wrongly in two ways. They are called unchanged without evidence when
  the system prompt or the tools diverge first (`HistoryVerdictCanBeWrong`). And the churn row used may belong to another
  transition between the same two fingerprints, which leave the history out, so an unchanged history can be called
  changed (`RowOfAnotherTransitionMisleads`). For whatever row is used, `HistoryVerdictsAreSoundIff` says exactly when
  both verdicts are sound.
- A repeated transition is meant to be attributed by its last churn event. The store lists only its newest events, newest
  first, so the oldest one in that window is used: `NewestRowIsIgnored`, and exactly when it makes no difference
  `OldestRowIsUsed`.
- A route pin is meant to be used by one request. It is consumed when the next request ends, not when it is looked up,
  so overlapping requests share it (`OverlapSharesAPin`); `PinIsHandedOutExactly` and `PinIsSharedExactly` say when a
  lookup gets a pin, and when it gets one that somebody already had. The registry's generation-reset branch is dead
  code, because a lease's generation never falls.

## Model

| member | source | states |
|---|---|---|
| `Pricing.AvoidableLossIsTheRateDifference` | packages/core/src/cachepilot_core/pricing.py:39-92 | the loss a warm protects is the prefix times (write or input rate minus read rate), whatever the completion; it is positive iff there is a prefix and recreating it is dearer than reading it |
| `Pricing.WarmCostsOneTokenMoreThanCachedResume` | packages/core/src/cachepilot_core/leases.py:695-736 | the predicted cost of the bounded warm is a cached resume plus one output token |
| `Economics.GateAnswersExactly` | packages/core/src/cachepilot_core/economics.py:106-196 | on the fields of input and configuration, exactly when each of the five answers is given: WARM iff pricing is known, a resume is possible, the loss avoided is positive and worth the next warm plus margin, and total spend stays below the budget and leaves the savings asked for |
| `Economics.DecisionReportsExactly` | packages/core/src/cachepilot_core/economics.py:106-196 | the avoidable loss, expected value, budget and remaining budget a decision reports, whatever its action |
| `Economics.WarmLeavesValueAboveSpend` | packages/core/src/cachepilot_core/economics.py:106-196 | a WARM decision fits the next warm strictly inside the budget and leaves expected value strictly above total spend |
| `Economics.ShouldWarmIsMonotone` | packages/core/src/cachepilot_core/economics.py:106-196 | the gate is antitone in next and cumulative cost and monotone in avoidable loss and resume probability |
| `LeaseLaws.DeadlineIsTheLatestSafeInstant` | packages/core/src/cachepilot_core/leases.py:653-679 | without jitter the deadline is the greatest instant within warm_fraction of the lifetime, the minimum margin and the latency margin; jitter j puts it 1 + j times as far from the touch; none iff the cache was never touched |
| `Leases.DeadlineIsTouchPlusWait` | packages/core/src/cachepilot_core/leases.py:660-679 | jitter scales the wait, never the epoch: the deadline is the last touch plus the jittered wait |
| `Leases.DeadlineIsInsideTheTtl` | packages/core/src/cachepilot_core/leases.py:653-679 | if the lifetime covers the network margin and warm_fraction * (1 + jitter_fraction) <= 1, every deadline lies in [touch, touch + ttl] |
| `Leases.ResumeProbabilityIsBounded` | packages/core/src/cachepilot_core/leases.py:738-752 | the gate's probability is a probability, zero without targets and at most the larger configured one |
| `LeaseLaws.ResumeProbabilityExactly` | packages/core/src/cachepilot_core/leases.py:738-752 | zero without targets, the detached probability iff every target is detached, else the ordinary one |
| `LeaseLaws.GatePassesExactly` | packages/core/src/cachepilot_core/leases.py:754-804 | on the lease's own estimates, spend and targets: exactly when the gate lets its next warm through |
| `LeaseLaws.EvaluationAnswersExactly` | packages/core/src/cachepilot_core/leases.py:806-897 | exactly when each of the nine answers before the lock is given, and when the evaluation goes for the lock |
| `LeaseLaws.EvaluationLeavesExactly` | packages/core/src/cachepilot_core/leases.py:860-897 | what each answer leaves on lease and flags: a scheduled warm is recorded for the present generation, a due one uses the record up, an uneconomic one marks the lease, the others leave no trace |
| `LeaseLaws.LockAnswersExactly` | packages/core/src/cachepilot_core/leases.py:898-940 | exactly when each refusal under the lock is given, and when there is none |
| `LeaseLaws.WarmAnswersExactly` | packages/core/src/cachepilot_core/leases.py:954-1053 | the decision reported for a warm names its outcome, one to one |
| `LeaseLaws.CreationLeavesOrReplaces` | packages/core/src/cachepilot_core/leases.py:445-499 | a new lease is blank, and every earlier one is unchanged unless it was live with the same session, the same provider and another fingerprint; then it is invalidated with its three flags cleared and nothing else changed |
| `LeaseLaws.CompletingExactly` | packages/core/src/cachepilot_core/leases.py:531-543 | completing leaves no targets, no pending warm and an inactive lease, and touches nothing else |
| `LeaseLaws.RequestEndArmsExactly` | packages/core/src/cachepilot_core/leases.py:582-627 | the end of a request arms a live lease iff somebody waits for it and disarms it otherwise; a failed one, or one on a dead lease, changes the flag alone |
| `LeaseLaws.RepricingExactly` | packages/core/src/cachepilot_core/leases.py:695-736 | the three estimates are the prices of rebuilding the prefix, of reading it and of reading it with one output token; the fallback alone when pricing is unknown; no change without a prefix |
| `LeaseManager.LeaseManager.FindOrCreate` | packages/core/src/cachepilot_core/leases.py:411-499 | the indexed lease when it is this session's, even if invalidated; otherwise a new blank indexed lease, after exactly the live leases of its session and provider with another fingerprint were invalidated; every other lease unchanged |
| `LeaseManager.LeaseManager.InvalidateSuperseded` | packages/core/src/cachepilot_core/leases.py:448-461 | the loop invalidates exactly the leases of the session and provider with another fingerprint |
| `LeaseManager.LeaseManager.Invalidate` | packages/core/src/cachepilot_core/leases.py:517-529 | the lease is invalidated and its runtime flags are cleared |
| `LeaseManager.LeaseManager.Complete` | packages/core/src/cachepilot_core/leases.py:531-543 | targets cleared, pending warm cancelled, disarmed with no guard |
| `LeaseManager.LeaseManager.TargetStarted` | packages/core/src/cachepilot_core/leases.py:545-553 | the target is added; the first one arms |
| `LeaseManager.LeaseManager.TargetFinished` | packages/core/src/cachepilot_core/leases.py:555-566 | the target is removed; when none is left the lease is disarmed and its pending warm cancelled |
| `LeaseManager.LeaseManager.BeforeNormalRequest` | packages/core/src/cachepilot_core/leases.py:568-580 | a real request bumps the generation, raises the flag and cancels the pending warm |
| `LeaseManager.LeaseManager.AfterNormalRequest` | packages/core/src/cachepilot_core/leases.py:582-627 | a failed or invalidated end only drops the flag; otherwise the touch, the hit, the breaker and the arming are updated |
| `LeaseManager.LeaseManager.UpdateCostEstimates` | packages/core/src/cachepilot_core/leases.py:695-736 | the three cost estimates follow the new prefix, or only the fallback predictor when pricing is unknown |
| `LeaseManager.LeaseManager.BeginEvaluation` | packages/core/src/cachepilot_core/leases.py:806-897 | the decision cascade up to the lock, with the generation captured when the warm was scheduled |
| `LeaseManager.LeaseManager.SendUnderLock` | packages/core/src/cachepilot_core/leases.py:898-940 | the checks repeated under the lock; the lease is WARMING exactly when none refuses |
| `LeaseManager.LeaseManager.ApplyWarmResult` | packages/core/src/cachepilot_core/leases.py:954-1053 | the clean-up and the answer: cost, count, touch, hit, miss streak and breaker |
| `WarmInvariants.StepKeepsInv` | packages/core/src/cachepilot_core/leases.py:806-1053 | every step of every interleaving keeps the invariant tying leases, tasks, locks and histories together |
| `WarmInvariants.RunKeepsInv` | packages/core/src/cachepilot_core/leases.py:806-1053 | the invariant holds in every reachable state |
| `WarmGuarantees.MutualExclusionAndBreaker` | packages/core/src/cachepilot_core/leases.py:898-1016 | at most one warm per fingerprint is at the executor, across leases and queued evaluations; never more than two paid misses between two pieces of verified evidence; the breaker is open iff the streak is two |
| `WarmGuarantees.RealRequestsWin` | packages/core/src/cachepilot_core/leases.py:887-940 | when a warm reaches the executor no real request started since its generation was recorded, targets remain, the breaker is closed; none is in flight if requests never overlapped and the lease was never invalidated |
| `WarmGuarantees.EvaluationSendsExactly` | packages/core/src/cachepilot_core/leases.py:806-940 | an evaluation that finds the lock idle sends iff every other guard passes and the latest start, end or invalidation of a real request on the lease is not a start |
| `WarmGuarantees.AcquireSendsExactly` | packages/core/src/cachepilot_core/leases.py:898-940 | the same for a queued warm, of whose guards only those under the lock are asked again |
| `WarmGuarantees.TouchEvidence` | packages/core/src/cachepilot_core/leases.py:582-627 | the recorded touch is exactly the time of the latest fact that touched the cache, absent iff there was none; last hit <= last touch <= now |
| `ManagerRuns.Replay` | packages/core/src/cachepilot_core/leases.py:335-1085 | every run of the step system, replayed on the objects, ends with the manager in the state the protocol says |
| `ManagerRuns.Drive` | packages/core/src/cachepilot_core/leases.py:411-1053 | one step on the objects is one step of the protocol |
| `ManagerRuns.ObjectsKeepTheGuarantees` | packages/core/src/cachepilot_core/leases.py:568-1053 | after any replayed run the objects' touch, hit, generation, cost, breaker and request flag are those of their histories |
| `FailingRuns.OverlappingRequestsLetAWarmThrough` | packages/core/src/cachepilot_core/leases.py:577-604 | a concrete run: two overlapping requests, the first ends, a warm is sent while the second is in flight |
| `FailingRuns.InvalidationLetsAWarmThrough` | packages/core/src/cachepilot_core/leases.py:517-529 | a concrete run without overlap: an invalidation forgets the request in flight and a warm is sent beside it |
| `FailingRuns.QueuedWarmRevives` | packages/core/src/cachepilot_core/leases.py:898-940 | a concrete run: a warm queued on the lock brings an invalidated lease back |
| `FailingRuns.TwoSchedulersOverspend` | packages/core/src/cachepilot_core/leases.py:793-845 | a concrete run of two schedulers: 8 is spent under a budget of 5 although every warm costs what was predicted, and the termination bound fails |
| `WarmSpending.SpendStaysBelowTheLargestApproval` | packages/core/src/cachepilot_core/economics.py:145-174 | over any run of one scheduler, with re-pricing: if no warm exceeds its predictor by more than e, spend stays below the largest approved budget plus e |
| `WarmSpending.WarmingTerminates` | packages/core/src/cachepilot_core/leases.py:985-1016 | without real requests and with hits costing at least c: hits * c < budget ratio * larger probability * (cold - cached), and at most 2 * hits + 2 warms are paid |
| `WarmSpending.NewTaskWasApproved` | packages/core/src/cachepilot_core/leases.py:793-845 | every warm that starts was let through by the gate, with the budget it was approved under |
| `LiveIdentity.RevivedExactlyBy` | packages/core/src/cachepilot_core/leases.py:189-196 | an invalidated lease comes back iff it is disarmed or one of its queued warms is sent |
| `LiveIdentity.StepKeepsOneLiveIdentityExactly` | packages/core/src/cachepilot_core/leases.py:445-499 | a step keeps one live identity per session and provider iff it neither disarms nor sends a queued warm of a dead lease beside a live one of the same session and provider with another fingerprint |
| `LiveIdentity.OneSchedulerNeverQueues` | packages/core/src/cachepilot_core/leases.py:847-855 | with one sequential scheduler nobody ever queues on a lock |
| `LiveIdentity.OneLiveIdentityForever` | packages/core/src/cachepilot_core/leases.py:445-529 | over every run of one scheduler without disarming invalidated leases: one live identity, and invalidated leases stay invalidated |
| `LiveIdentity.OneLiveIdentityFromStart` | packages/core/src/cachepilot_core/leases.py:445-529 | the same from the empty manager |
| `LiveIdentity.RequestsDoNotRefreshInvalidated` | packages/core/src/cachepilot_core/leases.py:568-606 | a real request never re-arms or refreshes an invalidated lease |
| `LeaseRuns.CreatingExactly` | packages/core/src/cachepilot_core/leases.py:445-499 | the same for the step of the protocol, and that nothing else of the world but the index of the new fingerprint moves; a known lease is handed out and nothing happens |
| `LeaseRuns.DiesExactly` | packages/core/src/cachepilot_core/leases.py:448-461 | a live lease is invalidated by a step iff somebody invalidates it by name or its session creates a lease at the same provider with another fingerprint |
| `LeaseRuns.OthersNeverKill` | packages/core/src/cachepilot_core/leases.py:448-461 | over any run leases of different sessions or providers never invalidate one another |
| `LeaseRuns.FlagsTellTheTruth` | packages/core/src/cachepilot_core/leases.py:568-580 | in every reachable state: the start time is that of the latest real request, a pending warm is for the present generation of a live lease with targets, and WARMING or the warm flag means that a warm of the lease is at the executor |
| `FailingRuns.SwitchingBackBreaksIt` | packages/core/src/cachepilot_core/leases.py:445-447 | a concrete run: switching identity and back leaves two live identities |
| `LeaseController.DesiredHasCountMembers` | packages/relay/src/cachepilot_relay/lease_controller.py:341-355 | the synthetic target ids are distinct: a header of n means n targets |
| `LeaseController.SyncArmsOnFirstAndDisarmsOnLast` | packages/relay/src/cachepilot_relay/lease_controller.py:341-355 | one header arms on the first target, disarms on the last, and otherwise moves only the target set |
| `LeaseController.ZeroThenSomeRevivesExactlyWhenTargetsWereLeft` | packages/relay/src/cachepilot_relay/lease_controller.py:341-355 | zero then some revives an invalidated lease iff it still had targets |
| `LeaseController.LeaseController.SyncTargets` | packages/relay/src/cachepilot_relay/lease_controller.py:341-355 | walking both set differences in any order gives one result |
| `LeaseController.LeaseController.OnRequestStart` | packages/relay/src/cachepilot_relay/lease_controller.py:183-241 | find or create, prune, reconcile the targets, start the request; the whole manager afterwards, the other leases unchanged or superseded; every lease still carries exactly the targets of its last header |
| `LeaseController.LeaseController.OnRequestEnd` | packages/relay/src/cachepilot_relay/lease_controller.py:243-287 | outcome, prices, lifetime, then the pin, in this order; every lease still carries the targets of its last header |
| `LeaseController.ReportKeepsStep` | packages/relay/src/cachepilot_relay/lease_controller.py:243-287 | ending a request leaves every lease the targets of its last header |
| `LeaseController.ReportExactly` | packages/relay/src/cachepilot_relay/lease_controller.py:243-287 | what the end of a request leaves on its lease: touch, hit, breaker, the estimates of the tokens it used, the refreshed lifetime |
| `LeaseController.LeaseController.ActiveAffinityRoute` | packages/relay/src/cachepilot_relay/lease_controller.py:163-181 | the pinned route iff affinity is on, the lease is known and the pin may be served |
| `LeaseController.LeaseController.ReconcileAffinity` | packages/relay/src/cachepilot_relay/lease_controller.py:371-395 | a failure clears, a passed generation clears, fresh evidence sets; other leases' pins untouched |
| `LeaseController.PinNeedsEvidenceAndSavings` | packages/relay/src/cachepilot_relay/lease_controller.py:397-469 | a pin is set only after route instability, to the previous route, with known savings strictly above premium and margin |
| `LeaseController.PinIsWantedExactly` | packages/relay/src/cachepilot_relay/lease_controller.py:397-469 | a pin is set iff the fresh event says ROUTE_INSTABILITY with both routes named, the savings are known, and scaled by the clamped probability they exceed premium plus margin; it is the previous route for the estimated lifetime |
| `KeepWarm.TickStaysInTime` | packages/core/src/cachepilot_core/leases.py:827-845 | one scheduler tick with the gate open when a warm is due: a warm that is sent hits, and the next tick is in time again |
| `KeepWarm.WarmForever` | packages/core/src/cachepilot_core/leases.py:827-1010 | against a refresh-on-hit provider with lifetime above the longest wait plus a tick plus twice the latency: every warm hits, the breaker stays closed, the entry never expires |
| `KeepWarm.JustTouchedIsInTime` | packages/core/src/cachepilot_core/leases.py:660-679 | any watched lease just touched satisfies the start condition of the guarantee |
| `KeepWarmRuns.WarmForeverAmongOthers` | packages/core/src/cachepilot_core/leases.py:847-957 | the same in any run of the manager under one scheduler, with any other leases and whatever happens to them, and with targets, prices and a sustainable ttl estimate of the lease itself changing, as long as its fingerprint is left alone and the gate is open whenever it is due |
| `KeepWarmRuns.WarmForeverFromReachable` | packages/core/src/cachepilot_core/leases.py:847-957 | so from any reachable world at rest in which the lease was just touched |
| `FakeProvider.FakeProvider.Complete` | packages/core/src/cachepilot_core/fake_provider.py:100-148 | hit iff an unexpired entry exists; a miss writes it, a hit extends it only when configured |
| `TtlProfiles.TTLProfile.Observe` | packages/core/src/cachepilot_core/ttl.py:166-207 | bounds, count, confidence and estimate after one observation |
| `TtlProfiles.LearnedIsInsideTheInterval` | packages/core/src/cachepilot_core/ttl.py:149-164 | a learned answer lies inside the learned interval |
| `TtlProfiles.EstimateExactly` | packages/core/src/cachepilot_core/ttl.py:149-164 | with an upper bound U and a lower bound L (0 if absent) the estimate is the point with 20 * (estimate - L) = 7 * (U - L); without U the larger of hint and L; absent iff all three are |
| `TtlProfiles.ResolvesExactly` | packages/core/src/cachepilot_core/ttl.py:400-454 | the whole hierarchy: forced, else learned iff an estimate exists, confidence >= 0.7 and samples suffice, else a positive hint, else the default; with the lifetime and confidence of each |
| `TtlProfiles.ConfidenceMovesExactly` | packages/core/src/cachepilot_core/ttl.py:166-209 | in hundredths within [5, 95]: a consistent hit earns 5, a consistent miss 2, an unverified or contradictory observation costs 5, anything else nothing |
| `TtlProfiles.JoinKeyIsInjective` | packages/core/src/cachepilot_core/ttl.py:73-102 | the profile key is unambiguous on pipe-free components with an absent or non-empty route |
| `TtlProfiles.EmptyRouteCollides` | packages/core/src/cachepilot_core/ttl.py:73-86 | an absent and an empty route share a key |
| `TtlProfiles.ContradictionIsAbsorbing` | packages/core/src/cachepilot_core/ttl.py:186-207 | lower > upper survives every observation and restart, and each further hit or miss costs confidence |
| `TtlProfiles.ContradictoryProfileIsNeverTrustedAgain` | packages/core/src/cachepilot_core/ttl.py:434-447 | any profile that evolved into a contradiction is never trusted again after five more verified observations, whatever else happens |
| `TtlProfiles.EvolvingKeepsEarned` | packages/core/src/cachepilot_core/ttl.py:186-207 | a contradictory profile never has more confidence than the ceiling less one step |
| `TtlProfiles.TrustIsLostAtTheFifth` | packages/core/src/cachepilot_core/ttl.py:434-447 | five is the least such number: a profile that nine hits and a miss produce is trusted after n more hits iff n < 5 |
| `TtlLearning.TTLLearner.Learn` | packages/core/src/cachepilot_core/ttl.py:297-363 | the observation row and the profile of its route after one observation, and the profile returned |
| `TtlLearning.TelemetryStore.UpsertProfile` | packages/core/src/cachepilot_core/storage.py:1021-1068 | insert or replace under the key; the identity columns of the first insert stay |
| `TtlLearning.ProfileTableIsAViewOfTheLog` | packages/core/src/cachepilot_core/ttl.py:327-363 | after any sequence of observations and churn: lower, upper, sample count and estimate are max-hit, min-miss, count and estimate of the clean rows of the identity |
| `TtlLearning.NewRowExactly` | packages/core/src/cachepilot_core/ttl.py:297-326 | every observation appends one row; its idle age is the time since the latest row of its fingerprint when positive, and it is clean iff it pairs with that row: same route, no churn of the fingerprint in between |
| `TtlLearning.LearningExactly` | packages/core/src/cachepilot_core/ttl.py:327-363 | the profile of the key moves by the observation iff the row is clean, is restarted at confidence 0.5 iff it exists and the route moved, and is untouched otherwise; other keys are untouched |
| `TtlLearning.UpsertingExactly` | packages/core/src/cachepilot_core/storage.py:1023-1068 | an upsert replaces every column but the identity of a row that was there, and no other row |
| `TtlLearning.LearnedEstimateExactly` | packages/core/src/cachepilot_core/ttl.py:149-164 | over any run: with H the greatest clean hit age (0 if none) and M the least clean miss age, 20 * (estimate - H) = 7 * (M - H); without M it is H; absent iff both are |
| `TtlLearning.BoundsAreExtremes` | packages/core/src/cachepilot_core/storage.py:1163-1186 | the two summaries of the log really are the greatest hit age and the least miss age |
| `LearnerTruth.LearnerBracketsTheTruth` | packages/core/src/cachepilot_core/ttl.py:182-204 | against a refresh-on-hit provider of lifetime T every profile ever stored has lower < T <= upper |
| `LearnerTruth.ConfidenceNeverFalls` | packages/core/src/cachepilot_core/ttl.py:189-207 | so confidence never falls, except when a route change restarts it |
| `LearnerTruth.LowerBoundIsAlwaysBelowTheTruth` | packages/core/src/cachepilot_core/fake_provider.py:100-148 | without refresh every lower bound still stays below T |
| `LearnerTruth.UpperBoundFailsWithoutRefresh` | packages/core/src/cachepilot_core/fake_provider.py:111-133 | a concrete run whose upper bound is below T |
| `LearnerTruth.UpperBoundHoldsExactly` | packages/core/src/cachepilot_core/fake_provider.py:111-133 | with or without refresh, over any run and at any times: a profile keeps T <= upper iff no clean miss of its key follows a hit of its fingerprint by less than T |
| `LearnerTruth.UpperBoundHoldsExactlyFromStart` | packages/core/src/cachepilot_core/ttl.py:182-204 | the same for every run on a fresh store and an empty provider |
| `LearnerTruth.LowerBoundFailsWhenTheClockGoesBack` | packages/core/src/cachepilot_core/fake_provider.py:100-148 | a concrete run on a clock that goes back whose lower bound is above T |
| `LearnerTruth.RunEvolvesProfile` | packages/core/src/cachepilot_core/ttl.py:297-363 | over any run of the store a profile moves only by its own clean observations and route restarts |
| `LearnerTruth.ContradictionIsForEver` | packages/core/src/cachepilot_core/ttl.py:357-447 | the same at the level of the tables and the resolver, for every store a run can build |
| `Observation.RequestObserver.Record` | packages/relay/src/cachepilot_relay/observation.py:581-643 | request row, churn row, route verdict, learner feed, in this order |
| `Observation.SwitchedRequestIsCleanIff` | packages/relay/src/cachepilot_relay/observation.py:616-643 | under any mix of sessions, a request after another fingerprint of its session is clean iff churn detection is off and the latest row of its fingerprint is earlier, of the same route, and without recorded churn in between |
| `Observation.InstabilityIsNeverEvidence` | packages/core/src/cachepilot_core/route_intel.py:155-193 | with churn detection on, a request judged ROUTE_INSTABILITY is never clean and moves no bound and no count |
| `Observation.VerdictsExactly` | packages/core/src/cachepilot_core/route_intel.py:155-193 | exactly when each of the three verdicts is given: a hit followed by a miss of the same content, model and provider is ROUTE_INSTABILITY iff both routes are named and differ, SHORT_TTL iff the route is the same, and everything else is CLEAN |
| `Observation.LogsAreExact` | packages/relay/src/cachepilot_relay/observation.py:581-699 | over any run of any sessions: the route log has one entry, in order and with that verdict, for each request whose session predecessor had another route, and none while route intelligence is off; the churn log likewise for fingerprints; every request is a row |
| `Observation.InstabilityCanBeEvidenceWithoutChurnDetection` | packages/core/src/cachepilot_core/ttl.py:312-356 | a concrete run where it is clean and sets an upper bound |
| `Observation.RunMirrors` | packages/relay/src/cachepilot_relay/observation.py:832-885 | in a single session the churn table holds exactly the fingerprint transitions and the log one row per request |
| `Observation.CleanPairCharacterization` | packages/core/src/cachepilot_core/ttl.py:312-326 | in a single session request n is clean iff request n-1 has its fingerprint, and n-2 too unless n-1 is the first |
| `SurvivalEstimator.EstimateSurvival` | packages/core/src/cachepilot_core/survival.py:125-180 | the result is the declarative product-limit curve: one step per death age, in order, with its counts and survival, and the horizon |
| `SurvivalEstimator.EvidenceIsExact` | packages/core/src/cachepilot_core/survival.py:141-147 | the evidence is exactly the verified observations with a known non-negative age, each as often as it was observed, dead iff a miss |
| `SurvivalEstimator.DescribesAnyOrder` | packages/core/src/cachepilot_core/survival.py:141-180 | a curve describes its observations in any order |
| `SurvivalSpec.SurvivalIsOrderFree` | packages/core/src/cachepilot_core/survival.py:141-174 | permuting the observations changes nothing |
| `SurvivalBounds.KaplanMeierSandwich` | packages/core/src/cachepilot_core/survival.py:141-174 | for every non-empty collection and age: share seen alive beyond it <= S <= 1 - share of deaths up to it |
| `SurvivalBounds.ScaledSandwich` | packages/core/src/cachepilot_core/survival.py:160-174 | 0 <= S <= 1 together with the same bounds free of division |
| `SurvivalBounds.SurvivalIsAntitone` | packages/core/src/cachepilot_core/survival.py:160-174 | the curve never rises |
| `SurvivalBounds.TelescopesBeforeFirstHit` | packages/core/src/cachepilot_core/survival.py:160-174 | at a death age with no hit before it, n * S is the number that goes on |
| `SurvivalCurve.SurvivalAt` | packages/core/src/cachepilot_core/survival.py:93-114 | the scan returns the product over death ages up to the age, and nothing exactly past the horizon |
| `SurvivalCurve.MedianSurvival` | packages/core/src/cachepilot_core/survival.py:116-122 | the least age at which the curve is at or below one half, or nothing when there is none |
| `SurvivalCurve.EventsAreAllMisses` | packages/core/src/cachepilot_core/survival.py:152-174 | the steps' events sum to the number of misses |
| `SurvivalCurve.RiskSetRunsOut` | packages/core/src/cachepilot_core/survival.py:152-174 | whoever is at risk at a step dies there, is last seen alive before the next, or is at risk at it; after the last step nobody is left |
| `SurvivalCurve.CurveIsOrderFree` | packages/core/src/cachepilot_core/survival.py:125-180 | two runs on permuted inputs return the same curve |
| `ProfileCurve.CurveFromProfile` | packages/core/src/cachepilot_core/survival.py:218-235 | the curve of a profile describes the clean rows of its identity |
| `ProfileCurve.ProfileAndCurveAgree` | packages/core/src/cachepilot_core/survival.py:183-235 | for every reachable profile: same sample count, first step at the upper bound, and survival at the estimate is exactly 1 iff there is no miss or lower < upper |
| `ChurnDiagnosis.CommonPrefixLength` | packages/core/src/cachepilot_core/churn.py:577-583 | the length of the longest common prefix |
| `ChurnDiagnosis.FirstDivergence` | packages/core/src/cachepilot_core/churn.py:521-574 | the first content layer in prefix order whose hash differs, with the offset of the first difference |
| `ChurnDiagnosis.ChurnClassification.RefinePrefixVolatility` | packages/core/src/cachepilot_core/churn.py:585-619 | only a prefix-only change of the system prompt at a volatile-looking spot is re-attributed; nothing else changes |
| `ChurnDiagnosis.Classify` | packages/core/src/cachepilot_core/churn.py:621-661 | flags and cause from the hashes, loss and hint from the contents, then the refinement |
| `ChurnDiagnosis.DiagnosesAgree` | packages/core/src/cachepilot_core/churn.py:409-430 | with route and model unchanged the cause blames exactly the layer the content search returns, and there is none iff the content is the same |
| `ChurnDiagnosis.CauseIsAbsentOnlyWithoutChange` | packages/core/src/cachepilot_core/churn.py:382-430 | the flat fallbacks are unreachable, and there is no cause iff nothing tracked changed and no identity move was asserted |
| `ChurnLaws.CauseExactly` | packages/core/src/cachepilot_core/churn.py:382-430 | on the two contents, exactly when each cause is named, the volatile-value refinement included: route before model before the earliest changed part of the prompt before the cache key before an unexplained identity move |
| `ChurnLaws.FlagsAreTheDifferences` | packages/core/src/cachepilot_core/churn.py:457-503 | every flag, and the first divergent layer, says which parts of the contents differ |
| `ChurnLaws.ConfidenceExactly` | packages/core/src/cachepilot_core/churn.py:433-495 | the confidence of each cause: its base, less ten hundredths for each changed part beyond the first, never below a half |
| `ChurnLaws.LossExactly` | packages/core/src/cachepilot_core/churn.py:645-661 | the loss is what follows the common prefix in the previous request, over four, rounded down |
| `ChurnLaws.PartsMakeTheWhole` | packages/core/src/cachepilot_core/churn.py:103-202 | the two parts of the system prompt and of the history make up the whole; the prompt is cut where its volatile region starts, the tail is the last message |
| `ChurnDiagnosis.ConfidenceIsBounded` | packages/core/src/cachepilot_core/churn.py:433-495 | confidence iff cause, between one half and the base, and the base for a single changed layer |
| `ChurnDiagnosis.LossIsWhatFollowsTheCommonPrefix` | packages/core/src/cachepilot_core/churn.py:645-661 | the loss is unambiguous, and zero when the previous request is a prefix of the current one |
| `ChurnDiagnosis.LayersDetermineContent` | packages/core/src/cachepilot_core/churn.py:103-202 | a system prompt changed iff one of its two parts did, a conversation iff its body or tail did |
| `Topology.SubLayerStatus` | packages/core/src/cachepilot_core/topology.py:152-220 | the dictionary filled in the source's order is this table of verdicts |
| `Topology.BuildIndex` | packages/core/src/cachepilot_core/topology.py:343-356 | the index holds exactly the last listed row of every transition |
| `Topology.OldestRowIsUsed` | packages/core/src/cachepilot_core/storage.py:974-989 | on the newest-first window of the store that is the oldest row of a repeated transition inside it, and a later one is used iff it says the same |
| `Topology.TopologyFromStore` | packages/core/src/cachepilot_core/topology.py:359-475 | the nested loops tally every consecutive pair of every session, attributed by the last listed row of its transition; total pairs are events minus sessions |
| `Topology.LayerCountersAreConserved` | packages/core/src/cachepilot_core/topology.py:400-475 | each layer's counters are its decidable and its changed pairs, changes <= pairs <= total, and the cache-key layer's pairs are the fingerprint moves |
| `Topology.ToolCountersAreConserved` | packages/core/src/cachepilot_core/topology.py:400-475 | per route, permutations plus set changes never exceed the decidable pairs |
| `Topology.LossIsConserved` | packages/core/src/cachepilot_core/topology.py:400-475 | per-layer loss plus unattributed loss is the summed loss of the matched churn rows |
| `Topology.PairCountIsRequestsMinusSessions` | packages/core/src/cachepilot_core/topology.py:381-400 | every request but the first of its session closes one pair |
| `TopologyLaws.CountersExactly` | packages/core/src/cachepilot_core/topology.py:398-446 | for all eight layers, on the fields of requests and churn row, which pairs are decidable and which count as a change: tools and route with both hashes there and different, model different, cache key with a moved fingerprint and nothing else moved, a sub-layer when the row blames it |
| `TopologyLaws.TotalsExactly` | packages/core/src/cachepilot_core/topology.py:384-450 | total pairs, moved fingerprints, and the attribution gaps: a moved system prompt or history that no row attributes to one of their parts |
| `TopologyLaws.LossesExactly` | packages/core/src/cachepilot_core/topology.py:451-459 | each layer's loss is the sum over the pairs whose row blames it, and the rest is unattributed |
| `TopologyLaws.ToolTableExactly` | packages/core/src/cachepilot_core/topology.py:460-473 | per route of the later request (else the earlier): permutations are the pairs with another list of the same set, set changes those with another list of another set; a route has a row iff it has a decidable pair |
| `TopologyLaws.PairsExactly` | packages/core/src/cachepilot_core/topology.py:376-392 | the pairs counted are exactly each request with the next one of its session, carrying the indexed row of its transition |
| `TopologyLaws.NoPairTwice` | packages/core/src/cachepilot_core/topology.py:376-392 | and each of them is counted once |
| `TopologyLaws.StoreCountersExactly` | packages/core/src/cachepilot_core/topology.py:359-475 | so the counters of tools, route, model and cache key are the numbers of requests with a successor in their session that satisfy these conditions |
| `TopologyLaws.StoreToolTableExactly` | packages/core/src/cachepilot_core/topology.py:460-473 | and so are the rows of the tool table |
| `TopologyLaws.VerdictsExactly` | packages/core/src/cachepilot_core/topology.py:152-220 | exactly when each of the four sub-layers gets a verdict and when it is reported as changed; together with the soundness of the system verdicts this fixes both |
| `Topology.SystemVerdictsAreSound` | packages/core/src/cachepilot_core/topology.py:182-203 | the two system sub-layer verdicts never contradict the true hashes, even when the matched row was recorded for another transition between the same fingerprints |
| `Topology.HistoryVerdictsAreSoundIff` | packages/core/src/cachepilot_core/topology.py:204-220 | for any row recorded between the same system prompts and tools, both history verdicts are sound iff the history did not change behind a divergence of that row in system prompt or tools, and a row that blames the history blames what this pair diverged in first |
| `Topology.OwnRowIsSoundIff` | packages/core/src/cachepilot_core/topology.py:204-220 | with the pair's own row: iff the history did not change behind an earlier divergence |
| `Topology.HistoryVerdictCanBeWrong` | packages/core/src/cachepilot_core/topology.py:210-216 | a concrete pair with a false "unchanged" |
| `Topology.RowOfAnotherTransitionMisleads` | packages/core/src/cachepilot_core/topology.py:343-400 | a concrete session: a repeated transition is attributed by its older row, and an unchanged history body is reported as changed |
| `RouteAffinity.ApprovedPinPays` | packages/core/src/cachepilot_core/route_affinity.py:80-120 | an approved pin saves strictly more than premium and margin for any configured probability |
| `RouteAffinity.RouteAffinityRegistry.ActiveRouteFor` | packages/core/src/cachepilot_core/route_affinity.py:193-206 | serves the route iff unexpired and not newer than the lease; otherwise drops the entry; others untouched |
| `RouteAffinity.RouteAffinityRegistry.Prune` | packages/core/src/cachepilot_core/route_affinity.py:217-222 | exactly the pins of unknown leases go |
| `PinUse.PinsAreFreshAndSharedOnlyAcrossOverlap` | packages/core/src/cachepilot_core/route_affinity.py:177-215 | in every interleaving: never served after expiry or a failure, generation never above the lease's, and two uses of a pin imply an overlap of requests |
| `PinUse.PinIsUsedAtMostOnceByTheNextRequest` | packages/relay/src/cachepilot_relay/lease_controller.py:384-443 | without overlap every pin is used at most once, by the very next request |
| `PinUse.PinIsHandedOutExactly` | packages/core/src/cachepilot_core/route_affinity.py:193-206 | in every interleaving a lookup is handed a pin iff one was set, it has not expired, and since then nobody looked at or past its expiry, no request failed, no other pin was set and no request ended after a newer one began |
| `PinUse.PinIsSharedExactly` | packages/relay/src/cachepilot_relay/lease_controller.py:384-443 | it is handed a pin that was already used iff, besides, somebody looked it up since it was set |
| `PinRuns.ServeAll` | packages/relay/src/cachepilot_relay/lease_controller.py:163-181 | whatever requests do at the controller, in any order, its registry and the routes it hands out are those of a run of the lanes |
| `PinRuns.ServeInTurn` | packages/relay/src/cachepilot_relay/lease_controller.py:371-443 | so without overlap the controller hands out no pin twice, and each to the request after the one that set it |
| `PinUse.NothingIsServedAfterAFailure` | packages/relay/src/cachepilot_relay/lease_controller.py:387-389 | after a failure nothing is served until another pin is set |
| `PinUse.OverlapSharesAPin` | packages/relay/src/cachepilot_relay/lease_controller.py:390-392 | a concrete run where two overlapping requests get one pin |

## Left out

- WarmSpending.WarmingTerminates, WarmSpending.SpendStaysBelowTheLargestApproval: for the one sequential scheduler the source runs; the budget is not checked again under the lock.
- The order in which waiters get a lock: any waiter may be next, which covers the source's first-come order.
- The runtime record of a lease is created with the lease; the source creates it at first use, with the same fields.
- KeepWarmRuns.WarmForeverAmongOthers: for runs without real requests on the lease, in which the gate is open whenever it is due; the gate's own bound ends every finite budget (`WarmSpending.WarmingTerminates`).
- LearnerTruth.LearnerBracketsTheTruth: the provider's lifetime is constant over the run, as in the simulator.
- Binary rounding: money, times, prices and TTL confidences are exact reals, churn confidences whole hundredths, and the six-decimal rounding of survival values is dropped. In doubles the confidence of a contradictory profile can fall below the resolver's threshold one observation earlier than in `TtlProfiles.TrustIsLostAtTheFifth`.
- The text model of churn diagnosis: the split point of a system prompt, JSON serialisation and the volatile-looking test are arbitrary functions, SHA-256 is injective; snippet texts are not kept.
- The prefix size of a lease that the affinity gate falls back to is an argument; the lookup of the latest route event since the request began is one as well.
- Topology over in-memory snapshots, percentages and change-frequency texts: display over the same counters.
- SQL, schema migration, timestamps of rows' last update and latency columns: tables are sequences and maps.
- Usage normalisation, cost source priority and the choice of the fallback predictor: a warm's cost and the fallback cost are arguments.
- The reason texts of economic and affinity decisions, and the evaluate_resume wrappers.
- HTTP forwarding, header stripping, adapters, the warm transport, snapshots of request bodies: the executor answers arbitrarily, and whether a warm can be built is an argument.
- Environment parsing and validation: the validated ranges are the predicates ValidSettings, ValidConfig and ValidPricing.
- Exceptions swallowed by the fail-open wrappers, persistence of lease rows, logging, the dashboard, the command line and the Hermes plugin.
