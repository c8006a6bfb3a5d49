/** The learner judged against the simulator: what every profile learned from it is worth, over whole runs. */
module LearnerTruth {
  import opened Wrappers
  import opened Leases
  import opened TtlProfiles
  import opened TtlLearning
  import opened FakeProvider

  /** The provider's cache, the learner's tables and the clock. */
  datatype Lab = Lab(cache: Cache, store: Store, clock: real)

  const EMPTY_LAB := Lab(map[], EMPTY_STORE, 0.0)

  /** A request of any fingerprint under any route identity, fed to the learner at its own time; or a churn event. */
  datatype LabEvent =
    | Request(fingerprint: Fingerprint, identity: RouteIdentity, at: real)
    | Churned(event: Churn)

  function ObservationOf(lab: Lab, ev: LabEvent): TTLObservation
    requires ev.Request?
  {
    TTLObservation(OutcomeOf(lab.cache, ev.fingerprint, ev.at), ev.fingerprint, ev.identity, ev.at)
  }

  function StepLab(config: ProviderConfig, lab: Lab, ev: LabEvent): Lab {
    match ev
    case Request(fp, _, at) =>
      Lab(AfterRequest(config, lab.cache, fp, at), Learned(lab.store, ObservationOf(lab, ev)), Max(at, lab.clock))
    case Churned(event) => lab.(store := StepStore(lab.store, SeeChurn(event)))
  }

  function RunLab(config: ProviderConfig, lab: Lab, events: seq<LabEvent>): Lab
    decreases |events|
  {
    if events == [] then lab else RunLab(config, StepLab(config, lab, events[0]), events[1..])
  }

  /** The clock does not go back. */
  predicate Monotone(clock: real, events: seq<LabEvent>)
    decreases |events|
  {
    events == [] ||
    (if events[0].Request? then clock <= events[0].at && Monotone(events[0].at, events[1..])
     else Monotone(clock, events[1..]))
  }

  predicate Below(p: Profile, ttl: real) {
    p.lower.Some? ==> p.lower.value < ttl
  }

  predicate Above(p: Profile, ttl: real) {
    p.upper.Some? ==> ttl <= p.upper.value
  }

  /** Appending a row makes it the last of its own fingerprint and of no other. */
  lemma LastRowAppend(rows: seq<Row>, row: Row, fp: Fingerprint)
    ensures LastRow(rows + [row], fp) == if row.fingerprint == fp then Some(row) else LastRow(rows, fp)
  {
    assert (rows + [row])[..|rows|] == rows;
  }

  /** A clean observation is applied with its true outcome: the stored profile changes only by it. */
  lemma BoundsMoveByEvidence(store: Store, obs: TTLObservation, key: string, ttl: real, both: bool)
    requires key in LearnedProfiles(store, obs, JoinKey(obs.identity))
    requires key in store.profiles ==> Below(store.profiles[key], ttl) && (both ==> Above(store.profiles[key], ttl))
    requires ttl > 0.0
    requires IsClean(store, obs) ==>
               && (obs.outcome == ConfirmedHit ==> IdleAge(store, obs).value < ttl)
               && (both && obs.outcome == MissRebuilt ==> ttl <= IdleAge(store, obs).value)
    ensures var p := LearnedProfiles(store, obs, JoinKey(obs.identity))[key];
            Below(p, ttl) && (both ==> Above(p, ttl))
  {
  }

  // -- with refresh on hit ----------------------------------------------------

  /** With refresh on hit an entry expires exactly one TTL after the last request of its fingerprint. */
  predicate ExpiryIsLastRequest(config: ProviderConfig, lab: Lab, fp: Fingerprint) {
    var last := LastRow(lab.store.rows, fp);
    && (fp in lab.cache <==> last.Some?)
    && (last.Some? ==> lab.cache[fp] == last.value.timestamp + config.ttl)
  }

  ghost predicate BracketInv(config: ProviderConfig, lab: Lab) {
    && (forall fp {:trigger ExpiryIsLastRequest(config, lab, fp)} :: ExpiryIsLastRequest(config, lab, fp))
    && (forall key | key in lab.store.profiles ::
          && Below(lab.store.profiles[key], config.ttl) && Above(lab.store.profiles[key], config.ttl)
          && lab.store.profiles[key].confidence <= CONFIDENCE_CEIL)
  }

  lemma StepKeepsBracket(config: ProviderConfig, lab: Lab, ev: LabEvent)
    requires config.refreshOnHit && config.ttl > 0.0 && BracketInv(config, lab)
    ensures BracketInv(config, StepLab(config, lab, ev))
  {
    var lab' := StepLab(config, lab, ev);
    match ev
    case Request(fp, identity, at) =>
      var obs := ObservationOf(lab, ev);
      forall f
        ensures ExpiryIsLastRequest(config, lab', f)
      {
        LastRowAppend(lab.store.rows, NewRow(lab.store, obs), f);
        assert ExpiryIsLastRequest(config, lab, f);
      }
      assert ExpiryIsLastRequest(config, lab, fp);
      forall key | key in lab'.store.profiles
        ensures Below(lab'.store.profiles[key], config.ttl) && Above(lab'.store.profiles[key], config.ttl)
        ensures lab'.store.profiles[key].confidence <= CONFIDENCE_CEIL
      {
        BoundsMoveByEvidence(lab.store, obs, key, config.ttl, true);
      }
    case Churned(event) =>
      forall f
        ensures ExpiryIsLastRequest(config, lab', f)
      {
        assert ExpiryIsLastRequest(config, lab, f);
      }
  }

  lemma {:induction false} RunKeepsBracket(config: ProviderConfig, lab: Lab, events: seq<LabEvent>)
    requires config.refreshOnHit && config.ttl > 0.0 && BracketInv(config, lab)
    ensures BracketInv(config, RunLab(config, lab, events))
    decreases |events|
  {
    if events != [] {
      StepKeepsBracket(config, lab, events[0]);
      RunKeepsBracket(config, StepLab(config, lab, events[0]), events[1..]);
    }
  }

  /** The learner brackets the truth: after every run over any fingerprints, identities and churn, at any times, every
      profile has lower < T <= upper, so its evidence is never inconsistent. */
  lemma LearnerBracketsTheTruth(config: ProviderConfig, events: seq<LabEvent>, key: string)
    requires config.refreshOnHit && config.ttl > 0.0
    requires key in RunLab(config, EMPTY_LAB, events).store.profiles
    ensures var p := RunLab(config, EMPTY_LAB, events).store.profiles[key];
            Below(p, config.ttl) && Above(p, config.ttl) && !Contradictory(p)
  {
    RunKeepsBracket(config, EMPTY_LAB, events);
  }

  /** Nor does confidence fall: only an observation that follows another route of its own fingerprint restarts it. */
  lemma ConfidenceNeverFalls(config: ProviderConfig, events: seq<LabEvent>, ev: LabEvent, key: string)
    requires config.refreshOnHit && config.ttl > 0.0
    requires var lab := RunLab(config, EMPTY_LAB, events);
             && key in lab.store.profiles
             && (ev.Request? ==> !RouteMoved(lab.store, ObservationOf(lab, ev)))
    ensures var lab := RunLab(config, EMPTY_LAB, events);
            && key in StepLab(config, lab, ev).store.profiles
            && StepLab(config, lab, ev).store.profiles[key].confidence >= lab.store.profiles[key].confidence
            && StepLab(config, lab, ev).store.profiles[key].confidence <= CONFIDENCE_CEIL
  {
    RunKeepsBracket(config, EMPTY_LAB, events);
    var lab := RunLab(config, EMPTY_LAB, events);
    if ev.Request? {
      var obs := ObservationOf(lab, ev);
      assert ExpiryIsLastRequest(config, lab, ev.fingerprint);
      TrueEvidenceRaisesConfidence(lab.store, obs, key, config.ttl);
    }
  }

  lemma TrueEvidenceRaisesConfidence(store: Store, obs: TTLObservation, key: string, ttl: real)
    requires key in store.profiles && store.profiles[key].confidence <= CONFIDENCE_CEIL
    requires Below(store.profiles[key], ttl) && Above(store.profiles[key], ttl) && ttl > 0.0
    requires obs.outcome == ConfirmedHit || obs.outcome == MissRebuilt
    requires IsClean(store, obs) ==> (obs.outcome == ConfirmedHit <==> IdleAge(store, obs).value < ttl)
    requires !RouteMoved(store, obs)
    ensures key in Learned(store, obs).profiles
    ensures store.profiles[key].confidence <= Learned(store, obs).profiles[key].confidence <= CONFIDENCE_CEIL
  {
  }

  // -- without refresh --------------------------------------------------------

  /** Without refresh an entry expires at most one TTL after the last request of its fingerprint. */
  predicate ExpiryIsNoLater(config: ProviderConfig, lab: Lab, fp: Fingerprint) {
    var last := LastRow(lab.store.rows, fp);
    && (fp in lab.cache <==> last.Some?)
    && (last.Some? ==> lab.cache[fp] <= last.value.timestamp + config.ttl && last.value.timestamp <= lab.clock)
  }

  ghost predicate LowerInv(config: ProviderConfig, lab: Lab) {
    && (forall fp {:trigger ExpiryIsNoLater(config, lab, fp)} :: ExpiryIsNoLater(config, lab, fp))
    && (forall key | key in lab.store.profiles :: Below(lab.store.profiles[key], config.ttl))
  }

  lemma StepKeepsLower(config: ProviderConfig, lab: Lab, ev: LabEvent)
    requires config.ttl > 0.0 && LowerInv(config, lab) && (ev.Request? ==> lab.clock <= ev.at)
    ensures LowerInv(config, StepLab(config, lab, ev))
  {
    var lab' := StepLab(config, lab, ev);
    match ev
    case Request(fp, identity, at) =>
      var obs := ObservationOf(lab, ev);
      forall f
        ensures ExpiryIsNoLater(config, lab', f)
      {
        LastRowAppend(lab.store.rows, NewRow(lab.store, obs), f);
        assert ExpiryIsNoLater(config, lab, f);
      }
      assert ExpiryIsNoLater(config, lab, fp);
      forall key | key in lab'.store.profiles
        ensures Below(lab'.store.profiles[key], config.ttl)
      {
        BoundsMoveByEvidence(lab.store, obs, key, config.ttl, false);
      }
    case Churned(event) =>
      forall f
        ensures ExpiryIsNoLater(config, lab', f)
      {
        assert ExpiryIsNoLater(config, lab, f);
      }
  }

  /** Whether or not hits refresh, on a clock that does not go back every lower bound stays below the truth. */
  lemma {:induction false} LowerBoundSurvives(config: ProviderConfig, lab: Lab, events: seq<LabEvent>)
    requires config.ttl > 0.0 && LowerInv(config, lab) && Monotone(lab.clock, events)
    ensures LowerInv(config, RunLab(config, lab, events))
    decreases |events|
  {
    if events != [] {
      StepKeepsLower(config, lab, events[0]);
      LowerBoundSurvives(config, StepLab(config, lab, events[0]), events[1..]);
    }
  }

  lemma LowerBoundIsAlwaysBelowTheTruth(config: ProviderConfig, events: seq<LabEvent>, key: string)
    requires config.ttl > 0.0 && Monotone(0.0, events)
    requires key in RunLab(config, EMPTY_LAB, events).store.profiles
    ensures Below(RunLab(config, EMPTY_LAB, events).store.profiles[key], config.ttl)
  {
    LowerBoundSurvives(config, EMPTY_LAB, events);
  }

  const ROUTE := RouteIdentity("p", "m", "chat", "e", None)

  /** The upper bound does not survive: a hit that leaves the entry's expiry where it was makes the next miss look
      younger than it is. */
  lemma UpperBoundFailsWithoutRefresh()
    ensures var config := ProviderConfig(10.0, false);
            var run := [Request(7, ROUTE, 0.0), Request(7, ROUTE, 9.0), Request(7, ROUTE, 11.0)];
            var profiles := RunLab(config, EMPTY_LAB, run).store.profiles;
            && JoinKey(ROUTE) in profiles
            && profiles[JoinKey(ROUTE)].upper == Some(2.0) && !Above(profiles[JoinKey(ROUTE)], config.ttl)
            && Contradictory(profiles[JoinKey(ROUTE)])
  {
    var config := ProviderConfig(10.0, false);
    var run := [Request(7, ROUTE, 0.0), Request(7, ROUTE, 9.0), Request(7, ROUTE, 11.0)];
    var l3 := ThreeRequests(config, run);
    assert run[1..][1..] == run[2..] && run[2..][1..] == [];
    var l1 := StepLab(config, EMPTY_LAB, run[0]);
    var l2 := StepLab(config, l1, run[1]);
    assert RunLab(config, l2, run[2..]) == StepLab(config, l2, run[2]);
    assert RunLab(config, l1, run[1..]) == StepLab(config, l2, run[2]);
  }

  lemma ThreeRequests(config: ProviderConfig, run: seq<LabEvent>) returns (end: Lab)
    requires config == ProviderConfig(10.0, false)
    requires run == [Request(7, ROUTE, 0.0), Request(7, ROUTE, 9.0), Request(7, ROUTE, 11.0)]
    ensures end == StepLab(config, StepLab(config, StepLab(config, EMPTY_LAB, run[0]), run[1]), run[2])
    ensures JoinKey(ROUTE) in end.store.profiles
    ensures end.store.profiles[JoinKey(ROUTE)].lower == Some(9.0) && end.store.profiles[JoinKey(ROUTE)].upper == Some(2.0)
  {
    var l1 := StepLab(config, EMPTY_LAB, run[0]);
    assert l1.store.rows == [Row(0.0, 7, ROUTE, None, MissRebuilt, false)];
    assert l1.store.profiles == map[] && l1.cache == map[7 := 10.0];
    var l2 := StepLab(config, l1, run[1]);
    HitAtNine(config, l1);
    end := StepLab(config, l2, run[2]);
  }

  lemma HitAtNine(config: ProviderConfig, l1: Lab)
    requires config == ProviderConfig(10.0, false)
    requires l1.store.rows == [Row(0.0, 7, ROUTE, None, MissRebuilt, false)] && l1.store.profiles == map[] && l1.store.churn == []
    requires l1.cache == map[7 := 10.0]
    ensures var l2, key := StepLab(config, l1, Request(7, ROUTE, 9.0)), JoinKey(ROUTE);
            && LastRow(l2.store.rows, 7) == Some(Row(9.0, 7, ROUTE, Some(9.0), ConfirmedHit, true))
            && key in l2.store.profiles && l2.store.profiles[key].identity == ROUTE
            && l2.store.profiles[key].lower == Some(9.0) && l2.store.profiles[key].upper == None
            && l2.store.churn == [] && l2.cache == map[7 := 10.0]
  {
    var ev := Request(7, ROUTE, 9.0);
    LastRowAppend(l1.store.rows, NewRow(l1.store, ObservationOf(l1, ev)), 7);
  }

  /** What does hold: a miss writes the entry anew, so after one it expires exactly one TTL later. */
  predicate MissSetsExpiry(config: ProviderConfig, lab: Lab, fp: Fingerprint) {
    var last := LastRow(lab.store.rows, fp);
    && (fp in lab.cache <==> last.Some?)
    && (last.Some? && last.value.outcome == MissRebuilt ==> lab.cache[fp] == last.value.timestamp + config.ttl)
    && (last.Some? ==> last.value.outcome == MissRebuilt || last.value.outcome == ConfirmedHit)
  }

  ghost predicate MissInv(config: ProviderConfig, lab: Lab) {
    forall fp {:trigger MissSetsExpiry(config, lab, fp)} :: MissSetsExpiry(config, lab, fp)
  }

  predicate AboveAt(lab: Lab, key: string, ttl: real) {
    key in lab.store.profiles ==> Above(lab.store.profiles[key], ttl)
  }

  /** A clean miss that comes less than one TTL after a hit of its fingerprint: the hit left the expiry where it was. */
  predicate YoungMiss(config: ProviderConfig, lab: Lab, ev: LabEvent, key: string) {
    && ev.Request? && JoinKey(ev.identity) == key && !IsCached(lab.cache, ev.fingerprint, ev.at)
    && IsClean(lab.store, ObservationOf(lab, ev))
    && LastRow(lab.store.rows, ev.fingerprint).value.outcome == ConfirmedHit
    && ev.at - LastRow(lab.store.rows, ev.fingerprint).value.timestamp < config.ttl
  }

  predicate NoYoungMiss(config: ProviderConfig, lab: Lab, events: seq<LabEvent>, key: string)
    decreases |events|
  {
    events == [] ||
    (!YoungMiss(config, lab, events[0], key) && NoYoungMiss(config, StepLab(config, lab, events[0]), events[1..], key))
  }

  lemma StepKeepsMissInv(config: ProviderConfig, lab: Lab, ev: LabEvent)
    requires MissInv(config, lab)
    ensures MissInv(config, StepLab(config, lab, ev))
  {
    var lab' := StepLab(config, lab, ev);
    forall f
      ensures MissSetsExpiry(config, lab', f)
    {
      assert MissSetsExpiry(config, lab, f);
      if ev.Request? {
        LastRowAppend(lab.store.rows, NewRow(lab.store, ObservationOf(lab, ev)), f);
      }
    }
  }

  lemma StepKeepsAboveExactly(config: ProviderConfig, lab: Lab, ev: LabEvent, key: string)
    requires MissInv(config, lab)
    ensures AboveAt(StepLab(config, lab, ev), key, config.ttl) <==>
              AboveAt(lab, key, config.ttl) && !YoungMiss(config, lab, ev, key)
  {
    if ev.Request? {
      assert MissSetsExpiry(config, lab, ev.fingerprint);
      UpperMovesExactly(lab.store, ObservationOf(lab, ev), key, config.ttl);
    }
  }

  /** An upper bound falls below ttl exactly by a clean miss of its key younger than ttl. */
  lemma UpperMovesExactly(store: Store, obs: TTLObservation, key: string, ttl: real)
    requires obs.outcome == ConfirmedHit || obs.outcome == MissRebuilt
    ensures var before, after := store.profiles, Learned(store, obs).profiles;
            (key in after ==> Above(after[key], ttl)) <==>
              && (key in before ==> Above(before[key], ttl))
              && !(&& JoinKey(obs.identity) == key && IsClean(store, obs) && obs.outcome == MissRebuilt
                   && IdleAge(store, obs).value < ttl)
  {
  }

  /** Exactly when the upper bound holds, with or without refresh, at any times: from any lab in which it holds, the
      profile under a key keeps T <= upper over a run iff no clean miss of that key follows a hit of its fingerprint by
      less than T. */
  lemma {:induction false} UpperBoundHoldsExactly(config: ProviderConfig, lab: Lab, events: seq<LabEvent>, key: string)
    requires MissInv(config, lab)
    ensures AboveAt(RunLab(config, lab, events), key, config.ttl) <==>
              AboveAt(lab, key, config.ttl) && NoYoungMiss(config, lab, events, key)
    decreases |events|
  {
    if events != [] {
      StepKeepsMissInv(config, lab, events[0]);
      StepKeepsAboveExactly(config, lab, events[0], key);
      UpperBoundHoldsExactly(config, StepLab(config, lab, events[0]), events[1..], key);
    }
  }

  lemma UpperBoundHoldsExactlyFromStart(config: ProviderConfig, events: seq<LabEvent>, key: string)
    ensures AboveAt(RunLab(config, EMPTY_LAB, events), key, config.ttl) <==> NoYoungMiss(config, EMPTY_LAB, events, key)
  {
    UpperBoundHoldsExactly(config, EMPTY_LAB, events, key);
  }

  /** The lower bound needs a clock that does not go back: otherwise a request can hit an entry that a later one wrote. */
  lemma LowerBoundFailsWhenTheClockGoesBack()
    ensures var config := ProviderConfig(10.0, false);
            var run := [Request(7, ROUTE, 20.0), Request(7, ROUTE, 5.0), Request(7, ROUTE, 25.0)];
            var profiles := RunLab(config, EMPTY_LAB, run).store.profiles;
            && JoinKey(ROUTE) in profiles
            && profiles[JoinKey(ROUTE)].lower == Some(20.0) && !Below(profiles[JoinKey(ROUTE)], config.ttl)
  {
    var config := ProviderConfig(10.0, false);
    var run := [Request(7, ROUTE, 20.0), Request(7, ROUTE, 5.0), Request(7, ROUTE, 25.0)];
    var end := BackAndForth(config, run);
    assert run[1..][1..] == run[2..] && run[2..][1..] == [];
    var l1 := StepLab(config, EMPTY_LAB, run[0]);
    var l2 := StepLab(config, l1, run[1]);
    assert RunLab(config, l2, run[2..]) == StepLab(config, l2, run[2]);
    assert RunLab(config, l1, run[1..]) == StepLab(config, l2, run[2]);
  }

  lemma BackAndForth(config: ProviderConfig, run: seq<LabEvent>) returns (end: Lab)
    requires config == ProviderConfig(10.0, false)
    requires run == [Request(7, ROUTE, 20.0), Request(7, ROUTE, 5.0), Request(7, ROUTE, 25.0)]
    ensures end == StepLab(config, StepLab(config, StepLab(config, EMPTY_LAB, run[0]), run[1]), run[2])
    ensures JoinKey(ROUTE) in end.store.profiles && end.store.profiles[JoinKey(ROUTE)].lower == Some(20.0)
  {
    var l1 := StepLab(config, EMPTY_LAB, run[0]);
    assert l1.store.rows == [Row(20.0, 7, ROUTE, None, MissRebuilt, false)];
    assert l1.store.profiles == map[] && l1.cache == map[7 := 30.0];
    var l2 := StepLab(config, l1, run[1]);
    LastRowAppend(l1.store.rows, NewRow(l1.store, ObservationOf(l1, run[1])), 7);
    assert l2.store.profiles == map[] && l2.cache == map[7 := 30.0];
    end := StepLab(config, l2, run[2]);
  }

  // -- contradiction at the level of the store --------------------------------

  /** What one store event does to the profile under a key: nothing, an observation or a restart. */
  function EventFor(store: Store, ev: StoreEvent, key: string): seq<ProfileEvent> {
    if !ev.Learn? || JoinKey(ev.obs.identity) != key then []
    else if IsClean(store, ev.obs) then [Saw(ev.obs.outcome, IdleAge(store, ev.obs))]
    else if RouteMoved(store, ev.obs) then [RouteChanged]
    else []
  }

  function EventsFor(store: Store, events: seq<StoreEvent>, key: string): seq<ProfileEvent>
    decreases |events|
  {
    if events == [] then []
    else EventFor(store, events[0], key) + EventsFor(StepStore(store, events[0]), events[1..], key)
  }

  lemma StepEvolvesProfile(store: Store, ev: StoreEvent, key: string)
    requires key in store.profiles
    ensures key in StepStore(store, ev).profiles
    ensures StepStore(store, ev).profiles[key] == Evolved(store.profiles[key], EventFor(store, ev, key))
  {
    var p, events := store.profiles[key], EventFor(store, ev, key);
    if events != [] {
      assert events[1..] == [];
      match events[0]
      case Saw(outcome, age) => assert Evolved(p, events) == Observed(p, outcome, age);
      case RouteChanged => assert Evolved(p, events) == Restarted(p);
    }
  }

  lemma {:induction false} RunEvolvesProfile(store: Store, events: seq<StoreEvent>, key: string)
    requires key in store.profiles
    ensures key in RunStore(store, events).profiles
    ensures RunStore(store, events).profiles[key] == Evolved(store.profiles[key], EventsFor(store, events, key))
    decreases |events|
  {
    if events != [] {
      StepEvolvesProfile(store, events[0], key);
      var next := StepStore(store, events[0]);
      RunEvolvesProfile(next, events[1..], key);
      EvolvedConcat(store.profiles[key], EventFor(store, events[0], key), EventsFor(next, events[1..], key));
    }
  }

  /** Every profile of a store has earned its confidence. */
  predicate AllEarned(store: Store) {
    forall key | key in store.profiles :: Earned(store.profiles[key])
  }

  lemma StepKeepsEarned(store: Store, ev: StoreEvent)
    requires AllEarned(store)
    ensures AllEarned(StepStore(store, ev))
  {
  }

  lemma {:induction false} RunKeepsEarned(store: Store, events: seq<StoreEvent>)
    requires AllEarned(store)
    ensures AllEarned(RunStore(store, events))
    decreases |events|
  {
    if events != [] {
      StepKeepsEarned(store, events[0]);
      RunKeepsEarned(StepStore(store, events[0]), events[1..]);
    }
  }

  /** From any store a run can build: once a profile is contradictory and five more clean hits or misses of its key have
      been learned, whatever came between or comes after, the resolver never answers from it. */
  lemma ContradictionIsForEver(
      config: ResolverConfig, past: seq<StoreEvent>, events: seq<StoreEvent>, key: string, hint: Option<Hint>)
    requires var store := RunStore(EMPTY_STORE, past);
             && key in store.profiles && Contradictory(store.profiles[key])
             && VerifiedCount(EventsFor(store, events, key)) >= 5
    ensures var store := RunStore(EMPTY_STORE, past);
            Resolve(config, ProfileFor(RunStore(store, events).profiles, key), hint).source != FromLearned
  {
    var store := RunStore(EMPTY_STORE, past);
    RunKeepsEarned(EMPTY_STORE, past);
    RunEvolvesProfile(store, events, key);
    EarnedContradictionIsNeverTrustedAgain(config, store.profiles[key], EventsFor(store, events, key), hint);
  }
}
