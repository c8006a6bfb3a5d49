/** The order in which one observed request reaches the tables (observation.py, _record), and which requests the
    learner therefore takes as evidence. */
module Observation {
  import opened Wrappers
  import opened Leases
  import opened TtlProfiles
  import opened TtlLearning

  type Digest = nat

  /** One observed request. The cache fingerprint is a digest of the route identity and of more. */
  datatype RequestEvent = RequestEvent(
    session: Option<SessionId>, fingerprint: Fingerprint, identity: RouteIdentity,
    systemHash: Digest, toolsHash: Digest, historyHash: Option<Digest>, outcome: Outcome, at: real)

  datatype Verdict = RouteInstability | ShortTtl | CleanVerdict

  datatype RouteEvent = RouteEvent(at: real, session: Option<SessionId>, verdict: Verdict)

  datatype ObserverConfig = ObserverConfig(churnDetection: bool, routeIntel: bool)

  datatype Tables = Tables(events: seq<RequestEvent>, routeEvents: seq<RouteEvent>, store: Store)

  const NOTHING_OBSERVED := Tables([], [], EMPTY_STORE)

  // -- the router-miss classifier ---------------------------------------------

  function Classify(previousOutcome: Option<Outcome>, previousRoute: Option<string>,
                    currentOutcome: Outcome, currentRoute: Option<string>, identityStable: bool): Verdict
  {
    if previousRoute != currentRoute then
      if && previousRoute.Some? && currentRoute.Some? && identityStable
         && previousOutcome == Some(ConfirmedHit) && currentOutcome == MissRebuilt
      then RouteInstability else CleanVerdict
    else if identityStable && previousOutcome == Some(ConfirmedHit) && currentOutcome == MissRebuilt then ShortTtl
    else CleanVerdict
  }

  predicate IdentityStable(previous: RequestEvent, current: RequestEvent) {
    && previous.systemHash == current.systemHash && previous.toolsHash == current.toolsHash
    && previous.historyHash == current.historyHash
    && previous.identity.model == current.identity.model && previous.identity.provider == current.identity.provider
  }

  function VerdictOn(previous: RequestEvent, current: RequestEvent): Verdict {
    Classify(Some(previous.outcome), previous.identity.routeHash, current.outcome, current.identity.routeHash,
             IdentityStable(previous, current))
  }

  /** The two requests carried the same prompt to the same model of the same provider. */
  predicate SameRequest(a: RequestEvent, b: RequestEvent) {
    && a.systemHash == b.systemHash && a.toolsHash == b.toolsHash && a.historyHash == b.historyHash
    && a.identity.model == b.identity.model && a.identity.provider == b.identity.provider
  }

  /** Exactly when each verdict is given on two requests in a row: a hit followed by a miss of the same request is route
      instability when both routes are known and differ, and a short ttl when the route (known or not) is the same;
      everything else is clean. */
  predicate IsVerdict(verdict: Verdict, previous: RequestEvent, current: RequestEvent) {
    var lost := SameRequest(previous, current) && previous.outcome == ConfirmedHit && current.outcome == MissRebuilt;
    var from, to := previous.identity.routeHash, current.identity.routeHash;
    && (verdict == RouteInstability <==> lost && from.Some? && to.Some? && from.value != to.value)
    && (verdict == ShortTtl <==> lost && from == to)
    && (verdict == CleanVerdict <==> !lost || (from != to && (from.None? || to.None?)))
  }

  lemma VerdictsExactly(previous: RequestEvent, current: RequestEvent)
    ensures IsVerdict(VerdictOn(previous, current), previous, current)
  {
  }

  // -- recording --------------------------------------------------------------

  function LastEvent(events: seq<RequestEvent>, session: SessionId): Option<RequestEvent> {
    if events == [] then None
    else
      var last := events[|events| - 1];
      if last.session == Some(session) then Some(last) else LastEvent(events[..|events| - 1], session)
  }

  function PreviousOf(o: Tables, ev: RequestEvent): Option<RequestEvent> {
    if ev.session.Some? then LastEvent(o.events, ev.session.value) else None
  }

  /** The churn table as the learner sees it: the transition this request made is already in it. */
  function ChurnAfter(config: ObserverConfig, o: Tables, ev: RequestEvent): seq<Churn> {
    var previous := PreviousOf(o, ev);
    if previous.Some? && previous.value.fingerprint != ev.fingerprint && config.churnDetection
    then o.store.churn + [Churn(ev.at, previous.value.fingerprint, ev.fingerprint)] else o.store.churn
  }

  function RoutesAfter(config: ObserverConfig, o: Tables, ev: RequestEvent): seq<RouteEvent> {
    var previous := PreviousOf(o, ev);
    if config.routeIntel && previous.Some? && previous.value.identity.routeHash != ev.identity.routeHash
    then o.routeEvents + [RouteEvent(ev.at, ev.session, VerdictOn(previous.value, ev))] else o.routeEvents
  }

  function FeedOf(ev: RequestEvent): TTLObservation {
    TTLObservation(ev.outcome, ev.fingerprint, ev.identity, ev.at)
  }

  /** The tables when the learner gets the request. */
  function StoreAtLearn(config: ObserverConfig, o: Tables, ev: RequestEvent): Store {
    o.store.(churn := ChurnAfter(config, o, ev))
  }

  function Recorded(config: ObserverConfig, o: Tables, ev: RequestEvent): Tables {
    Tables(o.events + [ev], RoutesAfter(config, o, ev), Learned(StoreAtLearn(config, o, ev), FeedOf(ev)))
  }

  class RequestObserver {
    const config: ObserverConfig
    const store: TelemetryStore
    const learner: TTLLearner
    var events: seq<RequestEvent>
    var routeEvents: seq<RouteEvent>

    constructor (config: ObserverConfig)
      ensures this.config == config && View() == NOTHING_OBSERVED && Valid() && fresh(store)
    {
      this.config := config;
      var tables := new TelemetryStore();
      store := tables;
      learner := new TTLLearner(tables);
      events, routeEvents := [], [];
    }

    predicate Valid()
      reads this, store
    {
      learner.store == store && WellKeyed(store.profiles)
    }

    function View(): Tables
      reads this, store
    {
      Tables(events, routeEvents, store.View())
    }

    /** Request row, churn row, route verdict, learner feed: in this order. */
    method Record(ev: RequestEvent)
      requires Valid()
      modifies this, store
      ensures Valid() && View() == Recorded(config, old(View()), ev)
    {
      var previous := if ev.session.Some? then LastEvent(events, ev.session.value) else None;
      events := events + [ev];
      if previous.Some? && previous.value.fingerprint != ev.fingerprint {
        if config.churnDetection {
          var _ := store.RecordChurn(Churn(ev.at, previous.value.fingerprint, ev.fingerprint));
        }
      }
      RunRouteIntel(previous, ev);
      var _ := learner.Learn(FeedOf(ev));
    }

    method RunRouteIntel(previous: Option<RequestEvent>, ev: RequestEvent)
      modifies this`routeEvents
      ensures routeEvents ==
              if config.routeIntel && previous.Some? && previous.value.identity.routeHash != ev.identity.routeHash
              then old(routeEvents) + [RouteEvent(ev.at, ev.session, VerdictOn(previous.value, ev))]
              else old(routeEvents)
    {
      if !config.routeIntel || previous == None {
        return;
      }
      if previous.value.identity.routeHash == ev.identity.routeHash {
        return;
      }
      routeEvents := routeEvents + [RouteEvent(ev.at, ev.session, VerdictOn(previous.value, ev))];
    }
  }

  // -- instability is never evidence ------------------------------------------

  /** The fingerprint is a digest of the route identity: equal fingerprints, equal identities. */
  predicate SameDigestSameRoute(a: RequestEvent, b: RequestEvent) {
    a.fingerprint == b.fingerprint ==> a.identity == b.identity
  }

  /** The request was given the instability verdict. */
  predicate JudgedUnstable(o: Tables, ev: RequestEvent) {
    var previous := PreviousOf(o, ev);
    && previous.Some? && previous.value.identity.routeHash != ev.identity.routeHash
    && VerdictOn(previous.value, ev) == RouteInstability
  }

  predicate RecordedClean(config: ObserverConfig, o: Tables, ev: RequestEvent) {
    IsClean(StoreAtLearn(config, o, ev), FeedOf(ev))
  }

  /** In any state of the tables and under any mix of sessions: a request that follows another fingerprint of its own
      session is clean exactly when churn detection is off and the latest row of its fingerprint, which must be another
      session's or an older one of its own, is earlier, of the same route, and without recorded churn in between. */
  lemma SwitchedRequestIsCleanIff(config: ObserverConfig, o: Tables, ev: RequestEvent)
    requires PreviousOf(o, ev).Some? && PreviousOf(o, ev).value.fingerprint != ev.fingerprint
    ensures RecordedClean(config, o, ev) <==> !config.churnDetection && exists k: nat :: PairsCleanly(o.store, FeedOf(ev), k)
  {
    CleanMeansPaired(o.store, FeedOf(ev));
    SwitchedRequestNeedsDetectionOff(config, o, ev);
  }

  lemma SwitchedRequestNeedsDetectionOff(config: ObserverConfig, o: Tables, ev: RequestEvent)
    requires PreviousOf(o, ev).Some? && PreviousOf(o, ev).value.fingerprint != ev.fingerprint
    ensures RecordedClean(config, o, ev) <==> !config.churnDetection && IsClean(o.store, FeedOf(ev))
  {
    var s, obs := StoreAtLearn(config, o, ev), FeedOf(ev);
    if config.churnDetection {
      var churn := s.churn;
      assert churn[|churn| - 1] == Churn(ev.at, PreviousOf(o, ev).value.fingerprint, ev.fingerprint);
      if IdleAge(s, obs).Some? {
        var start := LastRow(s.rows, ev.fingerprint).value.timestamp;
        assert start <= churn[|churn| - 1].timestamp <= ev.at;
        assert ChurnBetween(churn, ev.fingerprint, start, ev.at);
      }
    } else {
      assert s == o.store;
    }
  }

  /** A request judged unstable is therefore never clean while churn detection is on, and moves no TTL bound. */
  lemma InstabilityIsNeverEvidence(config: ObserverConfig, o: Tables, ev: RequestEvent, key: string)
    requires config.churnDetection && JudgedUnstable(o, ev)
    requires SameDigestSameRoute(PreviousOf(o, ev).value, ev)
    ensures !RecordedClean(config, o, ev)
    ensures var before, after := o.store.profiles, Recorded(config, o, ev).store.profiles;
            && (key in before <==> key in after)
            && (key in before ==>
                  && after[key].lower == before[key].lower && after[key].upper == before[key].upper
                  && after[key].sampleCount == before[key].sampleCount)
  {
    SwitchedRequestNeedsDetectionOff(config, o, ev);
  }

  function RouteOf(route: string): RouteIdentity {
    RouteIdentity("p", "m", "chat", "e", Some(route))
  }

  /** With churn detection off the promise fails: a request judged unstable in its own session is paired with another
      session's request of the same fingerprint, is clean, and sets an upper bound. */
  lemma InstabilityCanBeEvidenceWithoutChurnDetection()
    ensures var config := ObserverConfig(false, true);
            var other := RequestEvent(Some(2), 8, RouteOf("b"), 1, 1, None, MissRebuilt, 0.0);
            var warm := RequestEvent(Some(1), 7, RouteOf("a"), 1, 1, None, ConfirmedHit, 1.0);
            var switched := RequestEvent(Some(1), 8, RouteOf("b"), 1, 1, None, MissRebuilt, 2.0);
            var o := Recorded(config, Recorded(config, NOTHING_OBSERVED, other), warm);
            && JudgedUnstable(o, switched) && SameDigestSameRoute(warm, switched)
            && RecordedClean(config, o, switched)
            && JoinKey(RouteOf("b")) in Recorded(config, o, switched).store.profiles
            && Recorded(config, o, switched).store.profiles[JoinKey(RouteOf("b"))].upper == Some(2.0)
  {
    var config := ObserverConfig(false, true);
    var other := RequestEvent(Some(2), 8, RouteOf("b"), 1, 1, None, MissRebuilt, 0.0);
    var warm := RequestEvent(Some(1), 7, RouteOf("a"), 1, 1, None, ConfirmedHit, 1.0);
    var switched := RequestEvent(Some(1), 8, RouteOf("b"), 1, 1, None, MissRebuilt, 2.0);
    var o1 := Recorded(config, NOTHING_OBSERVED, other);
    assert o1.store.rows == [Row(0.0, 8, RouteOf("b"), None, MissRebuilt, false)];
    var o := Recorded(config, o1, warm);
    var r := Row(1.0, 7, RouteOf("a"), None, ConfirmedHit, false);
    assert LastRow(o1.store.rows, 7) == None;
    assert o.store.rows == o1.store.rows + [r] && o.store.profiles == map[];
    assert (o1.store.rows + [r])[..1] == o1.store.rows;
    assert LastRow(o.store.rows, 8) == Some(o1.store.rows[0]);
    assert o.events == [other, warm] && LastEvent(o.events, 1) == Some(warm);
    SwitchedRequestNeedsDetectionOff(config, o, switched);
    assert o.store.churn == [];
  }

  // -- which requests of a single session are clean ---------------------------

  function RunObserver(config: ObserverConfig, evs: seq<RequestEvent>): Tables {
    if evs == [] then NOTHING_OBSERVED
    else Recorded(config, RunObserver(config, evs[..|evs| - 1]), evs[|evs| - 1])
  }

  /** One session, strictly increasing times, fingerprints that determine routes. */
  predicate SingleSession(evs: seq<RequestEvent>, session: SessionId) {
    && (forall i | 0 <= i < |evs| :: evs[i].session == Some(session))
    && (forall i, j | 0 <= i < j < |evs| :: evs[i].at < evs[j].at)
    && (forall i, j | 0 <= i < |evs| && 0 <= j < |evs| :: SameDigestSameRoute(evs[i], evs[j]))
  }

  predicate IsTransition(evs: seq<RequestEvent>, i: nat, c: Churn) {
    0 < i < |evs| && evs[i - 1].fingerprint != evs[i].fingerprint
    && c == Churn(evs[i].at, evs[i - 1].fingerprint, evs[i].fingerprint)
  }

  /** The log has one row per request. */
  predicate RowsMirror(rows: seq<Row>, evs: seq<RequestEvent>) {
    |rows| == |evs| && forall i | 0 <= i < |evs| ::
      rows[i].fingerprint == evs[i].fingerprint && rows[i].timestamp == evs[i].at && rows[i].identity == evs[i].identity
      && rows[i].outcome == evs[i].outcome
  }

  /** The churn table has exactly one event per fingerprint transition. */
  ghost predicate ChurnMirrors(churn: seq<Churn>, evs: seq<RequestEvent>) {
    && (forall c | c in churn :: exists i: nat :: IsTransition(evs, i, c))
    && (forall i: nat, c {:trigger IsTransition(evs, i, c)} | IsTransition(evs, i, c) :: c in churn)
  }

  ghost predicate TablesMirror(o: Tables, evs: seq<RequestEvent>) {
    o.events == evs && RowsMirror(o.store.rows, evs) && ChurnMirrors(o.store.churn, evs)
  }

  lemma FrontIsSingleSession(evs: seq<RequestEvent>, session: SessionId)
    requires evs != [] && SingleSession(evs, session)
    ensures SingleSession(evs[..|evs| - 1], session)
  {
    var front := evs[..|evs| - 1];
    forall i, j | 0 <= i < |front| && 0 <= j < |front|
      ensures SameDigestSameRoute(front[i], front[j])
    {
      assert SameDigestSameRoute(evs[i], evs[j]);
    }
  }

  lemma {:induction false} RunMirrors(config: ObserverConfig, evs: seq<RequestEvent>, session: SessionId)
    requires config.churnDetection && SingleSession(evs, session)
    ensures TablesMirror(RunObserver(config, evs), evs)
  {
    if evs != [] {
      var front, ev := evs[..|evs| - 1], evs[|evs| - 1];
      FrontIsSingleSession(evs, session);
      RunMirrors(config, front, session);
      assert evs == front + [ev];
      OneMoreMirrors(config, RunObserver(config, front), front, ev);
    }
  }

  lemma OneMoreMirrors(config: ObserverConfig, o: Tables, front: seq<RequestEvent>, ev: RequestEvent)
    requires config.churnDetection && TablesMirror(o, front)
    requires ev.session.Some? && forall i | 0 <= i < |front| :: front[i].session == ev.session
    ensures TablesMirror(Recorded(config, o, ev), front + [ev])
  {
    assert front != [] ==> PreviousOf(o, ev) == Some(front[|front| - 1]);
    TransitionsOfOneMore(front, ev, o.store.churn, ChurnAfter(config, o, ev));
  }

  lemma TransitionsOfOneMore(front: seq<RequestEvent>, ev: RequestEvent, before: seq<Churn>, after: seq<Churn>)
    requires ChurnMirrors(before, front)
    requires after == if front != [] && front[|front| - 1].fingerprint != ev.fingerprint
                      then before + [Churn(ev.at, front[|front| - 1].fingerprint, ev.fingerprint)] else before
    ensures ChurnMirrors(after, front + [ev])
  {
    var evs := front + [ev];
    forall c | c in after
      ensures exists i: nat :: IsTransition(evs, i, c)
    {
      if c in before {
        var i: nat :| IsTransition(front, i, c);
        assert IsTransition(evs, i, c);
      } else {
        assert IsTransition(evs, |front|, c);
      }
    }
    forall i: nat, c | IsTransition(evs, i, c)
      ensures c in after
    {
      if i < |front| {
        assert IsTransition(front, i, c);
      } else {
        assert c == after[|after| - 1];
      }
    }
  }

  /** Request n is clean iff request n-1 has its fingerprint, and so has request n-2 unless n-1 is the first. */
  predicate ThirdInARow(evs: seq<RequestEvent>, n: nat)
    requires n < |evs|
  {
    && n > 0 && evs[n - 1].fingerprint == evs[n].fingerprint
    && (n == 1 || evs[n - 2].fingerprint == evs[n].fingerprint)
  }

  /** Whatever one session did before, its next request is clean iff the request before it had its fingerprint, and so had
      the one before that unless there was none. */
  lemma CleanPairCharacterization(config: ObserverConfig, front: seq<RequestEvent>, ev: RequestEvent, session: SessionId)
    requires config.churnDetection && SingleSession(front + [ev], session)
    ensures RecordedClean(config, RunObserver(config, front), ev) <==> ThirdInARow(front + [ev], |front|)
  {
    assert (front + [ev])[..|front|] == front;
    FrontIsSingleSession(front + [ev], session);
    RunMirrors(config, front, session);
    MirroredRequest(config, RunObserver(config, front), front, ev, session);
  }

  lemma MirroredRequest(config: ObserverConfig, o: Tables, front: seq<RequestEvent>, ev: RequestEvent, session: SessionId)
    requires config.churnDetection && TablesMirror(o, front) && SingleSession(front + [ev], session)
    ensures RecordedClean(config, o, ev) <==> ThirdInARow(front + [ev], |front|)
  {
    if front == [] {
      assert LastRow(o.store.rows, ev.fingerprint) == None;
    } else {
      LastPair(config, o, front, ev, session);
    }
  }

  lemma LastPair(config: ObserverConfig, o: Tables, front: seq<RequestEvent>, ev: RequestEvent, session: SessionId)
    requires config.churnDetection && TablesMirror(o, front) && front != [] && SingleSession(front + [ev], session)
    ensures RecordedClean(config, o, ev) <==> ThirdInARow(front + [ev], |front|)
  {
    var evs, n := front + [ev], |front|;
    assert evs[n] == ev && evs[n - 1] == front[n - 1];
    assert PreviousOf(o, ev) == Some(front[n - 1]);
    if front[n - 1].fingerprint != ev.fingerprint {
      SwitchedRequestNeedsDetectionOff(config, o, ev);
    } else {
      assert SameDigestSameRoute(evs[n - 1], evs[n]);
      assert LastRow(o.store.rows, ev.fingerprint) == Some(o.store.rows[n - 1]);
      WindowOfLastPair(o.store.churn, front, ev, session);
    }
  }

  /** For a repeated fingerprint the only churn that can fall into the window is the one that brought the session to
      this fingerprint with the request before. */
  lemma WindowOfLastPair(churn: seq<Churn>, front: seq<RequestEvent>, ev: RequestEvent, session: SessionId)
    requires ChurnMirrors(churn, front) && front != [] && SingleSession(front + [ev], session)
    requires front[|front| - 1].fingerprint == ev.fingerprint
    ensures ChurnBetween(churn, ev.fingerprint, front[|front| - 1].at, ev.at)
            <==> |front| > 1 && front[|front| - 2].fingerprint != ev.fingerprint
  {
    var evs, n := front + [ev], |front|;
    if n > 1 && front[n - 2].fingerprint != ev.fingerprint {
      var c := Churn(front[n - 1].at, front[n - 2].fingerprint, front[n - 1].fingerprint);
      assert IsTransition(front, n - 1, c);
      assert evs[n - 1] == front[n - 1] && evs[n] == ev;
    } else {
      forall k | 0 <= k < |churn| && (churn[k].previous == ev.fingerprint || churn[k].next == ev.fingerprint)
        ensures churn[k].timestamp < front[n - 1].at
      {
        assert churn[k] in churn;
        var i: nat :| IsTransition(front, i, churn[k]);
        assert evs[i] == front[i] && evs[n - 1] == front[n - 1];
      }
    }
  }

  // -- the logs over runs of any sessions -------------------------------------

  /** Request p is the one before request i in its session. */
  predicate IsPredecessor(evs: seq<RequestEvent>, p: nat, i: nat) {
    && p < i < |evs| && evs[i].session.Some? && evs[p].session == evs[i].session
    && forall k | p < k < i :: evs[k].session != evs[i].session
  }

  predicate ChangedRoute(evs: seq<RequestEvent>, i: nat) {
    exists p: nat | p < i :: IsPredecessor(evs, p, i) && evs[p].identity.routeHash != evs[i].identity.routeHash
  }

  predicate ChangedFingerprint(evs: seq<RequestEvent>, i: nat) {
    exists p: nat | p < i :: IsPredecessor(evs, p, i) && evs[p].fingerprint != evs[i].fingerprint
  }

  /** The entry of the route log for request i. */
  predicate IsRouteEntry(entry: RouteEvent, evs: seq<RequestEvent>, i: nat) {
    && i < |evs| && entry.at == evs[i].at && entry.session == evs[i].session
    && exists p: nat | p < i :: IsPredecessor(evs, p, i) && IsVerdict(entry.verdict, evs[p], evs[i])
  }

  predicate IsChurnEntry(entry: Churn, evs: seq<RequestEvent>, i: nat) {
    && i < |evs| && entry.timestamp == evs[i].at && entry.next == evs[i].fingerprint
    && exists p: nat | p < i :: IsPredecessor(evs, p, i) && entry.previous == evs[p].fingerprint
  }

  /** `where` lists, in order, the requests the log has an entry for. */
  predicate Increasing(where: seq<nat>, n: nat) {
    (forall k | 0 <= k < |where| :: where[k] < n) && (forall j, k | 0 <= j < k < |where| :: where[j] < where[k])
  }

  predicate IsRouteLog(log: seq<RouteEvent>, where: seq<nat>, evs: seq<RequestEvent>) {
    && |log| == |where| && Increasing(where, |evs|)
    && (forall k | 0 <= k < |log| :: IsRouteEntry(log[k], evs, where[k]))
    && (forall i | 0 <= i < |evs| :: i in where <==> ChangedRoute(evs, i))
  }

  predicate IsChurnLog(log: seq<Churn>, where: seq<nat>, evs: seq<RequestEvent>) {
    && |log| == |where| && Increasing(where, |evs|)
    && (forall k | 0 <= k < |log| :: IsChurnEntry(log[k], evs, where[k]))
    && (forall i | 0 <= i < |evs| :: i in where <==> ChangedFingerprint(evs, i))
  }

  lemma {:induction false} LastEventIsPredecessor(evs: seq<RequestEvent>, session: SessionId) returns (p: nat)
    ensures LastEvent(evs, session).None? ==> forall k | 0 <= k < |evs| :: evs[k].session != Some(session)
    ensures LastEvent(evs, session).Some? ==>
              && p < |evs| && LastEvent(evs, session) == Some(evs[p]) && evs[p].session == Some(session)
              && forall k | p < k < |evs| :: evs[k].session != Some(session)
  {
    p := 0;
    if evs != [] {
      var n := |evs| - 1;
      if evs[n].session == Some(session) {
        p := n;
      } else {
        p := LastEventIsPredecessor(evs[..n], session);
        assert forall k | 0 <= k < n :: evs[..n][k] == evs[k];
      }
    }
  }

  /** Earlier requests keep their predecessors when one is added. */
  lemma EarlierStay(front: seq<RequestEvent>, ev: RequestEvent)
    ensures var evs := front + [ev];
            && (forall p: nat, i: nat | i < |front| :: IsPredecessor(evs, p, i) <==> IsPredecessor(front, p, i))
            && (forall i: nat | i < |front| :: evs[i] == front[i])
  {
    var evs := front + [ev];
    forall p: nat, i: nat | i < |front|
      ensures IsPredecessor(evs, p, i) <==> IsPredecessor(front, p, i)
    {
      assert forall k | 0 <= k <= i :: evs[k] == front[k];
    }
  }

  /** The predecessor of the added request is the last event of its session. */
  lemma AddedPredecessor(front: seq<RequestEvent>, ev: RequestEvent, previous: Option<RequestEvent>)
    requires previous == if ev.session.Some? then LastEvent(front, ev.session.value) else None
    ensures var evs := front + [ev];
            && (previous.Some? ==> exists p: nat :: IsPredecessor(evs, p, |front|) && evs[p] == previous.value)
            && (forall p: nat | IsPredecessor(evs, p, |front|) :: previous == Some(evs[p]))
  {
    if ev.session.Some? {
      var evs := front + [ev];
      var p := LastEventIsPredecessor(front, ev.session.value);
      assert forall k | 0 <= k < |front| :: evs[k] == front[k];
      if previous.Some? {
        assert IsPredecessor(evs, p, |front|);
      }
      forall q: nat | IsPredecessor(evs, q, |front|)
        ensures previous == Some(evs[q])
      {
        assert evs[q].session == ev.session;
      }
    }
  }

  /** Entries and places of earlier requests stay what they were. */
  lemma EarlierEntriesStay(front: seq<RequestEvent>, ev: RequestEvent)
    ensures var evs := front + [ev];
            && (forall entry: RouteEvent, i: nat | IsRouteEntry(entry, front, i) :: IsRouteEntry(entry, evs, i))
            && (forall entry: Churn, i: nat | IsChurnEntry(entry, front, i) :: IsChurnEntry(entry, evs, i))
            && (forall i: nat | i < |front| :: ChangedRoute(evs, i) <==> ChangedRoute(front, i))
            && (forall i: nat | i < |front| :: ChangedFingerprint(evs, i) <==> ChangedFingerprint(front, i))
  {
    var evs := front + [ev];
    EarlierStay(front, ev);
    forall entry: RouteEvent, i: nat | IsRouteEntry(entry, front, i)
      ensures IsRouteEntry(entry, evs, i)
    {
      var p: nat :| p < i && IsPredecessor(front, p, i) && IsVerdict(entry.verdict, front[p], front[i]);
      assert IsPredecessor(evs, p, i) && evs[p] == front[p];
    }
    forall entry: Churn, i: nat | IsChurnEntry(entry, front, i)
      ensures IsChurnEntry(entry, evs, i)
    {
      var p: nat :| p < i && IsPredecessor(front, p, i) && entry.previous == front[p].fingerprint;
      assert IsPredecessor(evs, p, i) && evs[p] == front[p];
    }
    forall i: nat | i < |front|
      ensures ChangedRoute(evs, i) <==> ChangedRoute(front, i)
      ensures ChangedFingerprint(evs, i) <==> ChangedFingerprint(front, i)
    {
      assert forall p: nat | p < i :: evs[p] == front[p] && (IsPredecessor(evs, p, i) <==> IsPredecessor(front, p, i));
    }
  }

  lemma AddedRoute(front: seq<RequestEvent>, ev: RequestEvent, previous: Option<RequestEvent>)
    requires previous == if ev.session.Some? then LastEvent(front, ev.session.value) else None
    ensures var evs, moved := front + [ev], previous.Some? && previous.value.identity.routeHash != ev.identity.routeHash;
            && (ChangedRoute(evs, |front|) <==> moved)
            && (moved ==> IsRouteEntry(RouteEvent(ev.at, ev.session, VerdictOn(previous.value, ev)), evs, |front|))
  {
    var evs, n := front + [ev], |front|;
    AddedPredecessor(front, ev, previous);
    assert evs[n] == ev;
    if previous.Some? {
      var p: nat :| IsPredecessor(evs, p, n) && evs[p] == previous.value;
      VerdictsExactly(previous.value, ev);
      if previous.value.identity.routeHash != ev.identity.routeHash {
        assert p < n && IsPredecessor(evs, p, n);
      }
    }
  }

  lemma RouteEntriesOneMore(log: seq<RouteEvent>, where: seq<nat>, front: seq<RequestEvent>, ev: RequestEvent, entry: RouteEvent)
    requires IsRouteLog(log, where, front) && IsRouteEntry(entry, front + [ev], |front|) && ChangedRoute(front + [ev], |front|)
    ensures IsRouteLog(log + [entry], where + [|front|], front + [ev])
  {
    var evs, more, longer := front + [ev], where + [|front|], log + [entry];
    EarlierEntriesStay(front, ev);
    forall k | 0 <= k < |longer|
      ensures IsRouteEntry(longer[k], evs, more[k])
    {
      if k < |log| {
        assert longer[k] == log[k] && more[k] == where[k];
      }
    }
    forall i | 0 <= i < |evs|
      ensures i in more <==> ChangedRoute(evs, i)
    {
      if i < |front| {
        assert i in more <==> i in where;
      } else {
        assert more[|where|] == i;
      }
    }
  }

  lemma RouteEntriesNoMore(log: seq<RouteEvent>, where: seq<nat>, front: seq<RequestEvent>, ev: RequestEvent)
    requires IsRouteLog(log, where, front) && !ChangedRoute(front + [ev], |front|)
    ensures IsRouteLog(log, where, front + [ev])
  {
    EarlierEntriesStay(front, ev);
    forall i | 0 <= i < |front + [ev]|
      ensures i in where <==> ChangedRoute(front + [ev], i)
    {
    }
  }

  lemma RouteLogOneMore(log: seq<RouteEvent>, where: seq<nat>, front: seq<RequestEvent>, ev: RequestEvent, previous: Option<RequestEvent>)
    returns (more: seq<nat>)
    requires IsRouteLog(log, where, front)
    requires previous == if ev.session.Some? then LastEvent(front, ev.session.value) else None
    ensures IsRouteLog(if previous.Some? && previous.value.identity.routeHash != ev.identity.routeHash then log + [RouteEvent(ev.at, ev.session, VerdictOn(previous.value, ev))] else log, more, front + [ev])
  {
    AddedRoute(front, ev, previous);
    if previous.Some? && previous.value.identity.routeHash != ev.identity.routeHash {
      RouteEntriesOneMore(log, where, front, ev, RouteEvent(ev.at, ev.session, VerdictOn(previous.value, ev)));
      more := where + [|front|];
    } else {
      RouteEntriesNoMore(log, where, front, ev);
      more := where;
    }
  }

  lemma AddedChurn(front: seq<RequestEvent>, ev: RequestEvent, previous: Option<RequestEvent>)
    requires previous == if ev.session.Some? then LastEvent(front, ev.session.value) else None
    ensures var evs, moved := front + [ev], previous.Some? && previous.value.fingerprint != ev.fingerprint;
            && (ChangedFingerprint(evs, |front|) <==> moved)
            && (moved ==> IsChurnEntry(Churn(ev.at, previous.value.fingerprint, ev.fingerprint), evs, |front|))
  {
    var evs, n := front + [ev], |front|;
    AddedPredecessor(front, ev, previous);
    assert evs[n] == ev;
    if previous.Some? {
      var p: nat :| IsPredecessor(evs, p, n) && evs[p] == previous.value;
      if previous.value.fingerprint != ev.fingerprint {
        assert p < n && IsPredecessor(evs, p, n);
      }
    }
  }

  lemma ChurnEntriesOneMore(log: seq<Churn>, where: seq<nat>, front: seq<RequestEvent>, ev: RequestEvent, entry: Churn)
    requires IsChurnLog(log, where, front) && IsChurnEntry(entry, front + [ev], |front|) && ChangedFingerprint(front + [ev], |front|)
    ensures IsChurnLog(log + [entry], where + [|front|], front + [ev])
  {
    var evs, more, longer := front + [ev], where + [|front|], log + [entry];
    EarlierEntriesStay(front, ev);
    forall k | 0 <= k < |longer|
      ensures IsChurnEntry(longer[k], evs, more[k])
    {
      if k < |log| {
        assert longer[k] == log[k] && more[k] == where[k];
      }
    }
    forall i | 0 <= i < |evs|
      ensures i in more <==> ChangedFingerprint(evs, i)
    {
      if i < |front| {
        assert i in more <==> i in where;
      } else {
        assert more[|where|] == i;
      }
    }
  }

  lemma ChurnEntriesNoMore(log: seq<Churn>, where: seq<nat>, front: seq<RequestEvent>, ev: RequestEvent)
    requires IsChurnLog(log, where, front) && !ChangedFingerprint(front + [ev], |front|)
    ensures IsChurnLog(log, where, front + [ev])
  {
    EarlierEntriesStay(front, ev);
    forall i | 0 <= i < |front + [ev]|
      ensures i in where <==> ChangedFingerprint(front + [ev], i)
    {
    }
  }

  lemma ChurnLogOneMore(log: seq<Churn>, where: seq<nat>, front: seq<RequestEvent>, ev: RequestEvent, previous: Option<RequestEvent>)
    returns (more: seq<nat>)
    requires IsChurnLog(log, where, front)
    requires previous == if ev.session.Some? then LastEvent(front, ev.session.value) else None
    ensures IsChurnLog(if previous.Some? && previous.value.fingerprint != ev.fingerprint then log + [Churn(ev.at, previous.value.fingerprint, ev.fingerprint)] else log, more, front + [ev])
  {
    AddedChurn(front, ev, previous);
    if previous.Some? && previous.value.fingerprint != ev.fingerprint {
      ChurnEntriesOneMore(log, where, front, ev, Churn(ev.at, previous.value.fingerprint, ev.fingerprint));
      more := where + [|front|];
    } else {
      ChurnEntriesNoMore(log, where, front, ev);
      more := where;
    }
  }

  /** Every request is stored, and is a row of the learner's log. */
  lemma {:induction false} RequestsAreRows(config: ObserverConfig, evs: seq<RequestEvent>)
    ensures RunObserver(config, evs).events == evs && RowsMirror(RunObserver(config, evs).store.rows, evs)
  {
    if evs != [] {
      var front, ev := evs[..|evs| - 1], evs[|evs| - 1];
      RequestsAreRows(config, front);
      assert evs == front + [ev];
    }
  }

  /** The tables after any requests of any sessions: the route log has one entry for each request whose session's previous
      request had another route, in order and with the verdict on the two, and none while route intelligence is off; the
      churn log likewise for fingerprints. Every request is stored and is a row of the learner's log. */
  lemma {:induction false} LogsAreExact(config: ObserverConfig, evs: seq<RequestEvent>) returns (routes: seq<nat>, churns: seq<nat>)
    ensures var o := RunObserver(config, evs);
            && o.events == evs && RowsMirror(o.store.rows, evs)
            && (if config.routeIntel then IsRouteLog(o.routeEvents, routes, evs) else o.routeEvents == [])
            && (if config.churnDetection then IsChurnLog(o.store.churn, churns, evs) else o.store.churn == [])
  {
    routes := RouteLogIsExact(config, evs);
    churns := ChurnLogIsExact(config, evs);
    RequestsAreRows(config, evs);
  }

  lemma {:induction false} RouteLogIsExact(config: ObserverConfig, evs: seq<RequestEvent>) returns (routes: seq<nat>)
    ensures var o := RunObserver(config, evs);
            if config.routeIntel then IsRouteLog(o.routeEvents, routes, evs) else o.routeEvents == []
  {
    routes := [];
    if evs != [] {
      var front, ev := evs[..|evs| - 1], evs[|evs| - 1];
      assert evs == front + [ev];
      routes := RouteLogIsExact(config, front);
      var o := RunObserver(config, front);
      RequestsAreRows(config, front);
      if config.routeIntel {
        routes := RouteLogOneMore(o.routeEvents, routes, front, ev, PreviousOf(o, ev));
      }
    }
  }

  lemma {:induction false} ChurnLogIsExact(config: ObserverConfig, evs: seq<RequestEvent>) returns (churns: seq<nat>)
    ensures var o := RunObserver(config, evs);
            if config.churnDetection then IsChurnLog(o.store.churn, churns, evs) else o.store.churn == []
  {
    churns := [];
    if evs != [] {
      var front, ev := evs[..|evs| - 1], evs[|evs| - 1];
      assert evs == front + [ev];
      churns := ChurnLogIsExact(config, front);
      var o := RunObserver(config, front);
      RequestsAreRows(config, front);
      if config.churnDetection {
        churns := ChurnLogOneMore(o.store.churn, churns, front, ev, PreviousOf(o, ev));
      }
    }
  }
}
