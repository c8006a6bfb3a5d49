/** The learner (ttl.py) over the tables it needs (storage.py): an append-only observation log, a churn log, and a
    profile table it maintains beside them. */
module TtlLearning {
  import opened Wrappers
  import opened Leases
  import opened TtlProfiles

  datatype Row = Row(
    timestamp: real, fingerprint: Fingerprint, identity: RouteIdentity, idleAge: Option<real>,
    outcome: Outcome, clean: bool)

  /** A transition between two cache fingerprints. */
  datatype Churn = Churn(timestamp: real, previous: Fingerprint, next: Fingerprint)

  datatype Store = Store(rows: seq<Row>, profiles: map<string, Profile>, churn: seq<Churn>)

  const EMPTY_STORE := Store([], map[], [])

  datatype TTLObservation = TTLObservation(
    outcome: Outcome, fingerprint: Fingerprint, identity: RouteIdentity, timestamp: real)

  // -- queries ----------------------------------------------------------------

  function LastRow(rows: seq<Row>, fp: Fingerprint): Option<Row> {
    if rows == [] then None
    else
      var last := rows[|rows| - 1];
      if last.fingerprint == fp then Some(last) else LastRow(rows[..|rows| - 1], fp)
  }

  /** A churn event touched the fingerprint inside the window, both ends included. */
  predicate ChurnBetween(churn: seq<Churn>, fp: Fingerprint, start: real, end: real) {
    exists i | 0 <= i < |churn| ::
      (churn[i].previous == fp || churn[i].next == fp) && start <= churn[i].timestamp <= end
  }

  function CleanRowsFor(rows: seq<Row>, id: RouteIdentity): seq<Row> {
    if rows == [] then []
    else
      var last := rows[|rows| - 1];
      CleanRowsFor(rows[..|rows| - 1], id) + if last.clean && last.identity == id then [last] else []
  }

  function ProfileFor(profiles: map<string, Profile>, key: string): Option<Profile> {
    if key in profiles then Some(profiles[key]) else None
  }

  /** On a key conflict the identity columns of the first insert stay. */
  function Upserted(profiles: map<string, Profile>, key: string, p: Profile): map<string, Profile> {
    profiles[key := if key in profiles then p.(identity := profiles[key].identity) else p]
  }

  // -- one observation --------------------------------------------------------

  /** The time since the previous observation of the same fingerprint, when it is positive. */
  function IdleAge(store: Store, obs: TTLObservation): Option<real> {
    var previous := LastRow(store.rows, obs.fingerprint);
    if previous.Some? && obs.timestamp - previous.value.timestamp > 0.0
    then Some(obs.timestamp - previous.value.timestamp) else None
  }

  /** The pair is evidence: a positive idle age, the same route, no churn in between. */
  predicate IsClean(store: Store, obs: TTLObservation) {
    && IdleAge(store, obs).Some?
    && var previous := LastRow(store.rows, obs.fingerprint).value;
    && previous.identity.routeHash == obs.identity.routeHash
    && !ChurnBetween(store.churn, obs.fingerprint, previous.timestamp, obs.timestamp)
  }

  predicate RouteMoved(store: Store, obs: TTLObservation) {
    var previous := LastRow(store.rows, obs.fingerprint);
    previous.Some? && previous.value.identity.routeHash != obs.identity.routeHash
  }

  function NewRow(store: Store, obs: TTLObservation): Row {
    Row(obs.timestamp, obs.fingerprint, obs.identity, IdleAge(store, obs), obs.outcome, IsClean(store, obs))
  }

  /** The profile table after the observation, under the key of its route. */
  function LearnedProfiles(store: Store, obs: TTLObservation, key: string): map<string, Profile> {
    var profile := ProfileFor(store.profiles, key);
    if IsClean(store, obs) then
      Upserted(store.profiles, key,
               Observed(profile.UnwrapOr(NewProfile(obs.identity)), obs.outcome, IdleAge(store, obs)))
    else if RouteMoved(store, obs) && profile.Some? then
      Upserted(store.profiles, key, Restarted(profile.value))
    else store.profiles
  }

  function Learned(store: Store, obs: TTLObservation): Store {
    Store(store.rows + [NewRow(store, obs)], LearnedProfiles(store, obs, JoinKey(obs.identity)), store.churn)
  }

  class TelemetryStore {
    var rows: seq<Row>
    var profiles: map<string, Profile>
    var churn: seq<Churn>

    constructor ()
      ensures View() == EMPTY_STORE
    {
      rows, profiles, churn := [], map[], [];
    }

    function View(): Store
      reads this
    {
      Store(rows, profiles, churn)
    }

    method RecordTtlObservation(row: Row) returns (id: nat)
      modifies this`rows
      ensures rows == old(rows) + [row] && id == |rows|
    {
      rows := rows + [row];
      id := |rows|;
    }

    method RecordChurn(event: Churn) returns (id: nat)
      modifies this`churn
      ensures churn == old(churn) + [event] && id == |churn|
    {
      churn := churn + [event];
      id := |churn|;
    }

    method UpsertProfile(profile: Profile)
      modifies this`profiles
      ensures profiles == Upserted(old(profiles), JoinKey(profile.identity), profile)
    {
      var key := JoinKey(profile.identity);
      if key in profiles {
        profiles := profiles[key := profile.(identity := profiles[key].identity)];
      } else {
        profiles := profiles[key := profile];
      }
    }
  }

  class TTLLearner {
    const store: TelemetryStore

    constructor (store: TelemetryStore)
      ensures this.store == store
    {
      this.store := store;
    }

    /** Record one observation and refine the route's profile; the result is the profile now stored for it. */
    method Learn(obs: TTLObservation) returns (result: Option<Profile>)
      requires WellKeyed(store.profiles)
      modifies store
      ensures store.View() == Learned(old(store.View()), obs) && WellKeyed(store.profiles)
      ensures result == ProfileFor(store.profiles, JoinKey(obs.identity))
    {
      var key := JoinKey(obs.identity);
      var previous := LastRow(store.rows, obs.fingerprint);
      var idleAge: Option<real>, clean := None, false;
      if previous.Some? {
        var delta := obs.timestamp - previous.value.timestamp;
        if delta > 0.0 {
          idleAge := Some(delta);
          clean := previous.value.identity.routeHash == obs.identity.routeHash
            && !ChurnBetween(store.churn, obs.fingerprint, previous.value.timestamp, obs.timestamp);
        }
      }
      var _ := store.RecordTtlObservation(
        Row(obs.timestamp, obs.fingerprint, obs.identity, idleAge, obs.outcome, clean));
      var stored := ProfileFor(store.profiles, key);
      if clean && idleAge.Some? {
        var profile := new TTLProfile(stored.UnwrapOr(NewProfile(obs.identity)));
        profile.Observe(obs.outcome, idleAge);
        store.UpsertProfile(profile.View());
        return Some(profile.View());
      }
      if previous.Some? && previous.value.identity.routeHash != obs.identity.routeHash && stored.Some? {
        var profile := new TTLProfile(stored.value);
        profile.confidence := FRESH_CONFIDENCE;
        store.UpsertProfile(profile.View());
        return Some(profile.View());
      }
      return stored;
    }
  }

  /** Every profile is stored under its own key. */
  predicate WellKeyed(profiles: map<string, Profile>) {
    forall key | key in profiles :: JoinKey(profiles[key].identity) == key
  }

  // -- runs -------------------------------------------------------------------

  datatype StoreEvent = Learn(obs: TTLObservation) | SeeChurn(event: Churn)

  function StepStore(store: Store, ev: StoreEvent): Store {
    match ev
    case Learn(obs) => Learned(store, obs)
    case SeeChurn(event) => store.(churn := store.churn + [event])
  }

  function RunStore(store: Store, events: seq<StoreEvent>): Store
    decreases |events|
  {
    if events == [] then store else RunStore(StepStore(store, events[0]), events[1..])
  }

  // -- the profile table is a view of the log ---------------------------------

  /** The oldest age a hit survived to, among the given rows. */
  function MaxHit(rows: seq<Row>): Option<real> {
    if rows == [] then None
    else
      var front, last := MaxHit(rows[..|rows| - 1]), rows[|rows| - 1];
      if last.outcome == ConfirmedHit && last.idleAge.Some?
      then Some(Max(front.UnwrapOr(last.idleAge.value), last.idleAge.value)) else front
  }

  /** The youngest age at which a miss was seen. */
  function MinMiss(rows: seq<Row>): Option<real> {
    if rows == [] then None
    else
      var front, last := MinMiss(rows[..|rows| - 1]), rows[|rows| - 1];
      if last.outcome == MissRebuilt && last.idleAge.Some?
      then Some(Min(front.UnwrapOr(last.idleAge.value), last.idleAge.value)) else front
  }

  function VerifiedRows(rows: seq<Row>): nat {
    if rows == [] then 0
    else
      var last := rows[|rows| - 1];
      VerifiedRows(rows[..|rows| - 1])
      + if (last.outcome == ConfirmedHit || last.outcome == MissRebuilt) && last.idleAge.Some? then 1 else 0
  }

  predicate PositiveAges(rows: seq<Row>) {
    forall i | 0 <= i < |rows| :: rows[i].idleAge.Some? && rows[i].idleAge.value > 0.0
  }

  predicate IsViewOf(p: Profile, rows: seq<Row>) {
    && p.lower == MaxHit(rows) && p.upper == MinMiss(rows) && p.sampleCount == VerifiedRows(rows)
    && p.estimate == Estimate(p.lower, p.upper, None)
  }

  /** The stored profile, if any, is the view of the identity's clean rows; without one there are none. */
  predicate StoredMatches(stored: Option<Profile>, rows: seq<Row>, id: RouteIdentity) {
    && PositiveAges(rows)
    && match stored
       case Some(p) => p.identity == id && IsViewOf(p, rows)
       case None => rows == []
  }

  predicate ProfileMatchesLog(store: Store, id: RouteIdentity) {
    StoredMatches(ProfileFor(store.profiles, JoinKey(id)), CleanRowsFor(store.rows, id), id)
  }

  ghost predicate TableMatchesLog(store: Store) {
    forall id {:trigger ProfileMatchesLog(store, id)} | WellFormed(id) :: ProfileMatchesLog(store, id)
  }

  lemma CleanRowsAppend(rows: seq<Row>, row: Row, id: RouteIdentity)
    ensures CleanRowsFor(rows + [row], id)
            == if row.clean && row.identity == id then CleanRowsFor(rows, id) + [row] else CleanRowsFor(rows, id)
  {
    assert (rows + [row])[..|rows|] == rows;
    assert CleanRowsFor(rows, id) + [] == CleanRowsFor(rows, id);
  }

  /** Observing a row is appending it to the rows the profile is a view of. */
  lemma ObservingIsAppending(p: Profile, rows: seq<Row>, row: Row)
    requires IsViewOf(p, rows) && PositiveAges(rows) && PositiveAges([row])
    ensures IsViewOf(Observed(p, row.outcome, row.idleAge), rows + [row]) && PositiveAges(rows + [row])
  {
    assert (rows + [row])[..|rows|] == rows;
    assert [row][0] == row;
    MaxHitIsPositive(rows);
  }

  lemma {:induction false} MaxHitIsPositive(rows: seq<Row>)
    requires PositiveAges(rows)
    ensures MaxHit(rows).Some? ==> MaxHit(rows).value > 0.0
  {
    if rows != [] {
      MaxHitIsPositive(rows[..|rows| - 1]);
    }
  }

  /** Learning writes at most the profile under its own key. */
  lemma OtherKeysStay(store: Store, obs: TTLObservation, key: string, other: string)
    requires other != key
    ensures ProfileFor(LearnedProfiles(store, obs, key), other) == ProfileFor(store.profiles, other)
  {
  }

  lemma OwnKeyMatches(store: Store, obs: TTLObservation, key: string, rows: seq<Row>)
    requires StoredMatches(ProfileFor(store.profiles, key), rows, obs.identity)
    ensures StoredMatches(
              ProfileFor(LearnedProfiles(store, obs, key), key),
              if IsClean(store, obs) then rows + [NewRow(store, obs)] else rows, obs.identity)
  {
    var stored := ProfileFor(store.profiles, key);
    if IsClean(store, obs) {
      var p := stored.UnwrapOr(NewProfile(obs.identity));
      assert IsViewOf(p, rows) && p.identity == obs.identity;
      ObservingIsAppending(p, rows, NewRow(store, obs));
    }
  }

  lemma LearnKeepsMatch(store: Store, obs: TTLObservation, id: RouteIdentity)
    requires TableMatchesLog(store) && WellFormed(obs.identity) && WellFormed(id)
    ensures ProfileMatchesLog(Learned(store, obs), id)
  {
    assert ProfileMatchesLog(store, id);
    CleanRowsAppend(store.rows, NewRow(store, obs), id);
    if id == obs.identity {
      OwnKeyMatches(store, obs, JoinKey(id), CleanRowsFor(store.rows, id));
    } else {
      if JoinKey(id) == JoinKey(obs.identity) {
        JoinKeyIsInjective(id, obs.identity);
      }
      OtherKeysStay(store, obs, JoinKey(obs.identity), JoinKey(id));
    }
  }

  predicate WellFormedEvent(ev: StoreEvent) {
    ev.Learn? ==> WellFormed(ev.obs.identity)
  }

  lemma {:induction false} RunKeepsMatch(store: Store, events: seq<StoreEvent>)
    requires TableMatchesLog(store) && forall i | 0 <= i < |events| :: WellFormedEvent(events[i])
    ensures TableMatchesLog(RunStore(store, events))
    decreases |events|
  {
    if events != [] {
      var next := StepStore(store, events[0]);
      assert WellFormedEvent(events[0]);
      forall id | WellFormed(id)
        ensures ProfileMatchesLog(next, id)
      {
        if events[0].Learn? {
          LearnKeepsMatch(store, events[0].obs, id);
        } else {
          assert ProfileMatchesLog(store, id);
        }
      }
      RunKeepsMatch(next, events[1..]);
    }
  }

  /** After any sequence of observations and churn on a fresh store, whatever the clock does: the profile of an identity
      is exactly the max-hit / min-miss / count view of its clean rows, and is absent only when there are none. */
  lemma ProfileTableIsAViewOfTheLog(events: seq<StoreEvent>, id: RouteIdentity)
    requires WellFormed(id) && forall i | 0 <= i < |events| :: WellFormedEvent(events[i])
    ensures ProfileMatchesLog(RunStore(EMPTY_STORE, events), id)
  {
    assert TableMatchesLog(EMPTY_STORE);
    RunKeepsMatch(EMPTY_STORE, events);
  }

  /** The two recursive summaries are what their names say. */
  lemma {:induction false} BoundsAreExtremes(rows: seq<Row>)
    ensures MaxHit(rows).Some? <==> exists i | 0 <= i < |rows| :: rows[i].outcome == ConfirmedHit && rows[i].idleAge.Some?
    ensures MaxHit(rows).Some? ==>
              (exists i | 0 <= i < |rows| :: rows[i].outcome == ConfirmedHit && rows[i].idleAge == Some(MaxHit(rows).value))
              && forall i | 0 <= i < |rows| && rows[i].outcome == ConfirmedHit && rows[i].idleAge.Some? ::
                   rows[i].idleAge.value <= MaxHit(rows).value
    ensures MinMiss(rows).Some? <==> exists i | 0 <= i < |rows| :: rows[i].outcome == MissRebuilt && rows[i].idleAge.Some?
    ensures MinMiss(rows).Some? ==>
              (exists i | 0 <= i < |rows| :: rows[i].outcome == MissRebuilt && rows[i].idleAge == Some(MinMiss(rows).value))
              && forall i | 0 <= i < |rows| && rows[i].outcome == MissRebuilt && rows[i].idleAge.Some? ::
                   rows[i].idleAge.value >= MinMiss(rows).value
  {
    if rows != [] {
      var n := |rows| - 1;
      BoundsAreExtremes(rows[..n]);
      assert forall i | 0 <= i < n :: rows[..n][i] == rows[i];
    }
  }

  // -- one observation, on the tables -----------------------------------------

  /** Row k is the latest of the observed fingerprint; it is earlier than the observation and of the same
      route, and no recorded churn touches the fingerprint from the one to the other. */
  predicate PairsCleanly(store: Store, obs: TTLObservation, k: nat) {
    && k < |store.rows| && store.rows[k].fingerprint == obs.fingerprint
    && (forall j | k < j < |store.rows| :: store.rows[j].fingerprint != obs.fingerprint)
    && store.rows[k].timestamp < obs.timestamp && store.rows[k].identity.routeHash == obs.identity.routeHash
    && (forall c | c in store.churn && (c.previous == obs.fingerprint || c.next == obs.fingerprint) ::
          !(store.rows[k].timestamp <= c.timestamp <= obs.timestamp))
  }

  lemma {:induction false} LastRowIsTheLatest(rows: seq<Row>, fp: Fingerprint)
    ensures LastRow(rows, fp).None? ==> forall j | 0 <= j < |rows| :: rows[j].fingerprint != fp
    ensures LastRow(rows, fp).Some? ==>
              exists k: nat :: k < |rows| && rows[k] == LastRow(rows, fp).value && rows[k].fingerprint == fp
                               && forall j | k < j < |rows| :: rows[j].fingerprint != fp
  {
    if rows != [] {
      var n := |rows| - 1;
      LastRowIsTheLatest(rows[..n], fp);
      if rows[n].fingerprint != fp && LastRow(rows, fp).Some? {
        var k: nat :| k < n && rows[..n][k] == LastRow(rows[..n], fp).value && rows[..n][k].fingerprint == fp
                      && forall j | k < j < n :: rows[..n][j].fingerprint != fp;
        assert forall j | k < j < n :: rows[..n][j] == rows[j];
        assert rows[k] == LastRow(rows, fp).value;
      }
    }
  }

  /** What the learner's test comes to on the tables. */
  lemma CleanMeansPaired(store: Store, obs: TTLObservation)
    ensures IsClean(store, obs) <==> exists k: nat :: PairsCleanly(store, obs, k)
  {
    LastRowIsTheLatest(store.rows, obs.fingerprint);
    if IsClean(store, obs) {
      var last := LastRow(store.rows, obs.fingerprint).value;
      var k: nat :| k < |store.rows| && store.rows[k] == last && store.rows[k].fingerprint == obs.fingerprint
                    && forall j | k < j < |store.rows| :: store.rows[j].fingerprint != obs.fingerprint;
      forall c | c in store.churn && (c.previous == obs.fingerprint || c.next == obs.fingerprint)
        ensures !(last.timestamp <= c.timestamp <= obs.timestamp)
      {
        var i :| 0 <= i < |store.churn| && store.churn[i] == c;
      }
      assert PairsCleanly(store, obs, k);
    }
  }

  /** The row an observation adds: its idle age is the time since the latest row of its fingerprint, if that is earlier. */
  lemma NewRowExactly(store: Store, obs: TTLObservation)
    ensures var row := NewRow(store, obs);
            && Learned(store, obs).rows == store.rows + [row] && Learned(store, obs).churn == store.churn
            && row.timestamp == obs.timestamp && row.fingerprint == obs.fingerprint && row.identity == obs.identity
            && row.outcome == obs.outcome && (row.clean <==> exists k: nat :: PairsCleanly(store, obs, k))
            && (row.idleAge.Some? <==> exists k: nat :: IsLatestOf(store.rows, obs.fingerprint, k) && store.rows[k].timestamp < obs.timestamp)
            && (forall k: nat | IsLatestOf(store.rows, obs.fingerprint, k) && store.rows[k].timestamp < obs.timestamp ::
                  row.idleAge == Some(obs.timestamp - store.rows[k].timestamp))
  {
    CleanMeansPaired(store, obs);
    LastRowIsTheLatest(store.rows, obs.fingerprint);
    LatestIsLastRow(store.rows, obs.fingerprint);
  }

  predicate IsLatestOf(rows: seq<Row>, fp: Fingerprint, k: nat) {
    k < |rows| && rows[k].fingerprint == fp && forall j | k < j < |rows| :: rows[j].fingerprint != fp
  }

  lemma {:induction false} LatestIsLastRow(rows: seq<Row>, fp: Fingerprint)
    ensures forall k: nat | IsLatestOf(rows, fp, k) :: LastRow(rows, fp) == Some(rows[k])
    ensures LastRow(rows, fp).Some? ==> exists k: nat :: IsLatestOf(rows, fp, k)
  {
    LastRowIsTheLatest(rows, fp);
    if LastRow(rows, fp).Some? {
      var k: nat :| k < |rows| && rows[k] == LastRow(rows, fp).value && rows[k].fingerprint == fp
                    && forall j | k < j < |rows| :: rows[j].fingerprint != fp;
      assert IsLatestOf(rows, fp, k);
      forall m: nat | IsLatestOf(rows, fp, m)
        ensures m == k
      {
      }
    }
  }

  /** What an observation does to the profile of its route. A clean one is observed, on a fresh profile if there was none; one
      that is not clean but follows another route of its fingerprint only restarts a profile's confidence at one half; any
      other leaves the table alone. No observation touches another profile. */
  lemma LearningExactly(store: Store, obs: TTLObservation, other: string)
    ensures var key, before := JoinKey(obs.identity), ProfileFor(store.profiles, JoinKey(obs.identity));
            var after := ProfileFor(Learned(store, obs).profiles, key);
            var clean, row := exists k: nat :: PairsCleanly(store, obs, k), NewRow(store, obs);
            var moved := exists k: nat :: IsLatestOf(store.rows, obs.fingerprint, k) && store.rows[k].identity.routeHash != obs.identity.routeHash;
            && (clean && before.Some? ==> after == Some(Observed(before.value, obs.outcome, row.idleAge)))
            && (clean && before.None? ==> after == Some(Observed(NewProfile(obs.identity), obs.outcome, row.idleAge)))
            && (!clean && moved && before.Some? ==> after == Some(before.value.(confidence := 0.5)))
            && (!clean && (!moved || before.None?) ==> after == before)
            && (other != key ==> ProfileFor(Learned(store, obs).profiles, other) == ProfileFor(store.profiles, other))
  {
    CleanMeansPaired(store, obs);
    LatestIsLastRow(store.rows, obs.fingerprint);
  }

  /** Inserting or replacing a profile: on a known key everything but the identity columns is replaced. */
  lemma UpsertingExactly(profiles: map<string, Profile>, key: string, p: Profile, other: string)
    ensures var after := Upserted(profiles, key, p);
            && key in after && after[key].lower == p.lower && after[key].upper == p.upper
            && after[key].estimate == p.estimate && after[key].confidence == p.confidence
            && after[key].sampleCount == p.sampleCount
            && after[key].identity == (if key in profiles then profiles[key].identity else p.identity)
            && (other != key ==> ProfileFor(after, other) == ProfileFor(profiles, other))
  {
  }

  /** Over any run the stored estimate lies seven twentieths of the way from the oldest clean hit (zero without one) to the
      youngest clean miss; without a miss it is the oldest clean hit, and it is absent without either. */
  lemma LearnedEstimateExactly(events: seq<StoreEvent>, id: RouteIdentity)
    requires WellFormed(id) && forall i | 0 <= i < |events| :: WellFormedEvent(events[i])
    requires JoinKey(id) in RunStore(EMPTY_STORE, events).profiles
    ensures var store := RunStore(EMPTY_STORE, events);
            var estimate, rows := store.profiles[JoinKey(id)].estimate, CleanRowsFor(store.rows, id);
            var hit, miss := MaxHit(rows), MinMiss(rows);
            && (estimate.None? <==> hit.None? && miss.None?)
            && (miss.Some? ==> 20.0 * (estimate.value - hit.UnwrapOr(0.0)) == 7.0 * (miss.value - hit.UnwrapOr(0.0)))
            && (miss.None? && hit.Some? ==> estimate == hit)
  {
    ProfileTableIsAViewOfTheLog(events, id);
    var store := RunStore(EMPTY_STORE, events);
    var rows := CleanRowsFor(store.rows, id);
    EstimateExactly(MaxHit(rows), MinMiss(rows), None);
    MaxHitIsPositive(rows);
  }
}
