/** Two readings of the same log: the learned profile and the survival curve of its rows (survival.py,
    curve_from_profile) are built by separate code and must agree. */
module ProfileCurve {
  import opened Wrappers
  import opened TtlProfiles
  import opened TtlLearning
  import opened SurvivalSpec
  import opened SurvivalBounds
  import opened SurvivalEstimator

  /** Clean rows with an idle age, as survival observations. */
  function Observations(rows: seq<Row>): seq<SurvivalObservation> {
    if rows == [] then []
    else
      var last := rows[|rows| - 1];
      Observations(rows[..|rows| - 1])
      + if last.clean && last.idleAge.Some? then [SurvivalObservation(last.idleAge, last.outcome)] else []
  }

  function RowEvidence(rows: seq<Row>): seq<Evidence> {
    EvidenceOf(Observations(rows))
  }

  method CurveFromProfile(store: TelemetryStore, profile: Profile) returns (curve: Curve)
    ensures Describes(curve, RowEvidence(CleanRowsFor(store.rows, profile.identity)))
  {
    curve := EstimateSurvival(Observations(CleanRowsFor(store.rows, profile.identity)));
  }

  // -- rows and evidence ------------------------------------------------------

  lemma {:induction false} EvidenceAppend(a: seq<SurvivalObservation>, b: seq<SurvivalObservation>)
    ensures EvidenceOf(a + b) == EvidenceOf(a) + EvidenceOf(b)
  {
    if a == [] {
      assert a + b == b;
    } else {
      assert (a + b)[0] == a[0] && (a + b)[1..] == a[1..] + b;
      EvidenceAppend(a[1..], b);
    }
  }

  predicate IsVerifiedRow(row: Row) {
    row.outcome == ConfirmedHit || row.outcome == MissRebuilt
  }

  predicate CleanAndPositive(rows: seq<Row>) {
    PositiveAges(rows) && forall i | 0 <= i < |rows| :: rows[i].clean
  }

  /** The evidence of rows grows by the last row, when that is verified. */
  lemma EvidenceOfLastRow(rows: seq<Row>)
    requires CleanAndPositive(rows) && rows != []
    ensures var last := rows[|rows| - 1];
            RowEvidence(rows) == RowEvidence(rows[..|rows| - 1])
              + if IsVerifiedRow(last) then [Evidence(last.idleAge.value, last.outcome == MissRebuilt)] else []
  {
    var last := rows[|rows| - 1];
    var o := [SurvivalObservation(last.idleAge, last.outcome)];
    EvidenceAppend(Observations(rows[..|rows| - 1]), o);
    assert o[1..] == [] && EvidenceOf(o[1..]) == [];
  }

  /** How the evidence summarises: as many as the verified rows, its first death the least miss, its hits up to the
      greatest hit. */
  predicate Summarises(rows: seq<Row>, ev: seq<Evidence>) {
    && |ev| == VerifiedRows(rows)
    && (forall i | 0 <= i < |ev| :: ev[i].age > 0.0)
    && (forall i | 0 <= i < |ev| && ev[i].died :: MinMiss(rows).Some? && MinMiss(rows).value <= ev[i].age)
    && (forall i | 0 <= i < |ev| && !ev[i].died :: MaxHit(rows).Some? && ev[i].age <= MaxHit(rows).value)
    && (MinMiss(rows).Some? ==> Evidence(MinMiss(rows).value, true) in ev)
    && (MaxHit(rows).Some? ==> Evidence(MaxHit(rows).value, false) in ev)
  }

  lemma {:induction false} EvidenceSummarises(rows: seq<Row>)
    requires CleanAndPositive(rows)
    ensures Summarises(rows, RowEvidence(rows))
  {
    if rows != [] {
      var front, last := rows[..|rows| - 1], rows[|rows| - 1];
      EvidenceSummarises(front);
      EvidenceOfLastRow(rows);
      SummaryOfLastRow(rows, RowEvidence(front), RowEvidence(rows));
    }
  }

  lemma SummaryOfLastRow(rows: seq<Row>, front: seq<Evidence>, ev: seq<Evidence>)
    requires CleanAndPositive(rows) && rows != [] && Summarises(rows[..|rows| - 1], front)
    requires var last := rows[|rows| - 1];
             ev == front + if IsVerifiedRow(last) then [Evidence(last.idleAge.value, last.outcome == MissRebuilt)] else []
    ensures Summarises(rows, ev)
  {
    var last := rows[|rows| - 1];
    assert forall e | e in front :: e in ev;
    if IsVerifiedRow(last) {
      assert ev[|front|] == Evidence(last.idleAge.value, last.outcome == MissRebuilt);
    }
  }

  lemma {:induction false} CleanRowsAreClean(rows: seq<Row>, id: RouteIdentity)
    ensures forall i | 0 <= i < |CleanRowsFor(rows, id)| :: CleanRowsFor(rows, id)[i].clean
  {
    if rows != [] {
      CleanRowsAreClean(rows[..|rows| - 1], id);
    }
  }

  // -- agreement --------------------------------------------------------------

  lemma CertainBeforeFirstDeath(ev: seq<Evidence>, first: Option<real>, t: real)
    requires forall i | 0 <= i < |ev| && ev[i].died :: first.Some? && first.value <= ev[i].age
    requires first.Some? ==> t < first.value
    ensures Survival(ev, t) == 1.0
  {
    assert DeathAges(ev, t) == {};
  }

  lemma UncertainFromFirstDeath(ev: seq<Evidence>, first: real, t: real)
    requires Evidence(first, true) in ev && first <= t
    requires forall i | 0 <= i < |ev| && ev[i].died :: first <= ev[i].age
    ensures Survival(ev, t) < 1.0
  {
    var i :| 0 <= i < |ev| && ev[i] == Evidence(first, true);
    assert first in DeathAges(ev, first);
    assert DeathAges(ev, first) == {} + {first};
    DeathCounts(ev, first);
    ProductOfLarger(ev, {}, first);
    SurvivalIsAntitone(ev, first, t);
  }

  /** Some observation is at least that old: the curve is defined at the age. */
  predicate WithinHorizon(ev: seq<Evidence>, age: real) {
    exists i | 0 <= i < |ev| :: age <= ev[i].age
  }

  /** The profile's estimate never lies beyond the last observation, so the curve is defined there. */
  lemma EstimateIsWithinHorizon(p: Profile, rows: seq<Row>, ev: seq<Evidence>)
    requires IsViewOf(p, rows) && Summarises(rows, ev) && p.estimate.Some?
    ensures WithinHorizon(ev, p.estimate.value)
  {
    if p.upper.Some? && p.lower.UnwrapOr(0.0) <= p.upper.value {
      var i :| 0 <= i < |ev| && ev[i] == Evidence(p.upper.value, true);
    } else {
      assert p.lower.Some?;
      var i :| 0 <= i < |ev| && ev[i] == Evidence(p.lower.value, false);
    }
  }

  lemma FirstStepIsUpperBound(curve: Curve, ev: seq<Evidence>, first: Option<real>)
    requires Describes(curve, ev)
    requires forall i | 0 <= i < |ev| && ev[i].died :: first.Some? && first.value <= ev[i].age
    requires first.Some? ==> Evidence(first.value, true) in ev
    ensures curve.steps == [] <==> first.None?
    ensures curve.steps != [] ==> curve.steps[0].age == first.value
  {
    if first.Some? {
      var i :| 0 <= i < |ev| && ev[i] == Evidence(first.value, true);
      assert HasStep(curve.steps, ev[i].age);
    }
    if curve.steps != [] {
      assert StepFits(curve.steps[0], ev);
    }
  }

  /** For every run of the learner on a fresh store and every profile it keeps: the survival curve of its rows has the
      same sample count, its first step is the learned upper bound, and at the estimated TTL the curve is defined and
      is exactly 1 precisely when there is no miss or the lower bound is below the upper one. */
  lemma ProfileAndCurveAgree(events: seq<StoreEvent>, id: RouteIdentity, curve: Curve)
    requires WellFormed(id) && forall i | 0 <= i < |events| :: WellFormedEvent(events[i])
    requires JoinKey(id) in RunStore(EMPTY_STORE, events).profiles
    requires Describes(curve, RowEvidence(CleanRowsFor(RunStore(EMPTY_STORE, events).rows, id)))
    ensures var store := RunStore(EMPTY_STORE, events);
            var p, ev := store.profiles[JoinKey(id)], RowEvidence(CleanRowsFor(store.rows, id));
            && curve.sampleCount == p.sampleCount
            && (curve.steps == [] <==> p.upper.None?)
            && (curve.steps != [] ==> curve.steps[0].age == p.upper.value)
            && (p.estimate.Some? ==>
                  && WithinHorizon(ev, p.estimate.value)
                  && (Survival(ev, p.estimate.value) == 1.0 <==>
                        p.upper.None? || p.lower.UnwrapOr(0.0) < p.upper.value))
  {
    var store := RunStore(EMPTY_STORE, events);
    ProfileTableIsAViewOfTheLog(events, id);
    var rows := CleanRowsFor(store.rows, id);
    CleanRowsAreClean(store.rows, id);
    ViewAndCurveAgree(store.profiles[JoinKey(id)], rows, curve);
  }

  lemma ViewAndCurveAgree(p: Profile, rows: seq<Row>, curve: Curve)
    requires IsViewOf(p, rows) && CleanAndPositive(rows) && Describes(curve, RowEvidence(rows))
    ensures curve.sampleCount == p.sampleCount
    ensures curve.steps == [] <==> p.upper.None?
    ensures curve.steps != [] ==> curve.steps[0].age == p.upper.value
    ensures p.estimate.Some? ==>
              && WithinHorizon(RowEvidence(rows), p.estimate.value)
              && (Survival(RowEvidence(rows), p.estimate.value) == 1.0 <==>
                    p.upper.None? || p.lower.UnwrapOr(0.0) < p.upper.value)
  {
    var ev := RowEvidence(rows);
    EvidenceSummarises(rows);
    FirstStepIsUpperBound(curve, ev, MinMiss(rows));
    if p.estimate.Some? {
      EstimateIsWithinHorizon(p, rows, ev);
      if p.upper.None? || p.estimate.value < p.upper.value {
        CertainBeforeFirstDeath(ev, MinMiss(rows), p.estimate.value);
      } else {
        UncertainFromFirstDeath(ev, p.upper.value, p.estimate.value);
      }
    }
  }
}
