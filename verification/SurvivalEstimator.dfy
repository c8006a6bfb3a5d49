/** The empirical survival estimator (survival.py): the nested loop, proved to compute the product-limit curve. */
module SurvivalEstimator {
  import opened Wrappers
  import opened SurvivalSpec

  datatype SurvivalObservation = SurvivalObservation(idleAge: Option<real>, outcome: Outcome)

  datatype Step = Step(age: real, survival: real, atRisk: nat, events: nat)

  datatype Curve = Curve(steps: seq<Step>, sampleCount: nat, horizon: Option<real>)

  /** Only verified outcomes with a non-negative age are survival evidence. */
  function EvidenceOf(observations: seq<SurvivalObservation>): seq<Evidence> {
    if observations == [] then []
    else
      var o := observations[0];
      (if o.idleAge.Some? && o.idleAge.value >= 0.0 && (o.outcome == ConfirmedHit || o.outcome == MissRebuilt)
       then [Evidence(o.idleAge.value, o.outcome == MissRebuilt)] else [])
      + EvidenceOf(observations[1..])
  }

  /** How many observations are this piece of evidence: verified, at this non-negative age, and a miss exactly when it
      died there. */
  function TimesObserved(observations: seq<SurvivalObservation>, e: Evidence): nat {
    if observations == [] then 0
    else
      (if e.age >= 0.0 && observations[0] == SurvivalObservation(Some(e.age), if e.died then MissRebuilt else ConfirmedHit)
       then 1 else 0)
      + TimesObserved(observations[1..], e)
  }

  /** Nothing else is evidence, and nothing is lost or counted twice. */
  lemma {:induction false} EvidenceIsExact(observations: seq<SurvivalObservation>, e: Evidence)
    ensures multiset(EvidenceOf(observations))[e] == TimesObserved(observations, e)
  {
    if observations != [] {
      EvidenceIsExact(observations[1..], e);
    }
  }

  // -- sorting ----------------------------------------------------------------

  predicate SortedByAge(s: seq<Evidence>) {
    forall i, j | 0 <= i < j < |s| :: s[i].age <= s[j].age
  }

  function Insert(e: Evidence, s: seq<Evidence>): seq<Evidence> {
    if s == [] || e.age <= s[0].age then [e] + s else [s[0]] + Insert(e, s[1..])
  }

  function Sorted(s: seq<Evidence>): seq<Evidence> {
    if s == [] then [] else Insert(s[0], Sorted(s[1..]))
  }

  lemma {:induction false} InsertPermutes(e: Evidence, s: seq<Evidence>)
    ensures multiset(Insert(e, s)) == multiset(s) + multiset{e}
  {
    if s != [] && e.age > s[0].age {
      InsertPermutes(e, s[1..]);
      assert s == [s[0]] + s[1..];
    }
  }

  /** Inserting keeps the order, and the new first age is one of the two old candidates. */
  lemma {:induction false} InsertSorts(e: Evidence, s: seq<Evidence>)
    requires SortedByAge(s)
    ensures SortedByAge(Insert(e, s)) && Insert(e, s) != []
    ensures Insert(e, s)[0] == e || (s != [] && Insert(e, s)[0] == s[0])
  {
    if s != [] && e.age > s[0].age {
      InsertSorts(e, s[1..]);
      PrependSorted(s[0], Insert(e, s[1..]));
    } else {
      PrependSorted(e, s);
    }
  }

  lemma PrependSorted(e: Evidence, s: seq<Evidence>)
    requires SortedByAge(s) && (s != [] ==> e.age <= s[0].age)
    ensures SortedByAge([e] + s)
  {
  }

  lemma {:induction false} SortedIsASortedPermutation(s: seq<Evidence>)
    ensures SortedByAge(Sorted(s)) && multiset(Sorted(s)) == multiset(s) && |Sorted(s)| == |s|
  {
    if s != [] {
      SortedIsASortedPermutation(s[1..]);
      InsertSorts(s[0], Sorted(s[1..]));
      InsertPermutes(s[0], Sorted(s[1..]));
      assert s == [s[0]] + s[1..];
    }
    assert |multiset(Sorted(s))| == |Sorted(s)| && |multiset(s)| == |s|;
  }

  // -- what a curve says ------------------------------------------------------

  ghost predicate StepFits(step: Step, obs: seq<Evidence>) {
    && step.age in DeathAges(obs, step.age)
    && step.survival == Survival(obs, step.age)
    && step.atRisk == Count(obs, AtLeast(step.age))
    && step.events == Count(obs, DiedAt(step.age))
  }

  predicate Increasing(steps: seq<Step>) {
    forall i, j | 0 <= i < j < |steps| :: steps[i].age < steps[j].age
  }

  predicate HasStep(steps: seq<Step>, age: real) {
    exists k | 0 <= k < |steps| :: steps[k].age == age
  }

  predicate IsHorizon(obs: seq<Evidence>, horizon: Option<real>) {
    if obs == [] then horizon == None
    else
      && horizon.Some? && (forall i | 0 <= i < |obs| :: obs[i].age <= horizon.value)
      && (exists i | 0 <= i < |obs| :: obs[i].age == horizon.value)
  }

  ghost predicate AllFit(steps: seq<Step>, obs: seq<Evidence>) {
    forall k {:trigger StepFits(steps[k], obs)} | 0 <= k < |steps| :: StepFits(steps[k], obs)
  }

  predicate DeathsHaveSteps(steps: seq<Step>, obs: seq<Evidence>, n: nat)
    requires n <= |obs|
  {
    forall i {:trigger HasStep(steps, obs[i].age)} | 0 <= i < n && obs[i].died :: HasStep(steps, obs[i].age)
  }

  /** One step per distinct death age, in increasing order, each with the declarative counts and estimate. */
  ghost predicate StepsFit(steps: seq<Step>, obs: seq<Evidence>) {
    Increasing(steps) && AllFit(steps, obs) && DeathsHaveSteps(steps, obs, |obs|)
  }

  ghost predicate Describes(curve: Curve, obs: seq<Evidence>) {
    curve.sampleCount == |obs| && IsHorizon(obs, curve.horizon) && StepsFit(curve.steps, obs)
  }

  // -- the loop ---------------------------------------------------------------

  function DeathAgesBelow(pairs: seq<Evidence>, index: nat): set<real>
    requires index <= |pairs|
  {
    set i | 0 <= i < index && pairs[i].died :: pairs[i].age
  }

  /** `index` splits the sorted pairs between two different ages. */
  predicate Boundary(pairs: seq<Evidence>, index: nat) {
    index <= |pairs| && forall i, j | 0 <= i < index <= j < |pairs| :: pairs[i].age < pairs[j].age
  }

  /** The pairs between two boundaries share one age. */
  predicate Group(pairs: seq<Evidence>, start: nat, end: nat, age: real) {
    && SortedByAge(pairs) && Boundary(pairs, start) && Boundary(pairs, end) && start < end
    && forall i | start <= i < end :: pairs[i].age == age
  }

  lemma GroupSplits(pairs: seq<Evidence>, start: nat, end: nat, age: real)
    requires Group(pairs, start, end, age)
    ensures forall i | 0 <= i < |pairs| ::
              (i < start ==> pairs[i].age < age) && (i >= end ==> pairs[i].age > age)
  {
    assert pairs[start].age == age;
  }

  lemma GroupAtRisk(pairs: seq<Evidence>, start: nat, end: nat, age: real)
    requires Group(pairs, start, end, age)
    ensures Count(pairs, AtLeast(age)) == |pairs| - start
  {
    GroupSplits(pairs, start, end, age);
    assert pairs == pairs[..start] + pairs[start..];
    CountAppend(pairs[..start], pairs[start..], AtLeast(age));
    CountNone(pairs[..start], AtLeast(age));
    CountAll(pairs[start..], AtLeast(age));
  }

  lemma CountInParts(pairs: seq<Evidence>, start: nat, end: nat, q: Query)
    requires start <= end <= |pairs|
    ensures Count(pairs, q) == Count(pairs[..start], q) + Count(pairs[start..end], q) + Count(pairs[end..], q)
  {
    assert pairs == pairs[..start] + (pairs[start..end] + pairs[end..]);
    CountAppend(pairs[..start], pairs[start..end] + pairs[end..], q);
    CountAppend(pairs[start..end], pairs[end..], q);
  }

  lemma GroupDeaths(pairs: seq<Evidence>, start: nat, end: nat, age: real)
    requires Group(pairs, start, end, age)
    ensures Count(pairs, DiedAt(age)) == Count(pairs[start..end], Died)
  {
    GroupSplits(pairs, start, end, age);
    var before, group, after := pairs[..start], pairs[start..end], pairs[end..];
    CountInParts(pairs, start, end, DiedAt(age));
    assert Count(before, DiedAt(age)) == 0 by { CountNone(before, DiedAt(age)); }
    assert Count(after, DiedAt(age)) == 0 by { CountNone(after, DiedAt(age)); }
    assert Count(group, DiedAt(age)) == Count(group, Died) by {
      CountMonotone(group, DiedAt(age), Died);
      CountMonotone(group, Died, DiedAt(age));
    }
  }

  lemma GroupDeathAges(pairs: seq<Evidence>, start: nat, end: nat, age: real)
    requires Group(pairs, start, end, age)
    ensures forall b | b in DeathAgesBelow(pairs, start) :: b < age
    ensures Count(pairs, DiedAt(age)) == 0 ==> DeathAgesBelow(pairs, end) == DeathAgesBelow(pairs, start)
    ensures Count(pairs, DiedAt(age)) > 0 ==>
              && DeathAgesBelow(pairs, end) == DeathAgesBelow(pairs, start) + {age}
              && DeathAges(pairs, age) == DeathAgesBelow(pairs, end)
  {
    GroupSplits(pairs, start, end, age);
    if Count(pairs, DiedAt(age)) == 0 {
      NoneCounted(pairs, DiedAt(age));
    } else {
      var i := SomeCounted(pairs, DiedAt(age));
      assert start <= i < end;
    }
  }

  lemma NoneCounted(obs: seq<Evidence>, q: Query)
    requires Count(obs, q) == 0
    ensures forall i | 0 <= i < |obs| :: !Matches(obs[i], q)
  {
    forall i | 0 <= i < |obs|
      ensures !Matches(obs[i], q)
    {
      if Matches(obs[i], q) {
        CountPositive(obs, q, i);
      }
    }
  }

  lemma {:induction false} SomeCounted(obs: seq<Evidence>, q: Query) returns (i: nat)
    requires Count(obs, q) > 0
    ensures i < |obs| && Matches(obs[i], q)
  {
    if Matches(obs[0], q) {
      i := 0;
    } else {
      i := SomeCounted(obs[1..], q);
      i := i + 1;
    }
  }

  /** The product-limit factor of one age group. */
  function AfterDeaths(survival: real, deaths: nat, atRisk: nat): real
    requires atRisk > 0
  {
    survival * GoingOn(deaths, atRisk)
  }

  lemma FoldFactor(pairs: seq<Evidence>, ages: set<real>, age: real, dead: nat, risk: nat)
    requires forall b | b in ages :: b < age
    requires dead == Count(pairs, DiedAt(age)) && 0 < risk == Count(pairs, AtLeast(age))
    ensures AfterDeaths(Product(pairs, ages), dead, risk) == Product(pairs, ages + {age})
  {
    ProductOfLarger(pairs, ages, age);
  }

  /** Where the outer loop stands at a boundary. */
  ghost predicate LoopInv(pairs: seq<Evidence>, index: nat, survival: real, steps: seq<Step>) {
    && SortedByAge(pairs) && Boundary(pairs, index)
    && survival == Product(pairs, DeathAgesBelow(pairs, index))
    && Increasing(steps) && AllFit(steps, pairs) && DeathsHaveSteps(steps, pairs, index)
    && (forall k | 0 <= k < |steps| :: steps[k].age in DeathAgesBelow(pairs, index))
  }

  method EstimateSurvival(observations: seq<SurvivalObservation>) returns (curve: Curve)
    ensures Describes(curve, EvidenceOf(observations))
  {
    var pairs := Sorted(EvidenceOf(observations));
    SortedIsASortedPermutation(EvidenceOf(observations));
    curve := CurveOf(pairs);
    DescribesAnyOrder(curve, pairs, EvidenceOf(observations));
  }

  /** One pass over the sorted pairs, one age at a time. */
  method CurveOf(pairs: seq<Evidence>) returns (curve: Curve)
    requires SortedByAge(pairs)
    ensures Describes(curve, pairs)
  {
    if pairs == [] {
      return Curve([], 0, None);
    }
    var steps: seq<Step> := [];
    var atRisk, survival, index := |pairs|, 1.0, 0;
    while index < |pairs|
      invariant LoopInv(pairs, index, survival, steps)
      invariant atRisk == |pairs| - index
    {
      var age, deaths, censored := pairs[index].age, 0, 0;
      ghost var start := index;
      while index < |pairs| && pairs[index].age == age
        invariant start <= index <= |pairs|
        invariant forall i | start <= i < index :: pairs[i].age == age
        invariant deaths == Count(pairs[start..index], Died) && deaths + censored == index - start
      {
        CountOneMore(pairs, start, index);
        if pairs[index].died {
          deaths := deaths + 1;
        } else {
          censored := censored + 1;
        }
        index := index + 1;
      }
      GroupStep(pairs, start, index, age, deaths, survival, steps);
      if deaths > 0 {
        survival := AfterDeaths(survival, deaths, atRisk);
        steps := steps + [Step(age, survival, atRisk, deaths)];
      }
      atRisk := atRisk - (deaths + censored);
    }
    curve := Curve(steps, |pairs|, Some(pairs[|pairs| - 1].age));
    LoopDescribes(pairs, survival, steps);
  }

  /** One pass of the outer loop: the pairs of one age, of which `deaths` are misses. */
  lemma GroupStep(pairs: seq<Evidence>, start: nat, end: nat, age: real, deaths: nat, survival: real, steps: seq<Step>)
    requires LoopInv(pairs, start, survival, steps) && start < end <= |pairs|
    requires forall i | start <= i < end :: pairs[i].age == age
    requires end < |pairs| ==> pairs[end].age != age
    requires deaths == Count(pairs[start..end], Died)
    ensures deaths == 0 ==> LoopInv(pairs, end, survival, steps)
    ensures deaths > 0 ==>
              var after := AfterDeaths(survival, deaths, |pairs| - start);
              LoopInv(pairs, end, after, steps + [Step(age, after, |pairs| - start, deaths)])
  {
    NextBoundary(pairs, start, end, age);
    GroupDeaths(pairs, start, end, age);
    if deaths > 0 {
      var after := AfterDeaths(survival, deaths, |pairs| - start);
      DeathStep(pairs, start, end, steps, survival, Step(age, after, |pairs| - start, deaths));
    } else {
      NoDeathStep(pairs, start, end, age, survival, steps);
    }
  }

  lemma LoopDescribes(pairs: seq<Evidence>, survival: real, steps: seq<Step>)
    requires pairs != [] && LoopInv(pairs, |pairs|, survival, steps)
    ensures Describes(Curve(steps, |pairs|, Some(pairs[|pairs| - 1].age)), pairs)
  {
  }

  lemma CountOneMore(pairs: seq<Evidence>, start: nat, index: nat)
    requires start <= index < |pairs|
    ensures Count(pairs[start..index + 1], Died) == Count(pairs[start..index], Died) + if pairs[index].died then 1 else 0
  {
    assert pairs[start..index + 1] == pairs[start..index] + [pairs[index]];
    CountAppend(pairs[start..index], [pairs[index]], Died);
  }

  lemma NextBoundary(pairs: seq<Evidence>, start: nat, end: nat, age: real)
    requires SortedByAge(pairs) && Boundary(pairs, start) && start < end <= |pairs|
    requires forall i | start <= i < end :: pairs[i].age == age
    requires end < |pairs| ==> pairs[end].age != age
    ensures Group(pairs, start, end, age)
  {
    assert pairs[start].age == age;
    forall i, j | 0 <= i < end <= j < |pairs|
      ensures pairs[i].age < pairs[j].age
    {
      assert pairs[i].age <= age;
      assert pairs[end].age <= pairs[j].age && age <= pairs[end].age;
    }
  }

  lemma NoDeathStep(pairs: seq<Evidence>, start: nat, end: nat, age: real, survival: real, steps: seq<Step>)
    requires LoopInv(pairs, start, survival, steps) && Group(pairs, start, end, age) && Count(pairs, DiedAt(age)) == 0
    ensures LoopInv(pairs, end, survival, steps)
  {
    GroupDeathAges(pairs, start, end, age);
    NoneCounted(pairs, DiedAt(age));
    forall i | 0 <= i < end && pairs[i].died
      ensures HasStep(steps, pairs[i].age)
    {
      assert i < start;
    }
  }

  lemma DeathStep(pairs: seq<Evidence>, start: nat, end: nat, steps: seq<Step>, survival: real, step: Step)
    requires LoopInv(pairs, start, survival, steps) && Group(pairs, start, end, step.age)
    requires 0 < step.events == Count(pairs, DiedAt(step.age)) && 0 < step.atRisk == |pairs| - start
    requires step.survival == AfterDeaths(survival, step.events, step.atRisk)
    ensures LoopInv(pairs, end, step.survival, steps + [step])
  {
    GroupAtRisk(pairs, start, end, step.age);
    GroupDeathAges(pairs, start, end, step.age);
    FoldFactor(pairs, DeathAgesBelow(pairs, start), step.age, step.events, step.atRisk);
    assert step.survival == Survival(pairs, step.age);
    AppendStep(pairs, start, end, steps, step, survival);
  }

  lemma AppendStep(pairs: seq<Evidence>, start: nat, end: nat, steps: seq<Step>, step: Step, survival: real)
    requires LoopInv(pairs, start, survival, steps) && Group(pairs, start, end, step.age) && StepFits(step, pairs)
    requires DeathAgesBelow(pairs, end) == DeathAgesBelow(pairs, start) + {step.age} == DeathAges(pairs, step.age)
    requires forall b | b in DeathAgesBelow(pairs, start) :: b < step.age
    ensures LoopInv(pairs, end, step.survival, steps + [step])
  {
    StillHasSteps(pairs, start, end, steps, step);
    StillFit(pairs, steps, step);
    var r := steps + [step];
    assert Increasing(r);
    assert forall k | 0 <= k < |r| :: r[k].age in DeathAgesBelow(pairs, end);
  }

  lemma StillFit(pairs: seq<Evidence>, steps: seq<Step>, step: Step)
    requires AllFit(steps, pairs) && StepFits(step, pairs)
    ensures AllFit(steps + [step], pairs)
  {
    var r := steps + [step];
    forall k | 0 <= k < |r|
      ensures StepFits(r[k], pairs)
    {
      if k < |steps| {
        assert r[k] == steps[k] && StepFits(steps[k], pairs);
      }
    }
  }

  lemma StillHasSteps(pairs: seq<Evidence>, start: nat, end: nat, steps: seq<Step>, step: Step)
    requires Group(pairs, start, end, step.age)
    requires DeathsHaveSteps(steps, pairs, start)
    ensures DeathsHaveSteps(steps + [step], pairs, end)
  {
    var r := steps + [step];
    forall i | 0 <= i < end && pairs[i].died
      ensures HasStep(r, pairs[i].age)
    {
      if i < start {
        assert HasStep(steps, pairs[i].age);
        var k :| 0 <= k < |steps| && steps[k].age == pairs[i].age;
        assert r[k].age == pairs[i].age;
      } else {
        assert r[|steps|].age == pairs[i].age;
      }
    }
  }

  /** A curve describes its observations in any order. */
  lemma DescribesAnyOrder(curve: Curve, a: seq<Evidence>, b: seq<Evidence>)
    requires multiset(a) == multiset(b) && Describes(curve, a)
    ensures Describes(curve, b)
  {
    SameElements(a, b);
    SameElements(b, a);
    forall k | 0 <= k < |curve.steps|
      ensures StepFits(curve.steps[k], b)
    {
      assert StepFits(curve.steps[k], a);
      StepFitsAnyOrder(curve.steps[k], a, b);
    }
    forall i | 0 <= i < |b| && b[i].died
      ensures HasStep(curve.steps, b[i].age)
    {
      var j :| 0 <= j < |a| && a[j] == b[i];
      assert HasStep(curve.steps, a[j].age);
    }
    assert IsHorizon(b, curve.horizon);
  }

  lemma SameElements(a: seq<Evidence>, b: seq<Evidence>)
    requires multiset(a) == multiset(b)
    ensures |a| == |b| && forall i | 0 <= i < |b| :: exists j | 0 <= j < |a| :: a[j] == b[i]
  {
    assert |multiset(a)| == |a| && |multiset(b)| == |b|;
    forall i | 0 <= i < |b|
      ensures exists j | 0 <= j < |a| :: a[j] == b[i]
    {
      assert b[i] in multiset(a);
    }
  }

  lemma StepFitsAnyOrder(step: Step, a: seq<Evidence>, b: seq<Evidence>)
    requires multiset(a) == multiset(b) && StepFits(step, a)
    ensures StepFits(step, b)
  {
    SurvivalIsOrderFree(a, b, step.age);
    DeathAgesAreOrderFree(a, b, step.age);
    CountIsOrderFree(a, b, AtLeast(step.age));
    CountIsOrderFree(a, b, DiedAt(step.age));
  }
}
